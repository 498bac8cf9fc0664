/** DenormalizedStructureBuilder and ShapeNameGenerator of botocore/model.py: nested models become a flat shape map. */
module ShapeBuilder {
  import opened Results
  import opened Assignments
  import opened Numerals

  datatype Documentation = Documentation(documentation: Option<string>, choices: Option<seq<string>>)

  /** A denormalized model: shapes nested in shapes, each with an optional explicit name. */
  datatype Model = Model(kind: Kind, shapeName: Option<string>, extra: Documentation)

  datatype Kind =
    | StructureM(members: seq<Field>)
    | ListM(member: Model)
    | MapM(key: Model, value: Model)
    | OtherM(typeName: string)

  datatype Field = Field(name: string, model: Model)

  /** A shape of the map, which refers to others by name. */
  datatype Normal = Normal(shape: NormalKind, extra: Documentation)

  datatype NormalKind =
    | StructureN(members: seq<MemberRef>)
    | ListN(member: string)
    | MapN(key: string, value: string)
    | ScalarN(typeName: string)

  datatype MemberRef = MemberRef(name: string, shape: string)

  const SCALARS := ["string", "integer", "boolean", "blob", "float", "timestamp", "long", "double", "char"]

  function TypeName(model: Model): string {
    match model.kind
    case StructureM(_) => "structure"
    case ListM(_) => "list"
    case MapM(_, _) => "map"
    case OtherM(t) => t
  }

  // ----- Generated names

  type Counts = map<string, nat>

  function CountOf(counts: Counts, t: string): nat {
    if t in counts then counts[t] else 0
  }

  /** str.capitalize for a word of lower-case letters. */
  function Capitalized(t: string): string {
    if t != "" && 'a' <= t[0] <= 'z' then [t[0] - 'a' + 'A'] + t[1..] else t
  }

  function NameFor(t: string, n: nat): string {
    Capitalized(t) + "Type" + NatText(n)
  }

  /** The name a model is referred to by: its own, or the next one of its type. */
  function ShapeName(model: Model, counts: Counts): (string, Counts) {
    match model.shapeName
    case Some(name) => (name, counts)
    case None =>
      var t := TypeName(model);
      var n := CountOf(counts, t) + 1;
      (NameFor(t, n), counts[t := n])
  }

  // ----- Building

  /** The entries put into the shape map, the counters afterwards, and the unknown type that ended the build. */
  datatype Built = Built(entries: seq<Write<Normal>>, counts: Counts, invalid: Option<string>)

  datatype BuiltFields = BuiltFields(refs: seq<MemberRef>, built: Built)

  /** _build_model. */
  function Build(model: Model, name: string, counts: Counts): Built
    decreases model, 1
  {
    match model.kind
    case StructureM(fields) =>
      var b := BuildFields(fields, counts);
      Enter(b.built, name, Normal(StructureN(b.refs), model.extra))
    case ListM(member) =>
      // The member is named after the list, not after its own model.
      var (memberName, next) := ShapeName(model, counts);
      Enter(Build(member, memberName, next), name, Normal(ListN(memberName), model.extra))
    case MapM(key, value) =>
      var (keyName, next) := ShapeName(key, counts);
      var (valueName, last) := ShapeName(value, next);
      Enter(Followed(Build(key, keyName, last), value, valueName), name, Normal(MapN(keyName, valueName), model.extra))
    case OtherM(t) =>
      if t in SCALARS then Built([Write(name, Normal(ScalarN(t), model.extra))], counts, None)
      else Built([], counts, Some(t))
  }

  /** The shape is entered once everything inside it has been. */
  function Enter(inside: Built, name: string, shape: Normal): Built {
    if inside.invalid.Some? then inside else inside.(entries := inside.entries + [Write(name, shape)])
  }

  function Followed(first: Built, model: Model, name: string): Built
    decreases model, 2
  {
    if first.invalid.Some? then first
    else
      var rest := Build(model, name, first.counts);
      Built(first.entries + rest.entries, rest.counts, rest.invalid)
  }

  function BuildFields(fields: seq<Field>, counts: Counts): BuiltFields
    decreases fields, 0
  {
    if fields == [] then BuiltFields([], Built([], counts, None))
    else
      var Field(name, model) := fields[0];
      assert (fields decreases to fields[0]);
      var (shapeName, next) := ShapeName(model, counts);
      var first := Build(model, shapeName, next);
      if first.invalid.Some? then BuiltFields([], first)
      else
        var rest := BuildFields(fields[1..], first.counts);
        BuiltFields([MemberRef(name, shapeName)] + rest.refs,
                    Built(first.entries + rest.built.entries, rest.built.counts, rest.built.invalid))
  }

  // ----- Resolving

  /** Following the references from a name gives back the model, up to the explicit names. */
  predicate Rebuilds(shapes: map<string, Normal>, name: string, model: Model)
    decreases model
  {
    && name in shapes && shapes[name].extra == model.extra
    && match (shapes[name].shape, model.kind)
       case (StructureN(refs), StructureM(fields)) =>
         && |refs| == |fields|
         && forall i :: 0 <= i < |fields| ==>
              refs[i].name == fields[i].name && Rebuilds(shapes, refs[i].shape, fields[i].model)
       case (ListN(ref), ListM(member)) => Rebuilds(shapes, ref, member)
       case (MapN(keyRef, valueRef), MapM(key, value)) => Rebuilds(shapes, keyRef, key) && Rebuilds(shapes, valueRef, value)
       case (ScalarN(t), OtherM(u)) => t == u
       case _ => false
  }

  /** The map holds all that was entered. */
  ghost predicate Holds(shapes: map<string, Normal>, entries: seq<Write<Normal>>) {
    forall i :: 0 <= i < |entries| ==> entries[i].key in shapes && shapes[entries[i].key] == entries[i].value
  }

  lemma HoldsBoth(shapes: map<string, Normal>, a: seq<Write<Normal>>, b: seq<Write<Normal>>)
    ensures Holds(shapes, a + b) <==> Holds(shapes, a) && Holds(shapes, b)
  {
    assert forall i :: 0 <= i < |a| ==> (a + b)[i] == a[i];
    assert forall i :: 0 <= i < |b| ==> (a + b)[|a| + i] == b[i];
  }

  /** A map that lost none of the entries of a build gives the model back. */
  lemma {:induction false} HeldRebuilds(model: Model, name: string, counts: Counts, shapes: map<string, Normal>)
    requires Build(model, name, counts).invalid.None? && Holds(shapes, Build(model, name, counts).entries)
    ensures Rebuilds(shapes, name, model)
    decreases model, 1
  {
    var entries := Build(model, name, counts).entries;
    var last := entries[|entries| - 1];
    assert last.key in shapes && shapes[last.key] == last.value;
    HoldsBoth(shapes, entries[..|entries| - 1], [last]);
    match model.kind
    case StructureM(fields) =>
      var b := BuildFields(fields, counts);
      assert entries[..|entries| - 1] == b.built.entries;
      FieldsRebuild(fields, counts, shapes);
    case ListM(member) =>
      var (memberName, next) := ShapeName(model, counts);
      assert entries[..|entries| - 1] == Build(member, memberName, next).entries;
      HeldRebuilds(member, memberName, next, shapes);
    case MapM(key, value) =>
      var (keyName, next) := ShapeName(key, counts);
      var (valueName, after) := ShapeName(value, next);
      var first := Build(key, keyName, after);
      var rest := Build(value, valueName, first.counts);
      assert entries[..|entries| - 1] == first.entries + rest.entries;
      HoldsBoth(shapes, first.entries, rest.entries);
      HeldRebuilds(key, keyName, after, shapes);
      HeldRebuilds(value, valueName, first.counts, shapes);
    case OtherM(_) =>
  }

  lemma {:induction false} FieldsRebuild(fields: seq<Field>, counts: Counts, shapes: map<string, Normal>)
    requires
      var b := BuildFields(fields, counts);
      b.built.invalid.None? && Holds(shapes, b.built.entries)
    ensures
      var refs := BuildFields(fields, counts).refs;
      && |refs| == |fields|
      && forall i :: 0 <= i < |fields| ==>
           refs[i].name == fields[i].name && Rebuilds(shapes, refs[i].shape, fields[i].model)
    decreases fields, 0
  {
    if fields != [] {
      var Field(name, model) := fields[0];
      assert (fields decreases to fields[0]);
      var (shapeName, next) := ShapeName(model, counts);
      var first := Build(model, shapeName, next);
      var rest := BuildFields(fields[1..], first.counts);
      HoldsBoth(shapes, first.entries, rest.built.entries);
      HeldRebuilds(model, shapeName, next, shapes);
      FieldsRebuild(fields[1..], first.counts, shapes);
      hide Rebuilds, Build;
      assert forall i :: 1 <= i < |fields| ==> fields[i] == fields[1..][i - 1];
    }
  }
}
