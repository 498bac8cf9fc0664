/** The builder as it runs: a shape dictionary and name counters that are filled in place. */
module StructureBuilders {
  import opened Results
  import opened Assignments
  import opened ShapeBuilder
  import opened ShapeNames

  class ShapeNameGenerator {
    var counts: Counts

    constructor ()
      ensures counts == map[]
    {
      counts := map[];
    }

    method NewShapeName(t: string) returns (name: string)
      modifies this
      ensures name == NameFor(t, CountOf(old(counts), t) + 1)
      ensures counts == old(counts)[t := CountOf(old(counts), t) + 1]
    {
      counts := counts[t := CountOf(counts, t) + 1];
      name := NameFor(t, counts[t]);
    }
  }

  class ShapeDict {
    var shapes: map<string, Normal>

    constructor ()
      ensures shapes == map[]
    {
      shapes := map[];
    }
  }

  datatype BuildError = InvalidShapeError(typeName: string) | AttributeError

  /** The dictionary and the counters after a part of the build. */
  predicate Did(before: map<string, Normal>, after: map<string, Normal>, counts: Counts, invalid: Option<string>, b: Built) {
    after == Stored(before, b.entries) && counts == b.counts && invalid == b.invalid
  }

  lemma DidThen(before: map<string, Normal>, mid: map<string, Normal>, after: map<string, Normal>, counts: Counts,
                invalid: Option<string>, first: Built, rest: Built)
    requires Did(before, mid, first.counts, None, first) && Did(mid, after, counts, invalid, rest)
    ensures Did(before, after, counts, invalid, Built(first.entries + rest.entries, rest.counts, rest.invalid))
  {
    StoredBoth(before, first.entries, rest.entries);
  }

  function Prepend(refs: seq<MemberRef>, entries: seq<Write<Normal>>, rest: BuiltFields): BuiltFields {
    BuiltFields(refs + rest.refs, Built(entries + rest.built.entries, rest.built.counts, rest.built.invalid))
  }

  /** The fields built so far leave `rest` of the whole structure. */
  ghost predicate Leaving(before: map<string, Normal>, now: map<string, Normal>, refs: seq<MemberRef>, rest: BuiltFields, whole: BuiltFields) {
    exists done: seq<Write<Normal>> :: now == Stored(before, done) && whole == Prepend(refs, done, rest)
  }

  lemma LeavingAll(before: map<string, Normal>, whole: BuiltFields)
    ensures Leaving(before, before, [], whole, whole)
  {
    assert before == Stored(before, []) && whole == Prepend([], [], whole);
  }

  lemma FieldsStep(fields: seq<Field>, i: nat, counts: Counts)
    requires i < |fields|
    ensures
      var (shapeName, next) := ShapeName(fields[i].model, counts);
      var first := Build(fields[i].model, shapeName, next);
      BuildFields(fields[i..], counts) ==
        if first.invalid.Some? then BuiltFields([], first)
        else Prepend([MemberRef(fields[i].name, shapeName)], first.entries, BuildFields(fields[i + 1..], first.counts))
  {
    hide Build, ShapeName;
    assert fields[i..][0] == fields[i] && fields[i..][1..] == fields[i + 1..];
  }

  lemma OneField(before: map<string, Normal>, now: map<string, Normal>, next: map<string, Normal>, refs: seq<MemberRef>,
                 ref: MemberRef, invalid: Option<string>, first: Built, later: BuiltFields, rest: BuiltFields, whole: BuiltFields)
    requires Leaving(before, now, refs, rest, whole) && Did(now, next, first.counts, invalid, first)
    requires rest == if invalid.Some? then BuiltFields([], first) else Prepend([ref], first.entries, later)
    ensures if invalid.Some? then Did(before, next, first.counts, invalid, whole.built)
            else Leaving(before, next, refs + [ref], later, whole)
  {
    var done: seq<Write<Normal>> :| now == Stored(before, done) && whole == Prepend(refs, done, rest);
    StoredBoth(before, done, first.entries);
    hide Stored;
    if invalid.None? {
      assert refs + ([ref] + later.refs) == (refs + [ref]) + later.refs;
      assert done + (first.entries + later.built.entries) == (done + first.entries) + later.built.entries;
      assert whole == Prepend(refs + [ref], done + first.entries, later);
    }
  }

  lemma NoFields(counts: Counts)
    ensures BuildFields([], counts) == BuiltFields([], Built([], counts, None))
  {
  }

  lemma LeavingNothing(before: map<string, Normal>, now: map<string, Normal>, refs: seq<MemberRef>, counts: Counts, whole: BuiltFields)
    requires Leaving(before, now, refs, BuiltFields([], Built([], counts, None)), whole)
    ensures Did(before, now, counts, None, whole.built) && refs == whole.refs
  {
    var done: seq<Write<Normal>> :| now == Stored(before, done) && whole == Prepend(refs, done, BuiltFields([], Built([], counts, None)));
    assert done + [] == done && refs + [] == refs;
  }

  class DenormalizedStructureBuilder {
    const nameGenerator: ShapeNameGenerator
    /** Set only when no name is passed. */
    var name: Option<string>
    var members: Option<seq<Field>>

    constructor (name: Option<string>)
      ensures fresh(nameGenerator) && members == None
      ensures name.None? ==> this.name == Some("StructureType1") == Some(ROOT_NAME)
      ensures if name.None? then nameGenerator.counts == ROOT_COUNTS
              else this.name == None && nameGenerator.counts == map[]
    {
      nameGenerator := new ShapeNameGenerator();
      this.name, members := None, None;
      new;
      if name.None? {
        var n := nameGenerator.NewShapeName("structure");
        this.name := Some(n);
        RootName();
      }
    }

    method WithMembers(members: seq<Field>)
      modifies this
      ensures this.members == Some(members) && name == old(name)
    {
      this.members := Some(members);
    }

    /** The shape map and the name of its root. With an explicit name, or without members, an attribute is missing. */
    method BuildModel() returns (r: Result<(string, map<string, Normal>), BuildError>)
      modifies nameGenerator
      ensures name.None? || members.None? ==> r == Err(AttributeError)
      ensures name.Some? && members.Some? ==>
        var b := Build(Root(members.value), name.value, old(nameGenerator.counts));
        && nameGenerator.counts == b.counts
        && r == if b.invalid.Some? then Err(InvalidShapeError(b.invalid.value)) else Ok((name.value, Stored(map[], b.entries)))
    {
      if name.None? || members.None? { return Err(AttributeError); }
      var dict := new ShapeDict();
      var invalid := BuildInto(Root(members.value), dict, name.value);
      if invalid.Some? { return Err(InvalidShapeError(invalid.value)); }
      return Ok((name.value, dict.shapes));
    }

    method GetShapeName(model: Model) returns (shapeName: string)
      modifies nameGenerator
      ensures (shapeName, nameGenerator.counts) == ShapeName(model, old(nameGenerator.counts))
    {
      if model.shapeName.Some? { return model.shapeName.value; }
      shapeName := nameGenerator.NewShapeName(TypeName(model));
    }

    method BuildInto(model: Model, dict: ShapeDict, shapeName: string) returns (invalid: Option<string>)
      modifies nameGenerator, dict
      ensures Did(old(dict.shapes), dict.shapes, nameGenerator.counts, invalid, Build(model, shapeName, old(nameGenerator.counts)))
      decreases model, 1
    {
      ghost var before, counts := dict.shapes, nameGenerator.counts;
      ghost var inside: Built;
      var shape;
      match model.kind {
        case StructureM(fields) =>
          inside := BuildFields(fields, counts).built;
          var refs;
          refs, invalid := BuildStructure(fields, dict);
          shape := StructureN(refs);
        case ListM(member) =>
          inside := ListInside(model, member, counts);
          var memberName := GetShapeName(model);
          invalid := BuildInto(member, dict, memberName);
          shape := ListN(memberName);
        case MapM(key, value) =>
          inside := MapInside(key, value, counts);
          var keyName := GetShapeName(key);
          var valueName := GetShapeName(value);
          invalid := BuildMap(key, value, keyName, valueName, dict);
          shape := MapN(keyName, valueName);
        case OtherM(t) =>
          if t !in SCALARS { return Some(t); }
          inside, invalid, shape := Built([], counts, None), None, ScalarN(t);
      }
      hide Build, Stored;
      if invalid.Some? { return; }
      ghost var mid := dict.shapes;
      dict.shapes := dict.shapes[shapeName := Normal(shape, model.extra)];
      Entering(before, mid, inside, shapeName, Normal(shape, model.extra));
    }

    lemma Entering(before: map<string, Normal>, mid: map<string, Normal>, inside: Built, name: string, shape: Normal)
      requires Did(before, mid, inside.counts, None, inside)
      ensures Did(before, mid[name := shape], inside.counts, None, Enter(inside, name, shape))
    {
      StoredOne(mid, Write(name, shape));
      StoredBoth(before, inside.entries, [Write(name, shape)]);
    }

    ghost function ListInside(model: Model, member: Model, counts: Counts): Built {
      var (memberName, next) := ShapeName(model, counts);
      Build(member, memberName, next)
    }

    ghost function MapInside(key: Model, value: Model, counts: Counts): Built {
      var (keyName, next) := ShapeName(key, counts);
      var (valueName, last) := ShapeName(value, next);
      Followed(Build(key, keyName, last), value, valueName)
    }

    method BuildMap(key: Model, value: Model, keyName: string, valueName: string, dict: ShapeDict) returns (invalid: Option<string>)
      modifies nameGenerator, dict
      ensures Did(old(dict.shapes), dict.shapes, nameGenerator.counts, invalid,
                  Followed(Build(key, keyName, old(nameGenerator.counts)), value, valueName))
      decreases MapM(key, value), 2
    {
      hide Build, Stored;
      ghost var before := dict.shapes;
      ghost var first := Build(key, keyName, nameGenerator.counts);
      invalid := BuildInto(key, dict, keyName);
      if invalid.Some? { return; }
      ghost var mid := dict.shapes;
      invalid := BuildInto(value, dict, valueName);
      DidThen(before, mid, dict.shapes, nameGenerator.counts, invalid, first, Build(value, valueName, first.counts));
    }

    /** The loop over the members of a structure. */
    method BuildStructure(fields: seq<Field>, dict: ShapeDict) returns (refs: seq<MemberRef>, invalid: Option<string>)
      modifies nameGenerator, dict
      ensures
        var b := BuildFields(fields, old(nameGenerator.counts));
        && Did(old(dict.shapes), dict.shapes, nameGenerator.counts, invalid, b.built)
        && (invalid.None? ==> refs == b.refs)
      decreases fields, 0
    {
      ghost var before, whole := dict.shapes, BuildFields(fields, nameGenerator.counts);
      LeavingAll(before, whole);
      assert fields[0..] == fields;
      hide Build, Stored, Leaving, BuildFields, ShapeName;
      refs, invalid := [], None;
      for i := 0 to |fields|
        invariant invalid.None?
        invariant Leaving(before, dict.shapes, refs, BuildFields(fields[i..], nameGenerator.counts), whole)
      {
        assert (fields decreases to fields[i]);
        ghost var mid, counts := dict.shapes, nameGenerator.counts;
        FieldsStep(fields, i, counts);
        var shapeName := GetShapeName(fields[i].model);
        ghost var first := Build(fields[i].model, shapeName, nameGenerator.counts);
        invalid := BuildInto(fields[i].model, dict, shapeName);
        OneField(before, mid, dict.shapes, refs, MemberRef(fields[i].name, shapeName), invalid, first,
                 BuildFields(fields[i + 1..], first.counts), BuildFields(fields[i..], counts), whole);
        if invalid.Some? { return; }
        refs := refs + [MemberRef(fields[i].name, shapeName)];
      }
      NoFields(nameGenerator.counts);
      assert fields[|fields|..] == [];
      LeavingNothing(before, dict.shapes, refs, nameGenerator.counts, whole);
    }
  }
}
