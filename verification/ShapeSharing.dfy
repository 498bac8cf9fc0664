/** When a build with explicit names gives every name back the trees it was given to. */
module ShapeSharing {
  import opened Results
  import opened Assignments
  import opened ShapeBuilder
  import opened ShapeNames

  // ----- Which node gets which name

  /** The nodes of a tree with their names, in the order in which they are entered. */
  function Nodes(model: Model, name: string, counts: Counts): (nodes: seq<Write<Model>>)
    ensures nodes != [] && nodes[|nodes| - 1] == Write(name, model)
    decreases model, 1
  {
    match model.kind
    case StructureM(fields) => FieldNodes(fields, counts) + [Write(name, model)]
    case ListM(member) =>
      var (memberName, next) := ShapeName(model, counts);
      Nodes(member, memberName, next) + [Write(name, model)]
    case MapM(key, value) =>
      var (keyName, next) := ShapeName(key, counts);
      var (valueName, last) := ShapeName(value, next);
      var first := Nodes(key, keyName, last);
      first + Nodes(value, valueName, Build(key, keyName, last).counts) + [Write(name, model)]
    case OtherM(_) => [Write(name, model)]
  }

  function FieldNodes(fields: seq<Field>, counts: Counts): seq<Write<Model>>
    decreases fields, 0
  {
    if fields == [] then []
    else
      var Field(_, model) := fields[0];
      assert (fields decreases to fields[0]);
      var (shapeName, next) := ShapeName(model, counts);
      Nodes(model, shapeName, next) + FieldNodes(fields[1..], Build(model, shapeName, next).counts)
  }

  /** The entry describes the node, and refers to the names its parts got. */
  predicate Fits(shape: Normal, node: Model, nodes: seq<Write<Model>>) {
    && shape.extra == node.extra
    && match (shape.shape, node.kind)
       case (StructureN(refs), StructureM(fields)) =>
         && |refs| == |fields|
         && forall i :: 0 <= i < |fields| ==>
              refs[i].name == fields[i].name && Write(refs[i].shape, fields[i].model) in nodes
       case (ListN(ref), ListM(member)) =>
         Write(ref, member) in nodes && (node.shapeName.Some? ==> ref == node.shapeName.value)
       case (MapN(keyRef, valueRef), MapM(key, value)) => Write(keyRef, key) in nodes && Write(valueRef, value) in nodes
       case (ScalarN(t), OtherM(u)) => t == u
       case _ => false
  }

  ghost predicate Describe(entries: seq<Write<Normal>>, nodes: seq<Write<Model>>) {
    && |entries| == |nodes|
    && forall i :: 0 <= i < |nodes| ==>
         entries[i].key == nodes[i].key && Fits(entries[i].value, nodes[i].value, nodes)
  }

  lemma FitsMore(shape: Normal, node: Model, nodes: seq<Write<Model>>, more: seq<Write<Model>>)
    requires Fits(shape, node, nodes) && forall n :: n in nodes ==> n in more
    ensures Fits(shape, node, more)
  {
  }

  lemma DescribeBoth(a: seq<Write<Normal>>, m: seq<Write<Model>>, b: seq<Write<Normal>>, n: seq<Write<Model>>)
    requires Describe(a, m) && Describe(b, n)
    ensures Describe(a + b, m + n)
  {
    hide Fits;
    forall i | 0 <= i < |m + n|
      ensures Fits((a + b)[i].value, (m + n)[i].value, m + n) && (a + b)[i].key == (m + n)[i].key
    {
      if i < |m| {
        FitsMore(a[i].value, m[i].value, m, m + n);
      } else {
        FitsMore(b[i - |m|].value, n[i - |m|].value, n, m + n);
      }
    }
  }

  lemma DescribeTop(entries: seq<Write<Normal>>, nodes: seq<Write<Model>>, name: string, shape: Normal, model: Model)
    requires Describe(entries, nodes) && Fits(shape, model, nodes)
    ensures Describe(entries + [Write(name, shape)], nodes + [Write(name, model)])
  {
    hide Fits;
    var all := nodes + [Write(name, model)];
    FitsMore(shape, model, nodes, all);
    forall i | 0 <= i < |nodes| ensures Fits(entries[i].value, nodes[i].value, all) {
      FitsMore(entries[i].value, nodes[i].value, nodes, all);
    }
  }

  lemma LastNode(model: Model, name: string, counts: Counts)
    ensures Write(name, model) in Nodes(model, name, counts)
  {
    var nodes := Nodes(model, name, counts);
    assert nodes[|nodes| - 1] == Write(name, model);
  }

  lemma {:induction false} BuildDescribes(model: Model, name: string, counts: Counts)
    requires Build(model, name, counts).invalid.None?
    ensures Describe(Build(model, name, counts).entries, Nodes(model, name, counts))
    decreases model, 1
  {
    match model.kind
    case StructureM(fields) =>
      var b := BuildFields(fields, counts);
      FieldsDescribe(fields, counts);
      DescribeTop(b.built.entries, FieldNodes(fields, counts), name, Normal(StructureN(b.refs), model.extra), model);
    case ListM(member) =>
      var (memberName, next) := ShapeName(model, counts);
      BuildDescribes(member, memberName, next);
      LastNode(member, memberName, next);
      DescribeTop(Build(member, memberName, next).entries, Nodes(member, memberName, next), name,
                  Normal(ListN(memberName), model.extra), model);
    case MapM(key, value) => MapDescribes(model, key, value, name, counts);
    case OtherM(_) =>
      DescribeTop([], [], name, Build(model, name, counts).entries[0].value, model);
      assert [] + [Write(name, model)] == [Write(name, model)];
  }

  lemma MapSteps(model: Model, key: Model, value: Model, name: string, counts: Counts)
    requires model.kind == MapM(key, value) && Build(model, name, counts).invalid.None?
    ensures
      var (keyName, next) := ShapeName(key, counts);
      var (valueName, last) := ShapeName(value, next);
      var first := Build(key, keyName, last);
      var rest := Build(value, valueName, first.counts);
      && first.invalid.None? && rest.invalid.None?
      && Build(model, name, counts).entries ==
         first.entries + rest.entries + [Write(name, Normal(MapN(keyName, valueName), model.extra))]
      && Nodes(model, name, counts) ==
         Nodes(key, keyName, last) + Nodes(value, valueName, first.counts) + [Write(name, model)]
  {
  }

  lemma MapDescribes(model: Model, key: Model, value: Model, name: string, counts: Counts)
    requires model.kind == MapM(key, value) && Build(model, name, counts).invalid.None?
    ensures Describe(Build(model, name, counts).entries, Nodes(model, name, counts))
    decreases model, 0
  {
    MapSteps(model, key, value, name, counts);
    hide Build, Nodes, ShapeName, Describe;
    var (keyName, next) := ShapeName(key, counts);
    var (valueName, last) := ShapeName(value, next);
    var first := Build(key, keyName, last);
    var rest := Build(value, valueName, first.counts);
    BuildDescribes(key, keyName, last);
    BuildDescribes(value, valueName, first.counts);
    LastNode(key, keyName, last);
    LastNode(value, valueName, first.counts);
    MapTop(first.entries, Nodes(key, keyName, last), rest.entries, Nodes(value, valueName, first.counts),
           keyName, valueName, name, model);
  }

  lemma MapTop(a: seq<Write<Normal>>, m: seq<Write<Model>>, b: seq<Write<Normal>>, n: seq<Write<Model>>,
               keyName: string, valueName: string, name: string, model: Model)
    requires Describe(a, m) && Describe(b, n) && model.kind.MapM?
    requires Write(keyName, model.kind.key) in m && Write(valueName, model.kind.value) in n
    ensures Describe(a + b + [Write(name, Normal(MapN(keyName, valueName), model.extra))], m + n + [Write(name, model)])
  {
    DescribeBoth(a, m, b, n);
    hide Describe;
    DescribeTop(a + b, m + n, name, Normal(MapN(keyName, valueName), model.extra), model);
  }

  lemma {:induction false} FieldsDescribe(fields: seq<Field>, counts: Counts)
    requires BuildFields(fields, counts).built.invalid.None?
    ensures
      var b, nodes := BuildFields(fields, counts), FieldNodes(fields, counts);
      && Describe(b.built.entries, nodes) && |b.refs| == |fields|
      && forall i :: 0 <= i < |fields| ==>
           b.refs[i].name == fields[i].name && Write(b.refs[i].shape, fields[i].model) in nodes
    decreases fields, 0
  {
    if fields != [] {
      var Field(name, model) := fields[0];
      assert (fields decreases to fields[0]);
      var (shapeName, next) := ShapeName(model, counts);
      var first := Build(model, shapeName, next);
      var rest := BuildFields(fields[1..], first.counts);
      BuildDescribes(model, shapeName, next);
      LastNode(model, shapeName, next);
      FieldsDescribe(fields[1..], first.counts);
      DescribeBoth(first.entries, Nodes(model, shapeName, next), rest.built.entries, FieldNodes(fields[1..], first.counts));
      hide Build, Nodes, Describe;
      assert forall i :: 1 <= i < |fields| ==> fields[i] == fields[1..][i - 1];
    }
  }

  // ----- Trees under a name

  /** Nodes that got the same name are the same trees, up to names of their own. */
  ghost predicate Agree(nodes: seq<Write<Model>>) {
    forall i, j :: 0 <= i < |nodes| && 0 <= j < |nodes| && nodes[i].key == nodes[j].key ==>
      Erase(nodes[i].value) == Erase(nodes[j].value)
  }

  ghost predicate AllRebuild(shapes: map<string, Normal>, nodes: seq<Write<Model>>) {
    forall i :: 0 <= i < |nodes| ==> Rebuilds(shapes, nodes[i].key, nodes[i].value)
  }

  lemma {:induction false} RebuildsErased(shapes: map<string, Normal>, name: string, a: Model, b: Model)
    requires Rebuilds(shapes, name, a) && Erase(a) == Erase(b)
    ensures Rebuilds(shapes, name, b)
    decreases a
  {
    match a.kind
    case StructureM(fields) =>
      var refs := shapes[name].shape.members;
      assert |b.kind.members| == |Erase(b).kind.members| == |fields|;
      forall i | 0 <= i < |fields|
        ensures refs[i].name == b.kind.members[i].name && Rebuilds(shapes, refs[i].shape, b.kind.members[i].model)
      {
        assert Erase(a).kind.members[i] == Erase(b).kind.members[i];
        RebuildsErased(shapes, refs[i].shape, fields[i].model, b.kind.members[i].model);
      }
    case ListM(member) => RebuildsErased(shapes, shapes[name].shape.member, member, b.kind.member);
    case MapM(key, value) =>
      RebuildsErased(shapes, shapes[name].shape.key, key, b.kind.key);
      RebuildsErased(shapes, shapes[name].shape.value, value, b.kind.value);
    case OtherM(_) =>
  }

  lemma {:induction false} StoredFrom<V>(ws: seq<Write<V>>, i: nat) returns (k: nat)
    requires i < |ws|
    ensures k < |ws| && ws[k].key == ws[i].key
    ensures ws[i].key in Stored(map[], ws) && Stored(map[], ws)[ws[i].key] == ws[k].value
    decreases |ws|
  {
    var n := |ws| - 1;
    if ws[n].key == ws[i].key {
      k := n;
    } else {
      k := StoredFrom(ws[..n], i);
    }
  }

  /** A part of a node: looked up in the shape of another node that is the same tree. */
  lemma PartRebuilds(shapes: map<string, Normal>, entries: seq<Write<Normal>>, nodes: seq<Write<Model>>, ref: string,
                     mine: Model, other: Model)
    requires Describe(entries, nodes) && Agree(nodes) && shapes == Stored(map[], entries)
    requires Write(ref, other) in nodes && Erase(mine) == Erase(other)
    ensures Rebuilds(shapes, ref, mine)
    decreases Erase(mine), 1
  {
    var j :| 0 <= j < |nodes| && nodes[j] == Write(ref, other);
    NodeRebuilds(shapes, entries, nodes, j);
    RebuildsErased(shapes, ref, other, mine);
  }

  lemma {:induction false} NodeRebuilds(shapes: map<string, Normal>, entries: seq<Write<Normal>>, nodes: seq<Write<Model>>, i: nat)
    requires Describe(entries, nodes) && Agree(nodes) && shapes == Stored(map[], entries) && i < |nodes|
    ensures Rebuilds(shapes, nodes[i].key, nodes[i].value)
    decreases Erase(nodes[i].value), 0
  {
    var k := StoredFrom(entries, i);
    var node, other, shape := nodes[i].value, nodes[k].value, entries[k].value;
    assert Erase(node) == Erase(other) && Fits(shape, other, nodes);
    match node.kind
    case StructureM(fields) =>
      var refs := shape.shape.members;
      assert |other.kind.members| == |Erase(other).kind.members| == |fields|;
      forall f | 0 <= f < |fields|
        ensures refs[f].name == fields[f].name && Rebuilds(shapes, refs[f].shape, fields[f].model)
      {
        assert Erase(node).kind.members[f] == Erase(other).kind.members[f];
        PartRebuilds(shapes, entries, nodes, refs[f].shape, fields[f].model, other.kind.members[f].model);
      }
    case ListM(member) => PartRebuilds(shapes, entries, nodes, shape.shape.member, member, other.kind.member);
    case MapM(key, value) =>
      PartRebuilds(shapes, entries, nodes, shape.shape.key, key, other.kind.key);
      PartRebuilds(shapes, entries, nodes, shape.shape.value, value, other.kind.value);
    case OtherM(_) =>
  }

  /** Every name gives back the trees it was given to exactly when nodes of one name are the same tree. */
  lemma RebuildsIffNamesAgree(model: Model, name: string, counts: Counts)
    requires Build(model, name, counts).invalid.None?
    ensures
      var shapes, nodes := Stored(map[], Build(model, name, counts).entries), Nodes(model, name, counts);
      && (AllRebuild(shapes, nodes) <==> Agree(nodes))
      && (Agree(nodes) ==> Rebuilds(shapes, name, model))
  {
    var entries, nodes := Build(model, name, counts).entries, Nodes(model, name, counts);
    var shapes := Stored(map[], entries);
    BuildDescribes(model, name, counts);
    hide Build, Nodes, Describe, Rebuilds, Erase;
    if Agree(nodes) {
      forall i | 0 <= i < |nodes| ensures Rebuilds(shapes, nodes[i].key, nodes[i].value) {
        NodeRebuilds(shapes, entries, nodes, i);
      }
    }
    if AllRebuild(shapes, nodes) {
      forall i, j | 0 <= i < |nodes| && 0 <= j < |nodes| && nodes[i].key == nodes[j].key
        ensures Erase(nodes[i].value) == Erase(nodes[j].value)
      {
        RebuildsOne(shapes, nodes[i].key, nodes[i].value, nodes[j].value);
      }
    }
  }

  /** A list that got its own explicit name disagrees with its member, which gets that name too. */
  lemma NamedListDisagrees(model: Model, name: string, counts: Counts, i: nat)
    requires Build(model, name, counts).invalid.None? && i < |Nodes(model, name, counts)|
    requires
      var node := Nodes(model, name, counts)[i];
      node.value.kind.ListM? && node.value.shapeName == Some(node.key)
    ensures !Agree(Nodes(model, name, counts))
  {
    BuildDescribes(model, name, counts);
    var entries, nodes := Build(model, name, counts).entries, Nodes(model, name, counts);
    var list := nodes[i].value;
    assert Fits(entries[i].value, list, nodes);
    hide Build, Nodes, Describe, Erase;
    var j :| 0 <= j < |nodes| && nodes[j] == Write(nodes[i].key, list.kind.member);
    MemberDiffers(list);
  }

  lemma MemberDiffers(list: Model)
    requires list.kind.ListM?
    ensures Erase(list) != Erase(list.kind.member)
  {
    assert Erase(list).kind.member == Erase(list.kind.member);
  }

  // ----- Names that disagree out of sight

  function Leaf(t: string, name: string): Model {
    Model(OtherM(t), Some(name), NOTHING)
  }

  function Pair(name: string, part: Model): Model {
    Model(StructureM([Field("u", part)]), Some(name), NOTHING)
  }

  /** Two structures of the name p, and inside the first, which the second replaces, a string of the name x that an
      integer gets as well. */
  function Shadowing(p: string, x: string, w: string): Model {
    Root([Field("a", Pair(p, Leaf("string", x))), Field("b", Pair(p, Leaf("string", w))), Field("c", Leaf("integer", x))])
  }

  function PairEntries(name: string, x: string, t: string): seq<Write<Normal>> {
    [Write(x, Normal(ScalarN(t), NOTHING)), Write(name, Normal(StructureN([MemberRef("u", x)]), NOTHING))]
  }

  lemma LeafBuild(t: string, name: string, counts: Counts)
    requires t in SCALARS
    ensures Build(Leaf(t, name), name, counts) == Built([Write(name, Normal(ScalarN(t), NOTHING))], counts, None)
    ensures Nodes(Leaf(t, name), name, counts) == [Write(name, Leaf(t, name))]
    ensures ShapeName(Leaf(t, name), counts) == (name, counts)
  {
  }

  lemma NamedField(f: Field, name: string, rest: seq<Field>, first: Built, others: BuiltFields, counts: Counts)
    requires f.model.shapeName == Some(name) && Build(f.model, name, counts) == first && first.invalid.None?
    requires BuildFields(rest, first.counts) == others && others.built.invalid.None?
    ensures BuildFields([f] + rest, counts) ==
            BuiltFields([MemberRef(f.name, name)] + others.refs,
                        Built(first.entries + others.built.entries, others.built.counts, None))
    ensures FieldNodes([f] + rest, counts) == Nodes(f.model, name, counts) + FieldNodes(rest, first.counts)
  {
    assert ([f] + rest)[1..] == rest;
  }

  lemma PairBuild(name: string, x: string, t: string, counts: Counts)
    requires t in SCALARS
    ensures Build(Pair(name, Leaf(t, x)), name, counts) == Built(PairEntries(name, x, t), counts, None)
    ensures Nodes(Pair(name, Leaf(t, x)), name, counts) == [Write(x, Leaf(t, x)), Write(name, Pair(name, Leaf(t, x)))]
  {
    LeafBuild(t, x, counts);
    var f := Field("u", Leaf(t, x));
    NamedField(f, x, [], Build(Leaf(t, x), x, counts), BuiltFields([], Built([], counts, None)), counts);
    assert [f] + [] == [f] && FieldNodes([], counts) == [];
    assert [MemberRef("u", x)] + [] == [MemberRef("u", x)];
  }

  lemma NoFields(counts: Counts)
    ensures FieldNodes([], counts) == [] && BuildFields([], counts) == BuiltFields([], Built([], counts, None))
  {
  }

  lemma LastField(x: string, counts: Counts)
    ensures
      var c := Field("c", Leaf("integer", x));
      && BuildFields([c], counts) ==
         BuiltFields([MemberRef("c", x)], Built([Write(x, Normal(ScalarN("integer"), NOTHING))], counts, None))
      && FieldNodes([c], counts) == [Write(x, Leaf("integer", x))]
  {
    assert "integer" == SCALARS[1];
    LeafBuild("integer", x, counts);
    NoFields(counts);
    hide Nodes, Build, Leaf, BuildFields, FieldNodes, SCALARS, ShapeName;
    var c := Field("c", Leaf("integer", x));
    assert [c] + [] == [c] by { assert c == c; }
    LeafIsNamed("integer", x);
    NamedField(c, x, [], Build(c.model, x, counts), BuildFields([], counts), counts);
  }

  lemma LeafIsNamed(t: string, x: string)
    ensures Leaf(t, x).shapeName == Some(x)
  {
  }

  /** One more field that is a pair. */
  lemma PairField(name: string, p: string, x: string, rest: seq<Field>, others: BuiltFields, counts: Counts)
    requires BuildFields(rest, counts) == others && others.built.invalid.None? && others.built.counts == counts
    ensures
      var f := Field(name, Pair(p, Leaf("string", x)));
      && BuildFields([f] + rest, counts) ==
         BuiltFields([MemberRef(name, p)] + others.refs,
                     Built(PairEntries(p, x, "string") + others.built.entries, counts, None))
      && FieldNodes([f] + rest, counts) == Nodes(f.model, p, counts) + FieldNodes(rest, counts)
  {
    assert "string" == SCALARS[0];
    PairBuild(p, x, "string", counts);
    hide Nodes, Build, Leaf, BuildFields, FieldNodes, PairEntries, SCALARS, ShapeName;
    NamedField(Field(name, Pair(p, Leaf("string", x))), p, rest, Built(PairEntries(p, x, "string"), counts, None), others, counts);
  }

  lemma ShadowingBuild(p: string, x: string, w: string, counts: Counts)
    ensures
      var b := BuildFields(Shadowing(p, x, w).kind.members, counts);
      && b.refs == [MemberRef("a", p), MemberRef("b", p), MemberRef("c", x)]
      && b.built == Built(PairEntries(p, x, "string") + (PairEntries(p, w, "string") +
                          [Write(x, Normal(ScalarN("integer"), NOTHING))]), counts, None)
    ensures FieldNodes(Shadowing(p, x, w).kind.members, counts) ==
            Nodes(Pair(p, Leaf("string", x)), p, counts) + (Nodes(Pair(p, Leaf("string", w)), p, counts) +
            [Write(x, Leaf("integer", x))])
  {
    hide Nodes, Build, Pair, Leaf, BuildFields, FieldNodes, PairEntries, SCALARS, ShapeName;
    var a, b, c := Field("a", Pair(p, Leaf("string", x))), Field("b", Pair(p, Leaf("string", w))), Field("c", Leaf("integer", x));
    LastField(x, counts);
    PairField("b", p, w, [c], BuildFields([c], counts), counts);
    PairField("a", p, x, [b] + [c], BuildFields([b] + [c], counts), counts);
    assert [a] + ([b] + [c]) == [a, b, c];
  }

  lemma StoredSix<V>(a: Write<V>, b: Write<V>, c: Write<V>, d: Write<V>, e: Write<V>, f: Write<V>)
    ensures Stored(map[], [a, b] + ([c, d] + [e]) + [f]) ==
            map[a.key := a.value][b.key := b.value][c.key := c.value][d.key := d.value][e.key := e.value][f.key := f.value]
  {
    var ws := [a, b] + ([c, d] + [e]) + [f];
    assert ws == [a, b, c, d, e, f];
    assert ws[..5] == [a, b, c, d, e] && ws[..5][..4] == [a, b, c, d] && [a, b, c, d][..3] == [a, b, c];
    assert [a, b, c][..2] == [a, b] && [a, b][..1] == [a] && [a][..0] == [];
    assert Stored(map[], [a]) == map[a.key := a.value];
    assert Stored(map[], [a, b]) == map[a.key := a.value][b.key := b.value];
    assert Stored(map[], [a, b, c]) == map[a.key := a.value][b.key := b.value][c.key := c.value];
    assert Stored(map[], [a, b, c, d]) == map[a.key := a.value][b.key := b.value][c.key := c.value][d.key := d.value];
  }

  /** The root can be rebuilt although a name was given to different trees: agreement is needed for every name to be
      rebuilt, not for the root alone. */
  lemma ShadowedNameDoesNoHarm(p: string, x: string, w: string)
    requires p != x && p != w && x != w && ROOT_NAME !in {p, x, w}
    ensures
      var model := Shadowing(p, x, w);
      var b := Build(model, ROOT_NAME, ROOT_COUNTS);
      && b.invalid.None? && !Agree(Nodes(model, ROOT_NAME, ROOT_COUNTS))
      && Rebuilds(Stored(map[], b.entries), ROOT_NAME, model)
  {
    var model := Shadowing(p, x, w);
    ShadowingBuild(p, x, w, ROOT_COUNTS);
    var b := Build(model, ROOT_NAME, ROOT_COUNTS);
    var fields := BuildFields(model.kind.members, ROOT_COUNTS);
    ShadowedRebuilds(p, x, w, Normal(StructureN(fields.refs), NOTHING));
    ShadowedDisagree(p, x, w);
  }

  lemma ShadowedRebuilds(p: string, x: string, w: string, top: Normal)
    requires p != x && p != w && x != w && ROOT_NAME !in {p, x, w}
    requires top == Normal(StructureN([MemberRef("a", p), MemberRef("b", p), MemberRef("c", x)]), NOTHING)
    ensures
      var entries := PairEntries(p, x, "string") + (PairEntries(p, w, "string") +
                     [Write(x, Normal(ScalarN("integer"), NOTHING))]) + [Write(ROOT_NAME, top)];
      Rebuilds(Stored(map[], entries), ROOT_NAME, Shadowing(p, x, w))
  {
    hide ROOT_NAME;
    var first, second := PairEntries(p, x, "string"), PairEntries(p, w, "string");
    var c, d := Write(x, Normal(ScalarN("integer"), NOTHING)), Write(ROOT_NAME, top);
    StoredSix(first[0], first[1], second[0], second[1], c, d);
    assert first == [first[0], first[1]] && second == [second[0], second[1]];
    var shapes := Stored(map[], first + (second + [c]) + [d]);
    hide Stored;
    assert shapes[p] == second[1].value && shapes[w] == second[0].value && shapes[x] == c.value && shapes[ROOT_NAME] == top;
    assert Rebuilds(shapes, w, Leaf("string", w)) && Rebuilds(shapes, x, Leaf("integer", x));
    assert Rebuilds(shapes, w, Leaf("string", x));
    assert Rebuilds(shapes, p, Pair(p, Leaf("string", w))) && Rebuilds(shapes, p, Pair(p, Leaf("string", x)));
  }

  lemma ShadowedDisagree(p: string, x: string, w: string)
    ensures !Agree(Nodes(Shadowing(p, x, w), ROOT_NAME, ROOT_COUNTS))
  {
    hide ROOT_NAME;
    ShadowingBuild(p, x, w, ROOT_COUNTS);
    assert "string" == SCALARS[0];
    PairBuild(p, x, "string", ROOT_COUNTS);
    PairBuild(p, w, "string", ROOT_COUNTS);
    var nodes := Nodes(Shadowing(p, x, w), ROOT_NAME, ROOT_COUNTS);
    assert nodes[0] == Write(x, Leaf("string", x)) && nodes[4] == Write(x, Leaf("integer", x));
    assert Erase(nodes[0].value).kind.typeName != Erase(nodes[4].value).kind.typeName;
  }
}
