/** Generated shape names never repeat, so a build without explicit names loses nothing. */
module ShapeNames {
  import opened Results
  import opened Assignments
  import opened Numerals
  import opened ShapeBuilder

  // ----- Names tell the type and the number

  predicate Word(s: string) {
    s != "" && forall i :: 0 <= i < |s| ==> 'a' <= s[i] <= 'z'
  }

  function FirstDigit(s: string, from: nat): (n: nat)
    requires from <= |s|
    ensures from <= n <= |s| && (n < |s| ==> IsDigit(s[n]))
    ensures forall i :: from <= i < n ==> !IsDigit(s[i])
    decreases |s| - from
  {
    if from == |s| || IsDigit(s[from]) then from else FirstDigit(s, from + 1)
  }

  lemma DigitsStart(head: string, n: nat)
    requires forall i :: 0 <= i < |head| ==> !IsDigit(head[i])
    ensures FirstDigit(head + NatText(n), 0) == |head|
  {
    var s := head + NatText(n);
    assert s[|head|] == NatText(n)[0] && IsDigit(NatText(n)[0]);
    assert forall i :: 0 <= i < |head| ==> s[i] == head[i];
  }

  lemma NoDigits(t: string)
    requires Word(t)
    ensures
      var head := Capitalized(t) + "Type";
      forall i :: 0 <= i < |head| ==> !IsDigit(head[i])
  {
  }

  lemma CapitalizedInjective(t: string, u: string)
    requires Word(t) && Word(u) && Capitalized(t) == Capitalized(u)
    ensures t == u
  {
    assert t == [t[0]] + t[1..] && u == [u[0]] + u[1..];
    assert Capitalized(t)[1..] == t[1..] && Capitalized(u)[1..] == u[1..];
    assert Capitalized(t)[0] == t[0] - 'a' + 'A' && Capitalized(u)[0] == u[0] - 'a' + 'A';
  }

  /** Two generated names are equal only for the same type and number. */
  lemma NameForInjective(t: string, n: nat, u: string, k: nat)
    requires Word(t) && Word(u) && NameFor(t, n) == NameFor(u, k)
    ensures t == u && n == k
  {
    var a, b := Capitalized(t) + "Type", Capitalized(u) + "Type";
    NoDigits(t);
    NoDigits(u);
    DigitsStart(a, n);
    DigitsStart(b, k);
    assert (a + NatText(n))[|a|..] == NatText(n) && (b + NatText(k))[|b|..] == NatText(k);
    assert (a + NatText(n))[..|a|] == a && (b + NatText(k))[..|b|] == b;
    NatTextInjective(n, k);
    assert a[..|a| - 4] == Capitalized(t) && b[..|b| - 4] == Capitalized(u);
    CapitalizedInjective(t, u);
  }

  // ----- Names that a part of a build generates

  /** The name is generated after the counters `from` and up to the counters `to`. */
  ghost predicate Between(name: string, from: Counts, to: Counts) {
    exists t, n :: IsBetween(name, from, to, t, n)
  }

  predicate IsBetween(name: string, from: Counts, to: Counts, t: string, n: nat) {
    Word(t) && name == NameFor(t, n) && CountOf(from, t) < n <= CountOf(to, t)
  }

  predicate Grows(from: Counts, to: Counts) {
    && (forall t :: t in from ==> t in to && from[t] <= to[t])
  }

  lemma GrowsCount(from: Counts, to: Counts, t: string)
    requires Grows(from, to)
    ensures CountOf(from, t) <= CountOf(to, t)
  {
  }

  lemma GrowsBoth(a: Counts, b: Counts, c: Counts)
    requires Grows(a, b) && Grows(b, c)
    ensures Grows(a, c)
  {
  }

  lemma Wider(name: string, from: Counts, to: Counts, from': Counts, to': Counts)
    requires Between(name, from, to) && Grows(from', from) && Grows(to, to')
    ensures Between(name, from', to')
  {
    var t, n :| IsBetween(name, from, to, t, n);
    GrowsCount(from', from, t);
    GrowsCount(to, to', t);
    assert IsBetween(name, from', to', t, n);
  }

  /** Names of different stretches of a build are different. */
  lemma StretchesApart(a: string, b: string, from: Counts, mid: Counts, mid': Counts, to: Counts)
    requires Between(a, from, mid) && Between(b, mid', to) && Grows(mid, mid')
    ensures a != b
  {
    var t, n :| IsBetween(a, from, mid, t, n);
    var u, k :| IsBetween(b, mid', to, u, k);
    if a == b {
      NameForInjective(t, n, u, k);
      GrowsCount(mid, mid', t);
    }
  }

  /** No model in the tree has a name of its own. */
  predicate Unnamed(model: Model)
    decreases model
  {
    && model.shapeName.None?
    && match model.kind
       case StructureM(fields) => forall i :: 0 <= i < |fields| ==> Unnamed(fields[i].model)
       case ListM(member) => Unnamed(member)
       case MapM(key, value) => Unnamed(key) && Unnamed(value)
       case OtherM(_) => true
  }


  lemma Fresh(model: Model, counts: Counts)
    requires Unnamed(model) && Word(TypeName(model))
    ensures
      var (name, next) := ShapeName(model, counts);
      Grows(counts, next) && Between(name, counts, next)
  {
    var (name, next) := ShapeName(model, counts);
    assert IsBetween(name, counts, next, TypeName(model), CountOf(counts, TypeName(model)) + 1);
  }

  lemma ValidTypeIsWord(model: Model, name: string, counts: Counts)
    requires Build(model, name, counts).invalid.None?
    ensures Word(TypeName(model))
  {
    assert model.kind.OtherM? ==> model.kind.typeName in SCALARS;
    hide Build;
    ScalarsAreWords();
  }

  lemma ScalarsAreWords()
    ensures forall t :: t in SCALARS ==> Word(t)
  {
    assert forall i :: 0 <= i < |SCALARS| ==> Word(SCALARS[i]);
  }

  ghost predicate AllBetween(entries: seq<Write<Normal>>, from: Counts, to: Counts) {
    forall i :: 0 <= i < |entries| ==> Between(entries[i].key, from, to)
  }

  /** What a build enters: new names inside, and last the name it was given, which is older. */
  ghost predicate Entered(b: Built, name: string, counts: Counts) {
    && Grows(counts, b.counts) && Distinct(b.entries) && b.entries != []
    && b.entries[|b.entries| - 1].key == name
    && AllBetween(b.entries[..|b.entries| - 1], counts, b.counts)
  }

  lemma AllWider(entries: seq<Write<Normal>>, from: Counts, to: Counts, from': Counts, to': Counts)
    requires AllBetween(entries, from, to) && Grows(from', from) && Grows(to, to')
    ensures AllBetween(entries, from', to')
  {
    forall i | 0 <= i < |entries| ensures Between(entries[i].key, from', to') {
      Wider(entries[i].key, from, to, from', to');
    }
  }

  lemma AllApart(a: seq<Write<Normal>>, b: seq<Write<Normal>>, from: Counts, mid: Counts, mid': Counts, to: Counts)
    requires AllBetween(a, from, mid) && AllBetween(b, mid', to) && Grows(mid, mid')
    ensures Apart(a, b)
  {
    forall i, j | 0 <= i < |a| && 0 <= j < |b| ensures a[i].key != b[j].key {
      StretchesApart(a[i].key, b[j].key, from, mid, mid', to);
    }
  }

  /** With its own name, generated just before it, a build stays within one stretch. */
  lemma WithName(b: Built, name: string, from: Counts, counts: Counts)
    requires Entered(b, name, counts) && Between(name, from, counts) && Grows(from, counts)
    ensures AllBetween(b.entries, from, b.counts)
  {
    hide Grows, Between, Distinct, AllBetween;
    GrowsSame(b.counts);
    GrowsSame(from);
    GrowsBoth(from, counts, b.counts);
    AllWider(b.entries[..|b.entries| - 1], counts, b.counts, from, b.counts);
    Wider(name, from, counts, from, b.counts);
    LastBetween(b.entries, from, b.counts);
  }

  lemma LastBetween(entries: seq<Write<Normal>>, from: Counts, to: Counts)
    requires entries != [] && AllBetween(entries[..|entries| - 1], from, to) && Between(entries[|entries| - 1].key, from, to)
    ensures AllBetween(entries, from, to)
  {
    hide Between;
    var n := |entries| - 1;
    forall i | 0 <= i < |entries|
      ensures Between(entries[i].key, from, to)
    {
      if i < n { assert entries[..n][i] == entries[i]; }
    }
  }

  lemma EnterDistinct(inside: Built, name: string, shape: Normal, base: Counts, counts: Counts)
    requires inside.invalid.None? && Grows(counts, inside.counts) && Distinct(inside.entries)
    requires AllBetween(inside.entries, counts, inside.counts) && Between(name, base, counts)
    ensures Entered(Enter(inside, name, shape), name, counts)
  {
    var entries := inside.entries + [Write(name, shape)];
    assert entries[..|entries| - 1] == inside.entries;
    forall i | 0 <= i < |inside.entries| ensures inside.entries[i].key != name {
      StretchesApart(name, inside.entries[i].key, base, counts, counts, inside.counts);
    }
    DistinctBoth(inside.entries, [Write(name, shape)]);
  }

  lemma {:induction false} BuildNames(model: Model, name: string, base: Counts, counts: Counts)
    requires Unnamed(model) && Build(model, name, counts).invalid.None? && Between(name, base, counts)
    ensures Entered(Build(model, name, counts), name, counts)
    decreases model, 1
  {
    match model.kind
    case StructureM(fields) =>
      var b := BuildFields(fields, counts);
      FieldsNames(fields, counts);
      EnterDistinct(b.built, name, Normal(StructureN(b.refs), model.extra), base, counts);
    case ListM(member) =>
      var (memberName, next) := ShapeName(model, counts);
      Fresh(model, counts);
      BuildNames(member, memberName, counts, next);
      var b := Build(member, memberName, next);
      WithName(b, memberName, counts, next);
      EnterDistinct(b, name, Normal(ListN(memberName), model.extra), base, counts);
    case MapM(key, value) =>
      MapNames(model, key, value, counts);
      var (keyName, next) := ShapeName(key, counts);
      var (valueName, last) := ShapeName(value, next);
      EnterDistinct(Followed(Build(key, keyName, last), value, valueName), name, Normal(MapN(keyName, valueName), model.extra), base, counts);
    case OtherM(t) =>
      assert Build(model, name, counts).entries[..0] == [];
  }

  lemma MapNames(model: Model, key: Model, value: Model, counts: Counts)
    requires model.kind == MapM(key, value) && Unnamed(model)
    requires
      var (keyName, next) := ShapeName(key, counts);
      var (valueName, last) := ShapeName(value, next);
      Followed(Build(key, keyName, last), value, valueName).invalid.None?
    ensures
      var (keyName, next) := ShapeName(key, counts);
      var (valueName, last) := ShapeName(value, next);
      var b := Followed(Build(key, keyName, last), value, valueName);
      Grows(counts, b.counts) && Distinct(b.entries) && AllBetween(b.entries, counts, b.counts)
    decreases model, 0
  {
    var (keyName, next) := ShapeName(key, counts);
    var (valueName, last) := ShapeName(value, next);
    var first := Build(key, keyName, last);
    var rest := Build(value, valueName, first.counts);
    ValidTypeIsWord(key, keyName, last);
    ValidTypeIsWord(value, valueName, first.counts);
    assert Unnamed(key) && Unnamed(value);
    Fresh(key, counts);
    Fresh(value, next);
    hide Grows, Between, Build, ShapeName, Unnamed, Distinct, AllBetween;
    GrowsSame(counts);
    GrowsSame(next);
    Wider(keyName, counts, next, counts, last);
    BuildNames(key, keyName, counts, last);
    GrowsBoth(counts, next, last);
    WithName(first, keyName, counts, last);
    Wider(valueName, next, last, next, first.counts);
    BuildNames(value, valueName, next, first.counts);
    GrowsBoth(next, last, first.counts);
    WithName(rest, valueName, next, first.counts);
    PairApart(first, rest, keyName, valueName, counts, next, last);
    GrowsBoth(counts, last, first.counts);
    GrowsBoth(counts, first.counts, rest.counts);
    GrowsSame(rest.counts);
    DistinctBoth(first.entries, rest.entries);
    AllWider(first.entries, counts, first.counts, counts, rest.counts);
    AllWider(rest.entries, next, rest.counts, counts, rest.counts);
    BetweenBoth(first.entries, rest.entries, counts, rest.counts);
  }

  lemma GrowsSame(a: Counts)
    ensures Grows(a, a)
  {
  }

  lemma BetweenBoth(a: seq<Write<Normal>>, b: seq<Write<Normal>>, from: Counts, to: Counts)
    requires AllBetween(a, from, to) && AllBetween(b, from, to)
    ensures AllBetween(a + b, from, to)
  {
    hide Between;
  }

  /** The keys' names interleave: the key, the value, inside the key, inside the value. */
  lemma PairApart(first: Built, rest: Built, keyName: string, valueName: string, counts: Counts, next: Counts, last: Counts)
    requires Entered(first, keyName, last) && Entered(rest, valueName, first.counts)
    requires Between(keyName, counts, next) && Between(valueName, next, last) && Grows(counts, next) && Grows(next, last)
    ensures Apart(first.entries, rest.entries)
  {
    var a, b := |first.entries| - 1, |rest.entries| - 1;
    assert first.entries[a].key == keyName && rest.entries[b].key == valueName;
    GrowsBoth(next, last, first.counts);
    hide Grows, Between, Distinct;
    forall i, j | 0 <= i <= a && 0 <= j <= b ensures first.entries[i].key != rest.entries[j].key {
      if i < a { assert first.entries[..a][i] == first.entries[i]; }
      if j < b { assert rest.entries[..b][j] == rest.entries[j]; }
      if i < a && j < b {
        StretchesApart(first.entries[i].key, rest.entries[j].key, last, first.counts, first.counts, rest.counts);
      } else if i < a {
        StretchesApart(valueName, first.entries[i].key, next, last, last, first.counts);
      } else if j < b {
        StretchesApart(keyName, rest.entries[j].key, counts, next, first.counts, rest.counts);
      } else {
        StretchesApart(keyName, valueName, counts, next, next, last);
      }
    }
  }

  lemma {:induction false} FieldsNames(fields: seq<Field>, counts: Counts)
    requires (forall i :: 0 <= i < |fields| ==> Unnamed(fields[i].model)) && BuildFields(fields, counts).built.invalid.None?
    ensures
      var b := BuildFields(fields, counts).built;
      Grows(counts, b.counts) && Distinct(b.entries) && AllBetween(b.entries, counts, b.counts)
    decreases fields, 0
  {
    if fields != [] {
      var Field(name, model) := fields[0];
      assert (fields decreases to fields[0]);
      var (shapeName, next) := ShapeName(model, counts);
      var first := Build(model, shapeName, next);
      var rest := BuildFields(fields[1..], first.counts).built;
      ValidTypeIsWord(model, shapeName, next);
      Fresh(model, counts);
      BuildNames(model, shapeName, counts, next);
      WithName(first, shapeName, counts, next);
      FieldsNames(fields[1..], first.counts);
      JoinStretches(first, rest, counts);
    }
  }

  /** Two stretches of a build, one after the other. */
  lemma JoinStretches(first: Built, rest: Built, counts: Counts)
    requires Grows(counts, first.counts) && Grows(first.counts, rest.counts)
    requires Distinct(first.entries) && AllBetween(first.entries, counts, first.counts)
    requires Distinct(rest.entries) && AllBetween(rest.entries, first.counts, rest.counts)
    ensures
      var entries := first.entries + rest.entries;
      Grows(counts, rest.counts) && Distinct(entries) && AllBetween(entries, counts, rest.counts)
  {
    AllApart(first.entries, rest.entries, counts, first.counts, first.counts, rest.counts);
    DistinctBoth(first.entries, rest.entries);
    AllWider(first.entries, counts, first.counts, counts, rest.counts);
    AllWider(rest.entries, first.counts, rest.counts, counts, rest.counts);
  }

  // ----- The whole build

  const NOTHING := Documentation(None, None)

  function Root(members: seq<Field>): Model {
    Model(StructureM(members), None, NOTHING)
  }

  /** The builder's own name uses up the first structure name. */
  const ROOT_NAME := NameFor("structure", 1)
  const ROOT_COUNTS: Counts := map["structure" := 1]

  lemma RootName()
    ensures ROOT_NAME == "StructureType1"
  {
    assert NatText(1) == "1" && Capitalized("structure") == "Structure";
  }

  function Size(model: Model): nat
    decreases model, 1
  {
    match model.kind
    case StructureM(fields) => 1 + Sizes(fields)
    case ListM(member) => 1 + Size(member)
    case MapM(key, value) => 1 + Size(key) + Size(value)
    case OtherM(_) => 1
  }

  function Sizes(fields: seq<Field>): nat
    decreases fields, 0
  {
    if fields == [] then 0
    else
      assert (fields decreases to fields[0]);
      Size(fields[0].model) + Sizes(fields[1..])
  }

  lemma {:induction false} OneEntryEach(model: Model, name: string, counts: Counts)
    requires Build(model, name, counts).invalid.None?
    ensures |Build(model, name, counts).entries| == Size(model)
    decreases model, 1
  {
    match model.kind
    case StructureM(fields) => OneEntryEachField(fields, counts);
    case ListM(member) =>
      var (memberName, next) := ShapeName(model, counts);
      OneEntryEach(member, memberName, next);
    case MapM(key, value) =>
      var (keyName, next) := ShapeName(key, counts);
      var (valueName, last) := ShapeName(value, next);
      OneEntryEach(key, keyName, last);
      OneEntryEach(value, valueName, Build(key, keyName, last).counts);
    case OtherM(_) =>
  }

  lemma {:induction false} OneEntryEachField(fields: seq<Field>, counts: Counts)
    requires BuildFields(fields, counts).built.invalid.None?
    ensures |BuildFields(fields, counts).built.entries| == Sizes(fields)
    decreases fields, 0
  {
    if fields != [] {
      assert (fields decreases to fields[0]);
      var (shapeName, next) := ShapeName(fields[0].model, counts);
      OneEntryEach(fields[0].model, shapeName, next);
      OneEntryEachField(fields[1..], Build(fields[0].model, shapeName, next).counts);
    }
  }

  /** Without explicit names every model gets a shape of its own, none is overwritten, and resolving the root gives the
      whole tree back. */
  lemma BuildRoundTrip(members: seq<Field>)
    requires Unnamed(Root(members)) && Build(Root(members), ROOT_NAME, ROOT_COUNTS).invalid.None?
    ensures
      var shapes := Stored(map[], Build(Root(members), ROOT_NAME, ROOT_COUNTS).entries);
      Rebuilds(shapes, ROOT_NAME, Root(members)) && |shapes| == Size(Root(members))
  {
    var entries := Build(Root(members), ROOT_NAME, ROOT_COUNTS).entries;
    assert Word("structure") && IsBetween(ROOT_NAME, map[], ROOT_COUNTS, "structure", 1);
    BuildNames(Root(members), ROOT_NAME, map[], ROOT_COUNTS);
    OneEntryEach(Root(members), ROOT_NAME, ROOT_COUNTS);
    DistinctNamesRebuild(Root(members), ROOT_NAME, ROOT_COUNTS);
    AllSurviveIffDistinct(entries);
  }

  /** Explicit names do no harm as long as no name is given twice. */
  lemma DistinctNamesRebuild(model: Model, name: string, counts: Counts)
    requires Build(model, name, counts).invalid.None? && Distinct(Build(model, name, counts).entries)
    ensures Rebuilds(Stored(map[], Build(model, name, counts).entries), name, model)
  {
    var entries := Build(model, name, counts).entries;
    AllSurviveIffDistinct(entries);
    HeldRebuilds(model, name, counts, Stored(map[], entries));
  }

  /** The model without its explicit names. */
  function Erase(model: Model): Model
    decreases model
  {
    Model(
      match model.kind
      case StructureM(fields) =>
        StructureM(seq(|fields|, i requires 0 <= i < |fields| => Field(fields[i].name, Erase(fields[i].model))))
      case ListM(member) => ListM(Erase(member))
      case MapM(key, value) => MapM(Erase(key), Erase(value))
      case OtherM(t) => OtherM(t),
      None, model.extra)
  }

  /** A name resolves to at most one tree. */
  lemma {:induction false} RebuildsOne(shapes: map<string, Normal>, name: string, a: Model, b: Model)
    requires Rebuilds(shapes, name, a) && Rebuilds(shapes, name, b)
    ensures Erase(a) == Erase(b)
    decreases a
  {
    match shapes[name].shape
    case StructureN(refs) =>
      forall i | 0 <= i < |refs|
        ensures Erase(a.kind.members[i].model) == Erase(b.kind.members[i].model)
      {
        RebuildsOne(shapes, refs[i].shape, a.kind.members[i].model, b.kind.members[i].model);
      }
      assert forall i :: 0 <= i < |refs| ==> a.kind.members[i].name == refs[i].name == b.kind.members[i].name;
      assert Erase(a).kind.members == Erase(b).kind.members;
    case ListN(ref) => RebuildsOne(shapes, ref, a.kind.member, b.kind.member);
    case MapN(key, value) =>
      RebuildsOne(shapes, key, a.kind.key, b.kind.key);
      RebuildsOne(shapes, value, a.kind.value, b.kind.value);
    case ScalarN(_) =>
  }

  lemma {:induction false} SelfListResolvesNothing(shapes: map<string, Normal>, name: string, model: Model)
    requires name in shapes && shapes[name].shape == ListN(name)
    ensures !Rebuilds(shapes, name, model)
    decreases model
  {
    if model.kind.ListM? {
      SelfListResolvesNothing(shapes, name, model.kind.member);
    }
  }

  /** A list with an explicit name gives that name to its member too, overwrites the member and refers to itself:
      its name then resolves to no tree at all. */
  lemma NamedListIsLost(list: Model, name: string, counts: Counts, dict: map<string, Normal>, model: Model)
    requires list.kind.ListM? && list.shapeName == Some(name) && Build(list, name, counts).invalid.None?
    ensures
      var shapes := Stored(dict, Build(list, name, counts).entries);
      name in shapes && shapes[name].shape == ListN(name) && !Rebuilds(shapes, name, model)
  {
    var shapes := Stored(dict, Build(list, name, counts).entries);
    SelfListResolvesNothing(shapes, name, model);
  }

  // ----- Models that cannot be built

  predicate ScalarName(t: string) {
    || t == "string" || t == "integer" || t == "boolean" || t == "blob" || t == "float"
    || t == "timestamp" || t == "long" || t == "double" || t == "char"
  }

  /** The first type that is none of the known ones, in the order of the members, and of a map's key before its value. */
  function FirstUnknown(model: Model): Option<string>
    decreases model
  {
    match model.kind
    case StructureM(fields) => FirstUnknownField(fields)
    case ListM(member) => FirstUnknown(member)
    case MapM(key, value) => if FirstUnknown(key).Some? then FirstUnknown(key) else FirstUnknown(value)
    case OtherM(t) => if ScalarName(t) then None else Some(t)
  }

  function FirstUnknownField(fields: seq<Field>): Option<string>
    decreases fields
  {
    if fields == [] then None
    else
      assert (fields decreases to fields[0]);
      if FirstUnknown(fields[0].model).Some? then FirstUnknown(fields[0].model) else FirstUnknownField(fields[1..])
  }

  lemma KnownScalars(t: string)
    ensures t in SCALARS <==> ScalarName(t)
  {
    assert t in SCALARS <==> exists i :: 0 <= i < 9 && SCALARS[i] == t;
  }

  /** A build ends at the first unknown type, and only there. */
  lemma {:induction false} EndsAtUnknown(model: Model, name: string, counts: Counts)
    ensures Build(model, name, counts).invalid == FirstUnknown(model)
    decreases model, 1
  {
    hide ShapeName, SCALARS, ScalarName;
    match model.kind
    case StructureM(fields) => FieldsEndAtUnknown(fields, counts);
    case ListM(member) =>
      var (memberName, next) := ShapeName(model, counts);
      EndsAtUnknown(member, memberName, next);
    case MapM(key, value) =>
      var (keyName, next) := ShapeName(key, counts);
      var (valueName, last) := ShapeName(value, next);
      EndsAtUnknown(key, keyName, last);
      EndsAtUnknown(value, valueName, Build(key, keyName, last).counts);
    case OtherM(t) => KnownScalars(t);
  }

  lemma {:induction false} FieldsEndAtUnknown(fields: seq<Field>, counts: Counts)
    ensures BuildFields(fields, counts).built.invalid == FirstUnknownField(fields)
    decreases fields, 0
  {
    if fields != [] {
      hide ShapeName, Build, FirstUnknown;
      var model := fields[0].model;
      assert (fields decreases to fields[0]);
      var (shapeName, next) := ShapeName(model, counts);
      EndsAtUnknown(model, shapeName, next);
      FieldsEndAtUnknown(fields[1..], Build(model, shapeName, next).counts);
    }
  }
}
