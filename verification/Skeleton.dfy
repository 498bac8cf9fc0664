/** ArgumentGenerator of botocore/utils.py: sample input for shapes that may refer to themselves. */
module Skeletons {
  import opened Results
  import opened Shapes

  // ----- Chains of lists and maps

  predicate Chained(kind: Kind) {
    kind.List? || kind.Map?
  }

  /** The shape that the sample of a list or map is made from. */
  function NextOf(m: ShapeMap, n: string): string
    requires n in m
  {
    match m[n].kind
    case List(member) => member.shape
    case Map(_, value) => value.shape
    case _ => n
  }

  function Follow(m: ShapeMap, n: string, k: nat): (r: string)
    requires Closed(m) && n in m
    ensures r in m
    decreases k
  {
    if k == 0 then n
    else
      assert InMap(m, m[n].kind);
      Follow(m, NextOf(m, n), k - 1)
  }

  ghost predicate Ends(m: ShapeMap, n: string, k: nat)
    requires Closed(m) && n in m
  {
    !Chained(m[Follow(m, n, k)].kind)
  }

  /** Every chain of lists and maps ends at a structure or a scalar. */
  ghost predicate Grounded(m: ShapeMap)
    requires Closed(m)
  {
    forall n :: n in m ==> exists k: nat :: Ends(m, n, k)
  }

  /** The length of the chain from n, followed no more than `fuel` steps. */
  ghost function Dist(m: ShapeMap, n: string, fuel: nat): nat
    requires Closed(m) && n in m
    decreases fuel
  {
    if fuel == 0 || !Chained(m[n].kind) then 0
    else
      assert InMap(m, m[n].kind);
      1 + Dist(m, NextOf(m, n), fuel - 1)
  }

  lemma {:induction false} DistStable(m: ShapeMap, n: string, k: nat, fuel: nat)
    requires Closed(m) && n in m && Ends(m, n, k) && fuel >= k
    ensures Dist(m, n, fuel) == Dist(m, n, k)
    decreases k
  {
    if k > 0 && Chained(m[n].kind) {
      assert InMap(m, m[n].kind);
      DistStable(m, NextOf(m, n), k - 1, fuel - 1);
    }
  }

  ghost function EndOf(m: ShapeMap, n: string): (k: nat)
    requires Closed(m) && Grounded(m) && n in m
    ensures Ends(m, n, k)
  {
    var k: nat :| Ends(m, n, k);
    k
  }

  ghost function Distance(m: ShapeMap, n: string): nat
    requires Closed(m) && Grounded(m) && n in m
  {
    Dist(m, n, EndOf(m, n))
  }

  lemma DistanceIs(m: ShapeMap, n: string, k: nat)
    requires Closed(m) && Grounded(m) && n in m && Ends(m, n, k)
    ensures Distance(m, n) == Dist(m, n, k)
  {
    hide Dist, Follow, EndOf, Ends, Grounded;
    var j := EndOf(m, n);
    DistStable(m, n, j, j + k);
    DistStable(m, n, k, j + k);
  }

  lemma DistanceStep(m: ShapeMap, n: string)
    requires Closed(m) && Grounded(m) && n in m && Chained(m[n].kind)
    ensures NextOf(m, n) in m && Distance(m, n) == Distance(m, NextOf(m, n)) + 1
  {
    assert InMap(m, m[n].kind);
    hide Distance, EndOf;
    var next := NextOf(m, n);
    var k := EndOf(m, next);
    assert Follow(m, n, k + 1) == Follow(m, next, k);
    DistanceIs(m, next, k);
    DistanceIs(m, n, k + 1);
  }

  // ----- The generator

  datatype GenError = AssertionError | RecursionError

  /** The structures that are not being expanded. */
  ghost function Unseen(m: ShapeMap, stack: seq<string>): set<string> {
    set n | n in m && m[n].kind.Structure? && n !in stack
  }

  lemma UnseenShrinks(m: ShapeMap, stack: seq<string>, n: string)
    requires n in m
    ensures Unseen(m, stack + [n]) <= Unseen(m, stack)
    ensures m[n].kind.Structure? && n !in stack ==> Unseen(m, stack + [n]) < Unseen(m, stack)
    ensures !m[n].kind.Structure? ==> Unseen(m, stack + [n]) == Unseen(m, stack)
  {
    if m[n].kind.Structure? && n !in stack {
      assert n in Unseen(m, stack) && n !in Unseen(m, stack + [n]);
    }
  }

  function Sample(t: ScalarType): Value {
    match t
    case StringT => Str("")
    case IntegerT | LongT => Int(0)
    case FloatT => Float(0.0)
    case BooleanT => Bool(true)
    // Nothing is returned for the other types.
    case DoubleT | BlobT | TimestampT | CharacterT => NoneV
  }

  /** _generate_skeleton, without a limit on the recursion: a structure that is already on the stack comes out empty. */
  function Gen(m: ShapeMap, n: string, stack: seq<string>): Result<Value, GenError>
    requires Closed(m) && Grounded(m) && n in m
    decreases Unseen(m, stack), 0, Distance(m, n)
  {
    UnseenShrinks(m, stack, n);
    assert InMap(m, m[n].kind);
    match m[n].kind
    case Structure(members, _) =>
      if n in stack then Ok(Dict([]))
      else
        var entries :- GenFields(m, members, stack + [n]);
        Ok(Dict(entries))
    case List(member) =>
      DistanceStep(m, n);
      var item :- Gen(m, member.shape, stack + [n]);
      Ok(Items([item]))
    case Map(key, value) =>
      DistanceStep(m, n);
      if m[key.shape].kind != Scalar(StringT) then Err(AssertionError)
      else
        var item :- Gen(m, value.shape, stack + [n]);
        Ok(Dict([Entry(Str("KeyName"), item)]))
    case Scalar(t) => Ok(Sample(t))
  }

  function GenFields(m: ShapeMap, members: seq<Member>, stack: seq<string>): Result<seq<Entry>, GenError>
    requires Closed(m) && Grounded(m) && InMap(m, Structure(members, []))
    decreases Unseen(m, stack), 1, |members|
  {
    if members == [] then Ok([])
    else
      var first :- Gen(m, members[0].ref.shape, stack);
      var rest :- GenFields(m, members[1..], stack);
      Ok([Entry(Str(members[0].name), first)] + rest)
  }

  // ----- One level of the generator

  lemma GenStructure(m: ShapeMap, n: string, stack: seq<string>)
    requires Closed(m) && Grounded(m) && n in m && m[n].kind.Structure?
    ensures InMap(m, Structure(m[n].kind.members, []))
    ensures Gen(m, n, stack) ==
      if n in stack then Ok(Dict([]))
      else
        var entries := GenFields(m, m[n].kind.members, stack + [n]);
        if entries.Err? then Err(entries.error) else Ok(Dict(entries.value))
  {
    assert InMap(m, m[n].kind);
    hide Unseen, Distance, Grounded, GenFields;
  }

  lemma GenList(m: ShapeMap, n: string, stack: seq<string>)
    requires Closed(m) && Grounded(m) && n in m && m[n].kind.List?
    ensures m[n].kind.member.shape in m
    ensures Gen(m, n, stack) ==
      var item := Gen(m, m[n].kind.member.shape, stack + [n]);
      if item.Err? then item else Ok(Items([item.value]))
  {
    assert InMap(m, m[n].kind);
    hide Unseen, Distance, Grounded, GenFields;
  }

  lemma GenMap(m: ShapeMap, n: string, stack: seq<string>)
    requires Closed(m) && Grounded(m) && n in m && m[n].kind.Map?
    ensures m[n].kind.key.shape in m && m[n].kind.value.shape in m
    ensures Gen(m, n, stack) ==
      if m[m[n].kind.key.shape].kind != Scalar(StringT) then Err(AssertionError)
      else
        var item := Gen(m, m[n].kind.value.shape, stack + [n]);
        if item.Err? then item else Ok(Dict([Entry(Str("KeyName"), item.value)]))
  {
    assert InMap(m, m[n].kind);
    hide Unseen, Distance, Grounded, GenFields;
  }

  lemma GenScalar(m: ShapeMap, n: string, stack: seq<string>)
    requires Closed(m) && Grounded(m) && n in m && m[n].kind.Scalar?
    ensures Gen(m, n, stack) == Ok(Sample(m[n].kind.scalar))
  {
    hide Unseen, Distance, Grounded, GenFields;
  }

  // ----- Which shape maps are grounded

  /** A chain of k lists and maps that leads back to where it began. */
  ghost predicate Cycle(m: ShapeMap, n: string, k: nat)
    requires Closed(m) && n in m
  {
    k > 0 && Follow(m, n, k) == n && forall j :: 0 <= j < k ==> Chained(m[Follow(m, n, j)].kind)
  }

  lemma {:induction false} FollowOn(m: ShapeMap, n: string, i: nat, j: nat)
    requires Closed(m) && n in m
    ensures Follow(m, n, i + j) == Follow(m, Follow(m, n, i), j)
    decreases i
  {
    if i > 0 {
      assert InMap(m, m[n].kind);
      FollowOn(m, NextOf(m, n), i - 1, j);
    }
  }

  /** A cycle of lists and maps has no end. */
  lemma {:induction false} CycleNeverEnds(m: ShapeMap, n: string, k: nat, i: nat)
    requires Closed(m) && n in m && Cycle(m, n, k)
    ensures !Ends(m, n, i)
    decreases i
  {
    if i >= k {
      FollowOn(m, n, k, i - k);
      CycleNeverEnds(m, n, k, i - k);
    }
  }

  lemma {:induction false} Pigeonhole(s: seq<string>, names: set<string>) returns (i: nat, j: nat)
    requires |s| > |names| && forall k :: 0 <= k < |s| ==> s[k] in names
    ensures i < j < |s| && s[i] == s[j]
    decreases |s|
  {
    var last := |s| - 1;
    if k :| 0 <= k < last && s[k] == s[last] {
      i, j := k, last;
    } else {
      i, j := Pigeonhole(s[..last], names - {s[last]});
    }
  }

  /** Past an end every shape of the chain is the same, so before the first end all are lists and maps. */
  lemma {:induction false} ChainedBefore(m: ShapeMap, n: string, k: nat, j: nat)
    requires Closed(m) && n in m && j <= k && !Ends(m, n, k)
    ensures !Ends(m, n, j)
    decreases j
  {
    assert InMap(m, m[n].kind);
    if j == 0 {
      if Ends(m, n, 0) { StaysAt(m, n, k); }
    } else {
      ChainedBefore(m, NextOf(m, n), k - 1, j - 1);
    }
  }

  lemma {:induction false} StaysAt(m: ShapeMap, n: string, k: nat)
    requires Closed(m) && n in m && !Chained(m[n].kind)
    ensures Follow(m, n, k) == n
    decreases k
  {
    if k > 0 { StaysAt(m, n, k - 1); }
  }

  /** A shape map is grounded exactly when every cycle of references passes through a structure. */
  lemma GroundedIffNoCycle(m: ShapeMap)
    requires Closed(m)
    ensures Grounded(m) <==> forall n, k: nat :: n in m ==> !Cycle(m, n, k)
  {
    if Grounded(m) {
      forall n, k: nat | n in m ensures !Cycle(m, n, k) {
        if Cycle(m, n, k) {
          CycleNeverEnds(m, n, k, EndOf(m, n));
        }
      }
    } else {
      var n :| n in m && forall k: nat :: !Ends(m, n, k);
      var size := |m.Keys|;
      var s := seq(size + 1, k requires 0 <= k <= size => Follow(m, n, k));
      var i, j := Pigeonhole(s, m.Keys);
      var start := Follow(m, n, i);
      FollowOn(m, n, i, j - i);
      forall k | 0 <= k < j - i ensures Chained(m[Follow(m, start, k)].kind) {
        FollowOn(m, n, i, k);
        assert !Ends(m, n, i + k);
      }
      assert Cycle(m, start, j - i);
    }
  }

  // ----- What comes out

  function Depth(v: Value): nat
    decreases v, 0
  {
    match v
    case Items(items) => 1 + DepthItems(items)
    case Dict(entries) => 1 + DepthEntries(entries)
    case _ => 0
  }

  function Max(a: nat, b: nat): nat { if a > b then a else b }

  function DepthItems(items: seq<Value>): nat
    decreases items, 1
  {
    if items == [] then 0 else Max(Depth(items[0]), DepthItems(items[1..]))
  }

  function DepthEntries(entries: seq<Entry>): nat
    decreases entries, 1
  {
    if entries == [] then 0
    else
      assert (entries decreases to entries[0]);
      Max(Depth(entries[0].value), DepthEntries(entries[1..]))
  }

  ghost predicate Within(m: ShapeMap, longest: nat)
    requires Closed(m) && Grounded(m)
  {
    forall n :: n in m ==> Distance(m, n) <= longest
  }

  lemma SmallerSet(a: set<string>, b: set<string>)
    requires a < b
    ensures |a| + 1 <= |b|
  {
    var x :| x in b && x !in a;
    assert a <= b - {x};
    Subset(a, b - {x});
  }

  lemma {:induction false} Subset(a: set<string>, b: set<string>)
    requires a <= b
    ensures |a| <= |b|
    decreases a
  {
    if a != {} {
      var x :| x in a;
      Subset(a - {x}, b - {x});
    }
  }

  /** How deep structures can still nest below a stack, with the longest chains between them. */
  ghost function Room(m: ShapeMap, stack: seq<string>, longest: nat): nat {
    |Unseen(m, stack)| * (longest + 1)
  }

  lemma LessRoom(m: ShapeMap, stack: seq<string>, n: string, longest: nat)
    requires n in m
    ensures m[n].kind.Structure? && n !in stack ==> Room(m, stack + [n], longest) + longest + 1 <= Room(m, stack, longest)
    ensures !m[n].kind.Structure? ==> Room(m, stack + [n], longest) == Room(m, stack, longest)
  {
    UnseenShrinks(m, stack, n);
    if m[n].kind.Structure? && n !in stack {
      SmallerSet(Unseen(m, stack + [n]), Unseen(m, stack));
      hide Unseen;
      Times(|Unseen(m, stack + [n])|, |Unseen(m, stack)|, longest + 1);
    }
  }

  lemma Times(less: nat, more: nat, d: nat)
    requires less + 1 <= more
    ensures less * d + d <= more * d
  {
    var rest := more - less - 1;
    assert more == less + 1 + rest;
    assert more * d == less * d + d + rest * d;
  }

  /** Every structure is expanded at most once on a path: below a stack no more structures can open than are not on it,
      and between two of them no more lists and maps than the longest chain has. */
  lemma {:induction false} GenDepth(m: ShapeMap, n: string, stack: seq<string>, longest: nat)
    requires Closed(m) && Grounded(m) && n in m && Within(m, longest) && Gen(m, n, stack).Ok?
    ensures Depth(Gen(m, n, stack).value) <= Room(m, stack, longest) + Distance(m, n) + 1
    decreases Unseen(m, stack), 0, Distance(m, n), 1
  {
    hide Room, Unseen, Distance, Grounded, Within, Gen, Closed, Depth;
    match m[n].kind
    case Structure(_, _) => StructureDepth(m, n, stack, longest);
    case List(_) => ChainedDepth(m, n, stack, longest);
    case Map(_, _) => ChainedDepth(m, n, stack, longest);
    case Scalar(t) => ScalarDepth(m, n, stack);
  }

  lemma ScalarDepth(m: ShapeMap, n: string, stack: seq<string>)
    requires Closed(m) && Grounded(m) && n in m && m[n].kind.Scalar?
    ensures Gen(m, n, stack).Ok? && Depth(Gen(m, n, stack).value) == 0
  {
    GenScalar(m, n, stack);
    hide Gen, Distance, Grounded;
  }

  lemma StructureDepth(m: ShapeMap, n: string, stack: seq<string>, longest: nat)
    requires Closed(m) && Grounded(m) && n in m && m[n].kind.Structure? && Within(m, longest) && Gen(m, n, stack).Ok?
    ensures Depth(Gen(m, n, stack).value) <= Room(m, stack, longest) + 1
    decreases Unseen(m, stack), 0, Distance(m, n), 0
  {
    hide Room, Unseen, Distance, Grounded, Within, Gen, Closed;
    UnseenShrinks(m, stack, n);
    LessRoom(m, stack, n, longest);
    GenStructure(m, n, stack);
    if n !in stack { GenFieldsDepth(m, m[n].kind.members, stack + [n], longest); }
  }

  lemma ChainedDepth(m: ShapeMap, n: string, stack: seq<string>, longest: nat)
    requires Closed(m) && Grounded(m) && n in m && Chained(m[n].kind) && Within(m, longest) && Gen(m, n, stack).Ok?
    ensures Depth(Gen(m, n, stack).value) <= Room(m, stack, longest) + Distance(m, n) + 1
    decreases Unseen(m, stack), 0, Distance(m, n), 0
  {
    hide Room, Unseen, Distance, Grounded, Within, Gen, Closed, Depth;
    UnseenShrinks(m, stack, n);
    LessRoom(m, stack, n, longest);
    DistanceStep(m, n);
    if m[n].kind.List? { GenList(m, n, stack); } else { GenMap(m, n, stack); }
    GenDepth(m, NextOf(m, n), stack + [n], longest);
    DepthOne(Gen(m, NextOf(m, n), stack + [n]).value);
  }

  lemma DepthOne(v: Value)
    ensures Depth(Items([v])) == Depth(Dict([Entry(Str("KeyName"), v)])) == 1 + Depth(v)
  {
    assert [v][1..] == [] && [Entry(Str("KeyName"), v)][1..] == [];
    assert DepthItems([v]) == Max(Depth(v), DepthItems([]));
    assert DepthEntries([Entry(Str("KeyName"), v)]) == Max(Depth(v), DepthEntries([]));
  }

  lemma DepthCons(e: Entry, rest: seq<Entry>)
    ensures DepthEntries([e] + rest) == Max(Depth(e.value), DepthEntries(rest))
  {
    assert ([e] + rest)[1..] == rest;
  }

  lemma {:induction false} GenFieldsDepth(m: ShapeMap, members: seq<Member>, stack: seq<string>, longest: nat)
    requires Closed(m) && Grounded(m) && InMap(m, Structure(members, [])) && Within(m, longest) && GenFields(m, members, stack).Ok?
    ensures DepthEntries(GenFields(m, members, stack).value) <= Room(m, stack, longest) + longest + 1
    decreases Unseen(m, stack), 1, |members|
  {
    hide Gen, Depth, Distance, Unseen, Room, Grounded;
    if members != [] {
      var first, rest := Gen(m, members[0].ref.shape, stack), GenFields(m, members[1..], stack);
      GenDepth(m, members[0].ref.shape, stack, longest);
      GenFieldsDepth(m, members[1..], stack, longest);
      DepthCons(Entry(Str(members[0].name), first.value), rest.value);
    }
  }

  // ----- The sample fits the shape

  /** The sample of a shape below a stack of names: every member of a structure in order, nothing of one that is already
      open, one item of a list, one value of a map under "KeyName", and the placeholders of the scalar types. */
  ghost predicate Fits(m: ShapeMap, n: string, stack: seq<string>, v: Value)
    requires Closed(m) && n in m
    decreases v, 0
  {
    assert InMap(m, m[n].kind);
    match m[n].kind
    case Structure(members, _) =>
      v.Dict? && if n in stack then v.entries == [] else FieldsFit(m, members, stack + [n], v.entries)
    case List(member) => v.Items? && |v.items| == 1 && Fits(m, member.shape, stack + [n], v.items[0])
    case Map(key, value) =>
      && m[key.shape].kind == Scalar(StringT)
      && v.Dict? && |v.entries| == 1 && v.entries[0].key == Str("KeyName")
      && Fits(m, value.shape, stack + [n], v.entries[0].value)
    case Scalar(t) =>
      match t
      case StringT => v == Str("")
      case IntegerT | LongT => v == Int(0)
      case FloatT => v == Float(0.0)
      case BooleanT => v == Bool(true)
      case _ => v == NoneV
  }

  ghost predicate FieldsFit(m: ShapeMap, members: seq<Member>, stack: seq<string>, entries: seq<Entry>)
    requires Closed(m) && InMap(m, Structure(members, []))
    decreases entries, 1
  {
    && |entries| == |members|
    && forall i :: 0 <= i < |members| ==> FieldFits(m, members[i], stack, entries[i])
  }

  ghost predicate FieldFits(m: ShapeMap, member: Member, stack: seq<string>, e: Entry)
    requires Closed(m) && member.ref.shape in m
    decreases e, 1
  {
    e.key == Str(member.name) && Fits(m, member.ref.shape, stack, e.value)
  }

  lemma FieldsFitCons(m: ShapeMap, members: seq<Member>, stack: seq<string>, entries: seq<Entry>)
    requires Closed(m) && InMap(m, Structure(members, [])) && members != []
    ensures FieldsFit(m, members, stack, entries) <==>
            entries != [] && FieldFits(m, members[0], stack, entries[0]) && FieldsFit(m, members[1..], stack, entries[1..])
  {
    hide Fits, FieldFits;
    if entries != [] && FieldFits(m, members[0], stack, entries[0]) && FieldsFit(m, members[1..], stack, entries[1..]) {
      forall i | 0 <= i < |members|
        ensures FieldFits(m, members[i], stack, entries[i])
      {
        if i > 0 {
          assert members[i] == members[1..][i - 1] && entries[i] == entries[1..][i - 1];
        }
      }
    }
    if FieldsFit(m, members, stack, entries) {
      forall i | 0 <= i < |members[1..]|
        ensures FieldFits(m, members[1..][i], stack, entries[1..][i])
      {
        assert members[1..][i] == members[i + 1] && entries[1..][i] == entries[i + 1];
      }
    }
  }

  lemma SampleFits(m: ShapeMap, n: string, stack: seq<string>, v: Value)
    requires Closed(m) && n in m && m[n].kind.Scalar?
    ensures Sample(m[n].kind.scalar) == v <==> Fits(m, n, stack, v)
  {
  }

  /** The generator makes exactly the sample that fits. */
  lemma {:induction false} GenFits(m: ShapeMap, n: string, stack: seq<string>, v: Value)
    requires Closed(m) && Grounded(m) && n in m
    ensures Gen(m, n, stack) == Ok(v) <==> Fits(m, n, stack, v)
    decreases Unseen(m, stack), 0, Distance(m, n)
  {
    hide Unseen, Distance, Grounded, Gen, Closed, FieldsFit, GenFields;
    UnseenShrinks(m, stack, n);
    match m[n].kind
    case Structure(members, _) =>
      GenStructure(m, n, stack);
      if n !in stack && v.Dict? { GenFieldsFit(m, members, stack + [n], v.entries); }
    case List(member) =>
      GenList(m, n, stack);
      DistanceStep(m, n);
      if v.Items? && |v.items| == 1 {
        GenFits(m, member.shape, stack + [n], v.items[0]);
        assert v.items == [v.items[0]];
      }
    case Map(_, value) =>
      GenMap(m, n, stack);
      DistanceStep(m, n);
      if v.Dict? && |v.entries| == 1 {
        GenFits(m, value.shape, stack + [n], v.entries[0].value);
        assert v.entries == [Entry(v.entries[0].key, v.entries[0].value)];
      }
    case Scalar(_) =>
      GenScalar(m, n, stack);
      SampleFits(m, n, stack, v);
  }

  lemma {:induction false} GenFieldsFit(m: ShapeMap, members: seq<Member>, stack: seq<string>, entries: seq<Entry>)
    requires Closed(m) && Grounded(m) && InMap(m, Structure(members, []))
    ensures GenFields(m, members, stack) == Ok(entries) <==> FieldsFit(m, members, stack, entries)
    decreases Unseen(m, stack), 1, |members|
  {
    hide Gen, Fits, Unseen, Distance, Grounded;
    if members != [] {
      FieldsFitCons(m, members, stack, entries);
      if entries != [] {
        GenFits(m, members[0].ref.shape, stack, entries[0].value);
        GenFieldsFit(m, members[1..], stack, entries[1..]);
        assert entries == [Entry(entries[0].key, entries[0].value)] + entries[1..];
      }
      hide FieldsFit;
    }
  }

  ghost predicate StringKeys(m: ShapeMap) {
    forall n :: n in m && m[n].kind.Map? ==> m[n].kind.key.shape in m && m[m[n].kind.key.shape].kind == Scalar(StringT)
  }

  /** Only a map whose keys are not strings makes the generator fail. */
  lemma {:induction false} StringKeysSucceed(m: ShapeMap, n: string, stack: seq<string>)
    requires Closed(m) && Grounded(m) && n in m && StringKeys(m)
    ensures Gen(m, n, stack).Ok?
    decreases Unseen(m, stack), 0, Distance(m, n)
  {
    hide Unseen, Distance, Grounded, Gen, Closed;
    UnseenShrinks(m, stack, n);
    match m[n].kind
    case Structure(members, _) =>
      GenStructure(m, n, stack);
      if n !in stack { FieldsSucceed(m, members, stack + [n]); }
    case List(member) =>
      GenList(m, n, stack);
      DistanceStep(m, n);
      StringKeysSucceed(m, member.shape, stack + [n]);
    case Map(_, value) =>
      GenMap(m, n, stack);
      DistanceStep(m, n);
      StringKeysSucceed(m, value.shape, stack + [n]);
    case Scalar(_) => GenScalar(m, n, stack);
  }

  lemma {:induction false} FieldsSucceed(m: ShapeMap, members: seq<Member>, stack: seq<string>)
    requires Closed(m) && Grounded(m) && InMap(m, Structure(members, [])) && StringKeys(m)
    ensures GenFields(m, members, stack).Ok?
    decreases Unseen(m, stack), 1, |members|
  {
    hide Gen, Unseen, Distance, Grounded, StringKeys;
    if members != [] {
      StringKeysSucceed(m, members[0].ref.shape, stack);
      FieldsSucceed(m, members[1..], stack);
    }
  }
}
