/** The skeleton generator as it runs, with what is left of Python's recursion limit as its depth. */
module SkeletonRuns {
  import opened Results
  import opened Shapes
  import opened Skeletons

  function GenIn(m: ShapeMap, n: string, stack: seq<string>, depth: nat): Result<Value, GenError>
    requires Closed(m) && n in m
    decreases depth, 0
  {
    assert InMap(m, m[n].kind);
    if depth == 0 then Err(RecursionError)
    else
      match m[n].kind
      case Structure(members, _) =>
        if n in stack then Ok(Dict([]))
        else
          var entries :- GenFieldsIn(m, members, stack + [n], depth - 1);
          Ok(Dict(entries))
      case List(member) =>
        var item :- GenIn(m, member.shape, stack + [n], depth - 1);
        Ok(Items([item]))
      case Map(key, value) =>
        if m[key.shape].kind != Scalar(StringT) then Err(AssertionError)
        else
          var item :- GenIn(m, value.shape, stack + [n], depth - 1);
          Ok(Dict([Entry(Str("KeyName"), item)]))
      case Scalar(t) => Ok(Sample(t))
  }

  function GenFieldsIn(m: ShapeMap, members: seq<Member>, stack: seq<string>, depth: nat): Result<seq<Entry>, GenError>
    requires Closed(m) && InMap(m, Structure(members, []))
    decreases depth, 1 + |members|
  {
    if members == [] then Ok([])
    else
      var first :- GenIn(m, members[0].ref.shape, stack, depth);
      var rest :- GenFieldsIn(m, members[1..], stack, depth);
      Ok([Entry(Str(members[0].name), first)] + rest)
  }

  /** Whatever the recursion limit, a skeleton that is made is the sample that fits. */
  lemma {:induction false} RunFits(m: ShapeMap, n: string, stack: seq<string>, depth: nat)
    requires Closed(m) && n in m && GenIn(m, n, stack, depth).Ok?
    ensures Fits(m, n, stack, GenIn(m, n, stack, depth).value)
    decreases depth, 0
  {
    assert InMap(m, m[n].kind);
    match m[n].kind
    case Structure(members, _) =>
      hide FieldsFit;
      if n !in stack { RunFieldsFit(m, members, stack + [n], depth - 1); }
    case List(member) => RunFits(m, member.shape, stack + [n], depth - 1);
    case Map(_, value) => RunFits(m, value.shape, stack + [n], depth - 1);
    case Scalar(t) => SampleFits(m, n, stack, Sample(t));
  }

  lemma {:induction false} RunFieldsFit(m: ShapeMap, members: seq<Member>, stack: seq<string>, depth: nat)
    requires Closed(m) && InMap(m, Structure(members, [])) && GenFieldsIn(m, members, stack, depth).Ok?
    ensures FieldsFit(m, members, stack, GenFieldsIn(m, members, stack, depth).value)
    decreases depth, 1 + |members|
  {
    if members != [] {
      hide GenIn, Fits;
      RunFits(m, members[0].ref.shape, stack, depth);
      RunFieldsFit(m, members[1..], stack, depth);
      FieldsFitCons(m, members, stack, GenFieldsIn(m, members, stack, depth).value);
      hide FieldsFit;
    }
  }

  // ----- Maps without cycles of lists and maps

  /** Given room for the structures that can still open and the chains between them, the limit is never met. */
  lemma {:induction false} DeepEnough(m: ShapeMap, n: string, stack: seq<string>, longest: nat, depth: nat)
    requires Closed(m) && Grounded(m) && n in m && Within(m, longest) && depth > Room(m, stack, longest) + Distance(m, n)
    ensures GenIn(m, n, stack, depth) == Gen(m, n, stack)
    decreases depth, 0
  {
    hide Room, Unseen, Distance, Grounded, Gen, Within;
    assert InMap(m, m[n].kind);
    LessRoom(m, stack, n, longest);
    match m[n].kind
    case Structure(members, _) =>
      GenStructure(m, n, stack);
      if n !in stack { FieldsDeepEnough(m, members, stack + [n], longest, depth - 1); }
    case List(member) =>
      GenList(m, n, stack);
      DistanceStep(m, n);
      DeepEnough(m, member.shape, stack + [n], longest, depth - 1);
    case Map(_, value) =>
      GenMap(m, n, stack);
      DistanceStep(m, n);
      DeepEnough(m, value.shape, stack + [n], longest, depth - 1);
    case Scalar(_) => GenScalar(m, n, stack);
  }

  lemma WithinAt(m: ShapeMap, n: string, longest: nat)
    requires Closed(m) && Grounded(m) && n in m && Within(m, longest)
    ensures Distance(m, n) <= longest
  {
    hide Grounded, Distance;
  }

  lemma {:induction false} FieldsDeepEnough(m: ShapeMap, members: seq<Member>, stack: seq<string>, longest: nat, depth: nat)
    requires Closed(m) && Grounded(m) && InMap(m, Structure(members, [])) && Within(m, longest)
    requires depth > Room(m, stack, longest) + longest
    ensures GenFieldsIn(m, members, stack, depth) == GenFields(m, members, stack)
    decreases depth, 1 + |members|
  {
    hide Room, Unseen, Distance, Grounded, Gen, GenIn, Within, GenFields, GenFieldsIn;
    FieldsUnfold(m, members, stack);
    FieldsUnfoldIn(m, members, stack, depth);
    if members != [] {
      WithinAt(m, members[0].ref.shape, longest);
      DeepEnough(m, members[0].ref.shape, stack, longest, depth);
      FieldsDeepEnough(m, members[1..], stack, longest, depth);
    }
  }

  lemma FieldsUnfold(m: ShapeMap, members: seq<Member>, stack: seq<string>)
    requires Closed(m) && Grounded(m) && InMap(m, Structure(members, []))
    ensures
      if members == [] then GenFields(m, members, stack) == Ok([])
      else
        var first, rest := Gen(m, members[0].ref.shape, stack), GenFields(m, members[1..], stack);
        GenFields(m, members, stack) ==
          if first.Err? then Err(first.error) else if rest.Err? then rest else Ok([Entry(Str(members[0].name), first.value)] + rest.value)
  {
    hide Gen, Unseen, Distance, Grounded;
  }

  lemma FieldsUnfoldIn(m: ShapeMap, members: seq<Member>, stack: seq<string>, depth: nat)
    requires Closed(m) && InMap(m, Structure(members, []))
    ensures
      if members == [] then GenFieldsIn(m, members, stack, depth) == Ok([])
      else
        var first, rest := GenIn(m, members[0].ref.shape, stack, depth), GenFieldsIn(m, members[1..], stack, depth);
        GenFieldsIn(m, members, stack, depth) ==
          if first.Err? then Err(first.error) else if rest.Err? then rest else Ok([Entry(Str(members[0].name), first.value)] + rest.value)
  {
    hide GenIn;
  }

  /** Shapes that cannot be reached do not matter. */
  ghost predicate PartOf(part: ShapeMap, m: ShapeMap) {
    forall n :: n in part ==> n in m && m[n] == part[n]
  }

  lemma {:induction false} OnlyReachable(part: ShapeMap, m: ShapeMap, n: string, stack: seq<string>, depth: nat)
    requires Closed(part) && Closed(m) && PartOf(part, m) && n in part
    ensures GenIn(part, n, stack, depth) == GenIn(m, n, stack, depth)
    decreases depth, 0
  {
    assert InMap(part, part[n].kind) && m[n] == part[n];
    if depth > 0 {
      match m[n].kind
      case Structure(members, _) => FieldsReachable(part, m, members, stack + [n], depth - 1);
      case List(member) => OnlyReachable(part, m, member.shape, stack + [n], depth - 1);
      case Map(key, value) =>
        assert m[key.shape] == part[key.shape];
        OnlyReachable(part, m, value.shape, stack + [n], depth - 1);
      case Scalar(_) =>
    }
  }

  lemma {:induction false} FieldsReachable(part: ShapeMap, m: ShapeMap, members: seq<Member>, stack: seq<string>, depth: nat)
    requires Closed(part) && Closed(m) && PartOf(part, m) && InMap(part, Structure(members, [])) && InMap(m, Structure(members, []))
    ensures GenFieldsIn(part, members, stack, depth) == GenFieldsIn(m, members, stack, depth)
    decreases depth, 1 + |members|
  {
    if members != [] {
      OnlyReachable(part, m, members[0].ref.shape, stack, depth);
      FieldsReachable(part, m, members[1..], stack, depth);
    }
  }

  /** Whenever the shapes reached from n have no cycle of lists and maps, a deep enough recursion gives the unlimited
      skeleton. */
  lemma GroundedEnds(part: ShapeMap, m: ShapeMap, n: string, longest: nat, depth: nat)
    requires Closed(part) && Closed(m) && PartOf(part, m) && n in part && Grounded(part) && Within(part, longest)
    requires depth > Room(part, [], longest) + longest
    ensures GenIn(m, n, [], depth) == Gen(part, n, [])
  {
    hide Room, Unseen, Distance, Grounded, Gen, GenIn, Within, PartOf;
    WithinAt(part, n, longest);
    DeepEnough(part, n, [], longest, depth);
    OnlyReachable(part, m, n, [], depth);
  }

  // ----- Cycles of lists and maps

  /** A map whose keys are not strings, which the generator asserts not to meet. */
  predicate BadMap(m: ShapeMap, n: string)
    requires Closed(m) && n in m
  {
    assert InMap(m, m[n].kind);
    m[n].kind.Map? && m[m[n].kind.key.shape].kind != Scalar(StringT)
  }

  /** The first j shapes of the chain are lists and string-keyed maps. */
  ghost predicate Smooth(m: ShapeMap, n: string, j: nat)
    requires Closed(m) && n in m
  {
    forall i :: 0 <= i < j ==> Chained(m[Follow(m, n, i)].kind) && !BadMap(m, Follow(m, n, i))
  }

  /** Along such a chain nothing but the next shape is looked at. */
  lemma {:induction false} SmoothRun(m: ShapeMap, n: string, stack: seq<string>, depth: nat, j: nat)
    requires Closed(m) && n in m && Smooth(m, n, j)
    ensures depth <= j ==> GenIn(m, n, stack, depth) == Err(RecursionError)
    ensures depth > j && BadMap(m, Follow(m, n, j)) ==> GenIn(m, n, stack, depth) == Err(AssertionError)
    decreases depth
  {
    assert InMap(m, m[n].kind);
    if depth > 0 && j > 0 {
      assert Follow(m, n, 0) == n;
      forall i | 0 <= i < j - 1
        ensures Follow(m, NextOf(m, n), i) == Follow(m, n, i + 1)
      {
      }
      SmoothRun(m, NextOf(m, n), stack + [n], depth - 1, j - 1);
    }
  }

  /** The cycle has no map whose keys are not strings. */
  ghost predicate StringKeyed(m: ShapeMap, n: string, k: nat)
    requires Closed(m) && n in m
  {
    forall j :: 0 <= j < k ==> !BadMap(m, Follow(m, n, j))
  }

  /** From a shape on a cycle of lists and string-keyed maps there is no skeleton: the recursion meets every limit. */
  lemma CycleNeverReturns(m: ShapeMap, n: string, k: nat, stack: seq<string>, depth: nat)
    requires Closed(m) && n in m && Cycle(m, n, k) && StringKeyed(m, n, k)
    ensures GenIn(m, n, stack, depth) == Err(RecursionError)
  {
    hide StringKeyed, Cycle, Smooth, GenIn, BadMap;
    RoundAndRound(m, n, k, depth);
    SmoothRun(m, n, stack, depth, depth);
  }

  /** With another map on the cycle, the assertion fails as soon as the first one is reached. */
  lemma CycleAsserts(m: ShapeMap, n: string, k: nat, j: nat, stack: seq<string>, depth: nat)
    requires Closed(m) && n in m && Cycle(m, n, k) && j < k && BadMap(m, Follow(m, n, j)) && StringKeyed(m, n, j)
    ensures GenIn(m, n, stack, depth) == Err(if depth <= j then RecursionError else AssertionError)
  {
    CycleSmooth(m, n, k, j);
    hide StringKeyed, Cycle, Smooth, GenIn, BadMap;
    SmoothRun(m, n, stack, depth, j);
  }

  lemma CycleSmooth(m: ShapeMap, n: string, k: nat, j: nat)
    requires Closed(m) && n in m && Cycle(m, n, k) && j <= k && StringKeyed(m, n, j)
    ensures Smooth(m, n, j)
  {
    hide Follow, BadMap, Chained;
  }

  lemma {:induction false} RoundAndRound(m: ShapeMap, n: string, k: nat, j: nat)
    requires Closed(m) && n in m && Cycle(m, n, k) && StringKeyed(m, n, k)
    ensures Smooth(m, n, j)
    decreases j
  {
    hide Follow, BadMap, Chained;
    if j > k {
      RoundAndRound(m, n, k, j - k);
      forall i | 0 <= i < j
        ensures Chained(m[Follow(m, n, i)].kind) && !BadMap(m, Follow(m, n, i))
      {
        if i >= k { FollowOn(m, n, k, i - k); }
      }
    } else {
      CycleSmooth(m, n, k, k);
    }
  }

  // ----- The code

  /** The list of shape names that the recursive calls share. */
  class NameStack {
    var names: seq<string>

    constructor ()
      ensures names == []
    {
      names := [];
    }
  }

  method GenerateSkeleton(m: ShapeMap, n: string, depth: nat) returns (r: Result<Value, GenError>)
    requires Closed(m) && n in m
    ensures r == GenIn(m, n, [], depth)
  {
    var stack := new NameStack();
    r := Generate(m, n, stack, depth);
  }

  /** The name is pushed for the time of the call; the stack comes back as it was, also on failure. */
  method Generate(m: ShapeMap, n: string, stack: NameStack, depth: nat) returns (r: Result<Value, GenError>)
    requires Closed(m) && n in m
    modifies stack
    ensures r == GenIn(m, n, old(stack.names), depth) && stack.names == old(stack.names)
    decreases depth, 0
  {
    if depth == 0 {
      return Err(RecursionError);
    }
    ghost var before := stack.names;
    assert InMap(m, m[n].kind);
    stack.names := stack.names + [n];
    match m[n].kind {
      case Structure(members, _) =>
        if n in stack.names[..|stack.names| - 1] {
          r := Ok(Dict([]));
        } else {
          var entries := GenerateStructure(m, members, stack, depth - 1);
          r := if entries.Ok? then Ok(Dict(entries.value)) else Err(entries.error);
        }
      case List(member) =>
        var item := Generate(m, member.shape, stack, depth - 1);
        r := if item.Ok? then Ok(Items([item.value])) else item;
      case Map(key, value) =>
        if m[key.shape].kind != Scalar(StringT) {
          r := Err(AssertionError);
        } else {
          var item := Generate(m, value.shape, stack, depth - 1);
          r := if item.Ok? then Ok(Dict([Entry(Str("KeyName"), item.value)])) else item;
        }
      case Scalar(t) =>
        r := Ok(Sample(t));
    }
    stack.names := stack.names[..|stack.names| - 1];
  }

  lemma FieldsStep(m: ShapeMap, members: seq<Member>, stack: seq<string>, depth: nat, i: nat)
    requires Closed(m) && InMap(m, Structure(members, [])) && i <= |members|
    ensures InMap(m, Structure(members[i..], []))
    ensures GenFieldsIn(m, members[|members|..], stack, depth) == Ok([])
    ensures i < |members| ==>
      var first, rest := GenIn(m, members[i].ref.shape, stack, depth), GenFieldsIn(m, members[i + 1..], stack, depth);
      GenFieldsIn(m, members[i..], stack, depth) ==
        if first.Err? then Err(first.error) else if rest.Err? then rest else Ok([Entry(Str(members[i].name), first.value)] + rest.value)
  {
    hide GenIn;
    assert i < |members| ==> members[i..][0] == members[i] && members[i..][1..] == members[i + 1..];
  }

  /** The entries so far and those still to come make the whole. */
  predicate Joins(done: seq<Entry>, rest: Result<seq<Entry>, GenError>, whole: Result<seq<Entry>, GenError>) {
    whole == if rest.Ok? then Ok(done + rest.value) else rest
  }

  method GenerateStructure(m: ShapeMap, members: seq<Member>, stack: NameStack, depth: nat)
    returns (r: Result<seq<Entry>, GenError>)
    requires Closed(m) && InMap(m, Structure(members, []))
    modifies stack
    ensures r == GenFieldsIn(m, members, old(stack.names), depth) && stack.names == old(stack.names)
    decreases depth, 1 + |members|
  {
    hide GenIn, GenFieldsIn, Closed, Joins;
    ghost var before := stack.names;
    ghost var whole := GenFieldsIn(m, members, before, depth);
    assert members[0..] == members;
    JoinsAll(whole);
    var entries := [];
    for i := 0 to |members|
      invariant stack.names == before && InMap(m, Structure(members[i..], []))
      invariant Joins(entries, GenFieldsIn(m, members[i..], before, depth), whole)
    {
      FieldsStep(m, members, before, depth, i);
      FieldsStep(m, members, before, depth, i + 1);
      var first := Generate(m, members[i].ref.shape, stack, depth);
      JoinsStep(entries, first, members[i].name, GenFieldsIn(m, members[i..], before, depth),
                GenFieldsIn(m, members[i + 1..], before, depth), whole);
      if first.Err? { return Err(first.error); }
      entries := entries + [Entry(Str(members[i].name), first.value)];
    }
    FieldsStep(m, members, before, depth, |members|);
    JoinsEnd(entries, whole);
    return Ok(entries);
  }

  lemma JoinsAll(whole: Result<seq<Entry>, GenError>)
    ensures Joins([], whole, whole)
  {
    if whole.Ok? { assert [] + whole.value == whole.value; }
  }

  lemma JoinsEnd(done: seq<Entry>, whole: Result<seq<Entry>, GenError>)
    requires Joins(done, Ok([]), whole)
    ensures whole == Ok(done)
  {
    assert done + [] == done;
  }

  lemma JoinsStep(done: seq<Entry>, first: Result<Value, GenError>, name: string, rest: Result<seq<Entry>, GenError>,
                  later: Result<seq<Entry>, GenError>, whole: Result<seq<Entry>, GenError>)
    requires Joins(done, rest, whole)
    requires rest == if first.Err? then Err(first.error) else if later.Err? then later else Ok([Entry(Str(name), first.value)] + later.value)
    ensures if first.Err? then whole == Err(first.error) else Joins(done + [Entry(Str(name), first.value)], later, whole)
  {
    if first.Ok? && later.Ok? {
      var e := Entry(Str(name), first.value);
      assert done + ([e] + later.value) == (done + [e]) + later.value;
    }
  }
}
