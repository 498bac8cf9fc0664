/** For which shapes the skeleton generator ends: those from which no bad map and no cycle of lists and maps is reached. */
module SkeletonReaches {
  import opened Results
  import opened Shapes
  import opened Skeletons
  import opened SkeletonRuns

  // ----- What the generator goes on to

  predicate Step(m: ShapeMap, n: string, t: string)
    requires n in m
  {
    match m[n].kind
    case Structure(members, _) => exists i :: 0 <= i < |members| && members[i].ref.shape == t
    case List(member) => member.shape == t
    case Map(_, value) => value.shape == t
    case Scalar(_) => false
  }

  /** The shapes from the first to the last of the path, each met in the sample of the one before. */
  ghost predicate Walk(m: ShapeMap, path: seq<string>) {
    && path != [] && (forall i :: 0 <= i < |path| ==> path[i] in m)
    && forall i, j :: 0 <= i && j == i + 1 < |path| ==> Step(m, path[i], path[j])
  }

  ghost predicate Reaches(m: ShapeMap, n: string, t: string) {
    exists path :: Walk(m, path) && path[0] == n && path[|path| - 1] == t
  }

  ghost predicate Simple(path: seq<string>) {
    forall i, j :: 0 <= i < j < |path| ==> path[i] != path[j]
  }

  /** No sample can be made: keys that are not strings, or a chain of lists and maps that comes back. */
  ghost predicate Stuck(m: ShapeMap, t: string)
    requires Closed(m)
  {
    t in m && (BadMap(m, t) || exists k: nat :: Cycle(m, t, k))
  }

  // ----- Paths

  lemma WalkRest(m: ShapeMap, path: seq<string>)
    requires Walk(m, path) && |path| > 1
    ensures Walk(m, path[1..]) && Step(m, path[0], path[1]) && path[1..][|path[1..]| - 1] == path[|path| - 1]
  {
    forall i, j | 0 <= i && j == i + 1 < |path[1..]|
      ensures Step(m, path[1..][i], path[1..][j])
    {
      assert Step(m, path[i + 1], path[j + 1]);
    }
  }

  lemma WalkOn(m: ShapeMap, n: string, path: seq<string>)
    requires n in m && Walk(m, path) && Step(m, n, path[0])
    ensures Walk(m, [n] + path) && ([n] + path)[|path|] == path[|path| - 1]
  {
    var all := [n] + path;
    forall i, j | 0 <= i && j == i + 1 < |all|
      ensures Step(m, all[i], all[j])
    {
      if i > 0 { assert Step(m, path[i - 1], path[j - 1]); }
    }
  }

  lemma WalkFrom(m: ShapeMap, path: seq<string>, i: nat)
    requires Walk(m, path) && i < |path|
    ensures Walk(m, path[i..]) && path[i..][|path[i..]| - 1] == path[|path| - 1]
  {
    var rest := path[i..];
    forall a, b | 0 <= a && b == a + 1 < |rest|
      ensures Step(m, rest[a], rest[b])
    {
      assert Step(m, path[i + a], path[i + b]);
    }
  }

  /** Detours can be left out. */
  lemma {:induction false} WithoutDetours(m: ShapeMap, path: seq<string>) returns (short: seq<string>)
    requires Walk(m, path)
    ensures Walk(m, short) && Simple(short) && short[0] == path[0] && short[|short| - 1] == path[|path| - 1]
    decreases |path|
  {
    short := path;
    if |path| > 1 {
      WalkRest(m, path);
      var rest := WithoutDetours(m, path[1..]);
      if i :| 0 <= i < |rest| && rest[i] == path[0] {
        WalkFrom(m, rest, i);
        short := rest[i..];
      } else {
        WalkOn(m, path[0], rest);
        short := [path[0]] + rest;
      }
    }
  }

  lemma ReachesSelf(m: ShapeMap, n: string)
    requires n in m
    ensures Reaches(m, n, n)
  {
    assert Walk(m, [n]) && [n][0] == n;
  }

  lemma ReachesOn(m: ShapeMap, n: string, t: string, u: string)
    requires Reaches(m, n, t) && t in m && u in m && Step(m, t, u)
    ensures Reaches(m, n, u)
  {
    var path :| Walk(m, path) && path[0] == n && path[|path| - 1] == t;
    var all := path + [u];
    forall i, j | 0 <= i && j == i + 1 < |all|
      ensures Step(m, all[i], all[j])
    {
      if j < |path| { assert Step(m, path[i], path[j]); }
    }
    assert Walk(m, all) && all[0] == n && all[|all| - 1] == u;
  }

  // ----- What is stuck stays stuck

  lemma {:induction false} FirstBad(m: ShapeMap, n: string, k: nat) returns (j: nat)
    requires Closed(m) && n in m && !StringKeyed(m, n, k)
    ensures j < k && BadMap(m, Follow(m, n, j)) && StringKeyed(m, n, j)
    decreases k
  {
    if StringKeyed(m, n, k - 1) {
      j := k - 1;
    } else {
      j := FirstBad(m, n, k - 1);
    }
  }

  lemma StuckFails(m: ShapeMap, t: string, stack: seq<string>, depth: nat)
    requires Closed(m) && Stuck(m, t)
    ensures GenIn(m, t, stack, depth).Err?
  {
    if !BadMap(m, t) {
      var k: nat :| Cycle(m, t, k);
      if StringKeyed(m, t, k) {
        CycleNeverReturns(m, t, k, stack, depth);
      } else {
        var j := FirstBad(m, t, k);
        CycleAsserts(m, t, k, j, stack, depth);
      }
    }
  }

  lemma {:induction false} FieldsFail(m: ShapeMap, members: seq<Member>, stack: seq<string>, depth: nat, i: nat)
    requires Closed(m) && InMap(m, Structure(members, [])) && i < |members|
    requires GenIn(m, members[i].ref.shape, stack, depth).Err?
    ensures GenFieldsIn(m, members, stack, depth).Err?
    decreases i
  {
    hide GenIn;
    if i > 0 {
      FieldsFail(m, members[1..], stack, depth, i - 1);
    }
  }

  /** Nothing on the way to a shape that cannot be made can be made, if no structure of the way is cut off as repeated. */
  lemma {:induction false} WayFails(m: ShapeMap, path: seq<string>, stack: seq<string>, depth: nat)
    requires Closed(m) && Walk(m, path) && Simple(path) && Stuck(m, path[|path| - 1])
    requires forall i :: 0 <= i < |path| ==> path[i] !in stack
    ensures GenIn(m, path[0], stack, depth).Err?
    decreases |path|
  {
    if |path| == 1 {
      StuckFails(m, path[0], stack, depth);
    } else if depth > 0 {
      var n := path[0];
      assert InMap(m, m[n].kind);
      hide Stuck, BadMap, Cycle;
      WalkRest(m, path);
      WayFails(m, path[1..], stack + [n], depth - 1);
      match m[n].kind
      case Structure(members, _) =>
        var i :| 0 <= i < |members| && members[i].ref.shape == path[1];
        FieldsFail(m, members, stack + [n], depth - 1, i);
      case List(_) =>
      case Map(_, _) =>
      case Scalar(_) =>
    }
  }

  // ----- Where nothing is stuck

  ghost function ReachedFrom(m: ShapeMap, n: string): set<string> {
    set t | t in m && Reaches(m, n, t)
  }

  /** The shapes that are reached, and the keys of maps among them. */
  ghost function Part(m: ShapeMap, n: string): ShapeMap {
    var keys := set t | t in ReachedFrom(m, n) && t in m && m[t].kind.Map? :: m[t].kind.key.shape;
    map t | t in ReachedFrom(m, n) + keys && t in m :: m[t]
  }

  ghost predicate Clear(m: ShapeMap, n: string)
    requires Closed(m)
  {
    forall t :: Reaches(m, n, t) ==> !Stuck(m, t)
  }

  lemma PartAt(m: ShapeMap, n: string, t: string)
    requires Closed(m) && n in m && Clear(m, n) && t in Part(m, n)
    ensures t in m && Part(m, n)[t] == m[t]
    ensures Reaches(m, n, t) || m[t].kind == Scalar(StringT)
  {
    hide Reaches, Cycle;
    if !Reaches(m, n, t) {
      var u :| u in ReachedFrom(m, n) && m[u].kind.Map? && m[u].kind.key.shape == t;
      assert !BadMap(m, u);
    }
  }

  lemma PartGoesOn(m: ShapeMap, n: string, t: string)
    requires Closed(m) && n in m && Clear(m, n) && t in Part(m, n)
    ensures InMap(Part(m, n), m[t].kind) && (m[t].kind.Map? ==> m[m[t].kind.key.shape].kind == Scalar(StringT))
  {
    PartAt(m, n, t);
    assert InMap(m, m[t].kind);
    hide Reaches, Cycle, Clear;
    if Reaches(m, n, t) {
      match m[t].kind
      case Structure(members, _) =>
        forall i | 0 <= i < |members|
          ensures members[i].ref.shape in Part(m, n)
        {
          assert Step(m, t, members[i].ref.shape);
          ReachesOn(m, n, t, members[i].ref.shape);
        }
      case List(member) => ReachesOn(m, n, t, member.shape);
      case Map(key, value) =>
        ReachesOn(m, n, t, value.shape);
        assert t in ReachedFrom(m, n);
        NotBad(m, n, t);
      case Scalar(_) =>
    }
  }

  lemma NotBad(m: ShapeMap, n: string, t: string)
    requires Closed(m) && t in m && Clear(m, n) && Reaches(m, n, t)
    ensures !BadMap(m, t)
  {
    hide Reaches, Cycle;
    assert !Stuck(m, t);
  }

  lemma PartIsClosed(m: ShapeMap, n: string)
    requires Closed(m) && n in m && Clear(m, n)
    ensures Closed(Part(m, n)) && PartOf(Part(m, n), m) && n in Part(m, n) && StringKeys(Part(m, n))
  {
    ReachesSelf(m, n);
    assert n in ReachedFrom(m, n);
    hide Reaches, Clear, ReachedFrom;
    var part := Part(m, n);
    forall t | t in part
      ensures t in m && m[t] == part[t] && InMap(part, part[t].kind)
      ensures part[t].kind.Map? ==> part[t].kind.key.shape in part && part[part[t].kind.key.shape].kind == Scalar(StringT)
    {
      PartAt(m, n, t);
      PartGoesOn(m, n, t);
      if m[t].kind.Map? { PartAt(m, n, m[t].kind.key.shape); }
    }
  }

  lemma {:induction false} FollowInPart(part: ShapeMap, m: ShapeMap, n: string, k: nat)
    requires Closed(part) && Closed(m) && PartOf(part, m) && n in part
    ensures Follow(part, n, k) == Follow(m, n, k)
    decreases k
  {
    if k > 0 {
      assert InMap(part, part[n].kind) && InMap(m, m[n].kind);
      FollowInPart(part, m, NextOf(part, n), k - 1);
    }
  }

  lemma PartIsGrounded(m: ShapeMap, n: string)
    requires Closed(m) && n in m && Clear(m, n)
    ensures Closed(Part(m, n)) && Grounded(Part(m, n))
  {
    var part := Part(m, n);
    PartIsClosed(m, n);
    forall t, k: nat | t in part
      ensures !Cycle(part, t, k)
    {
      PartAt(m, n, t);
      forall j: nat ensures Follow(part, t, j) == Follow(m, t, j) { FollowInPart(part, m, t, j); }
      if Cycle(part, t, k) {
        PartCycle(m, n, t, k);
      }
    }
    GroundedIffNoCycle(part);
  }

  lemma NoCycle(m: ShapeMap, n: string, t: string, k: nat)
    requires Closed(m) && Clear(m, n) && t in m && (Reaches(m, n, t) || m[t].kind == Scalar(StringT))
    ensures !Cycle(m, t, k)
  {
    hide Reaches;
    assert Follow(m, t, 0) == t;
  }

  lemma PartCycle(m: ShapeMap, n: string, t: string, k: nat)
    requires Closed(m) && n in m && Clear(m, n) && t in Part(m, n) && Closed(Part(m, n)) && PartOf(Part(m, n), m)
    requires forall j: nat :: Follow(Part(m, n), t, j) == Follow(m, t, j)
    ensures !Cycle(Part(m, n), t, k)
  {
    var part := Part(m, n);
    PartAt(m, n, t);
    hide Part, Reaches;
    if Cycle(part, t, k) {
      assert Follow(m, t, 0) == t && Chained(m[t].kind);
      forall j | 0 <= j < k
        ensures Chained(m[Follow(m, t, j)].kind)
      {
        assert Follow(part, t, j) in part;
      }
      NoCycle(m, n, t, k);
    }
  }

  lemma {:induction false} Longest(m: ShapeMap, names: set<string>) returns (longest: nat)
    requires Closed(m) && Grounded(m) && names <= m.Keys
    ensures forall n :: n in names ==> Distance(m, n) <= longest
    decreases names
  {
    hide Distance, Grounded;
    longest := 0;
    if names != {} {
      var n :| n in names;
      var rest := Longest(m, names - {n});
      longest := Max(rest, Distance(m, n));
      assert forall t :: t in names ==> t == n || t in names - {n};
    }
  }

  /** From this limit on there is a skeleton. */
  ghost predicate EnoughFor(m: ShapeMap, n: string, limit: nat)
    requires Closed(m) && n in m
  {
    forall depth: nat :: depth >= limit ==> GenIn(m, n, [], depth).Ok?
  }

  lemma PartSucceeds(part: ShapeMap, m: ShapeMap, n: string, longest: nat) returns (limit: nat)
    requires Closed(part) && Closed(m) && PartOf(part, m) && n in part && n in m && Grounded(part) && StringKeys(part)
    requires Within(part, longest)
    ensures EnoughFor(m, n, limit)
  {
    hide Grounded, StringKeys, Within, Closed, PartOf, Gen, GenIn, Room, Distance, Unseen;
    StringKeysSucceed(part, n, []);
    limit := Room(part, [], longest) + longest + 1;
    forall depth: nat | depth >= limit
      ensures GenIn(m, n, [], depth).Ok?
    {
      GroundedEnds(part, m, n, longest, depth);
    }
  }

  lemma ClearSucceeds(m: ShapeMap, n: string) returns (limit: nat)
    requires Closed(m) && n in m && Clear(m, n)
    ensures EnoughFor(m, n, limit)
  {
    hide *;
    PartIsClosed(m, n);
    PartIsGrounded(m, n);
    var part := Part(m, n);
    var longest := Longest(part, part.Keys);
    MakeWithin(part, longest);
    limit := PartSucceeds(part, m, n, longest);
  }

  lemma MakeWithin(m: ShapeMap, longest: nat)
    requires Closed(m) && Grounded(m) && forall n :: n in m.Keys ==> Distance(m, n) <= longest
    ensures Within(m, longest)
  {
    hide Distance, Grounded;
  }

  /** Some recursion limit gives a skeleton, and then every higher one does, exactly when nothing that is stuck is reached:
      no map whose keys are not strings, and no cycle of lists and maps. */
  lemma SkeletonIffClear(m: ShapeMap, n: string)
    requires Closed(m) && n in m
    ensures (exists depth: nat :: GenIn(m, n, [], depth).Ok?) <==> Clear(m, n)
    ensures Clear(m, n) ==> exists limit: nat :: EnoughFor(m, n, limit)
  {
    hide GenIn, Stuck;
    if Clear(m, n) {
      var limit := ClearSucceeds(m, n);
      assert GenIn(m, n, [], limit).Ok?;
    } else {
      var t :| Reaches(m, n, t) && Stuck(m, t);
      var path :| Walk(m, path) && path[0] == n && path[|path| - 1] == t;
      var short := WithoutDetours(m, path);
      forall depth: nat
        ensures GenIn(m, n, [], depth).Err?
      {
        WayFails(m, short, [], depth);
      }
    }
  }

  // ----- Maps with string keys only

  lemma {:induction false} OnlyLimit(m: ShapeMap, n: string, stack: seq<string>, depth: nat)
    requires Closed(m) && n in m && StringKeys(m) && GenIn(m, n, stack, depth).Err?
    ensures GenIn(m, n, stack, depth) == Err(RecursionError)
    decreases depth, 0
  {
    assert InMap(m, m[n].kind);
    if depth > 0 {
      match m[n].kind
      case Structure(members, _) => OnlyLimitFields(m, members, stack + [n], depth - 1);
      case List(member) => OnlyLimit(m, member.shape, stack + [n], depth - 1);
      case Map(_, value) => OnlyLimit(m, value.shape, stack + [n], depth - 1);
      case Scalar(_) =>
    }
  }

  lemma {:induction false} OnlyLimitFields(m: ShapeMap, members: seq<Member>, stack: seq<string>, depth: nat)
    requires Closed(m) && InMap(m, Structure(members, [])) && StringKeys(m) && GenFieldsIn(m, members, stack, depth).Err?
    ensures GenFieldsIn(m, members, stack, depth) == Err(RecursionError)
    decreases depth, 1 + |members|
  {
    hide GenIn, StringKeys;
    if GenIn(m, members[0].ref.shape, stack, depth).Err? {
      OnlyLimit(m, members[0].ref.shape, stack, depth);
    } else {
      OnlyLimitFields(m, members[1..], stack, depth);
    }
  }

  /** With string keys only, the generator runs into every recursion limit exactly when it reaches a cycle of lists and
      maps, and else gives a skeleton. */
  lemma CycleReachedIff(m: ShapeMap, n: string)
    requires Closed(m) && n in m && StringKeys(m)
    ensures (forall depth: nat :: GenIn(m, n, [], depth) == Err(RecursionError)) <==>
            exists t, k: nat :: t in m && Reaches(m, n, t) && Cycle(m, t, k)
  {
    hide GenIn, Reaches, Cycle;
    SkeletonIffClear(m, n);
    forall t | t in m
      ensures !BadMap(m, t)
    {
      assert InMap(m, m[t].kind);
    }
    hide StringKeys;
    forall depth: nat | GenIn(m, n, [], depth).Err?
      ensures GenIn(m, n, [], depth) == Err(RecursionError)
    {
      OnlyLimit(m, n, [], depth);
    }
  }
}
