/**
 * Settings that meet a scalar and were given keys elsewhere: an order of the keys in which the merge fails. With it the
 * condition is exact.
 */
module MergesScalar {
  import opened Results
  import opened RetryConfigs
  import opened RetryConfigSharing
  import opened MergeRuns
  import opened MergeSafety
  import opened MergesRight
  import opened MergesWrong

  // ----- A run that succeeds does not come near the limit

  lemma {:induction false} RunMore(h: Heap, order: Order, x: Item, y: Dict, depth: nat, more: nat)
    requires Closed(h) && Within(h, x) && y in h && Orderly(order) && depth <= more
    requires Run(h, order, x, y, depth).1
    ensures Run(h, order, x, y, more) == Run(h, order, x, y, depth)
    decreases depth, 1, 0
  {
    if x.Table? {
      OrderLists(order, y, h[y].Keys);
      KeysMore(h, order, x.dict, y, Listed(order, y, h[y].Keys), h[y].Keys, depth, more);
    }
  }

  lemma {:induction false} KeysMore(h: Heap, order: Order, x: Dict, y: Dict, keys: seq<string>, all: set<string>,
                                    depth: nat, more: nat)
    requires Closed(h) && x in h && y in h && Orderly(order) && 0 < depth <= more
    requires forall i :: 0 <= i < |keys| ==> keys[i] in all
    requires RunKeys(h, order, x, y, keys, all, depth).1
    ensures RunKeys(h, order, x, y, keys, all, more) == RunKeys(h, order, x, y, keys, all, depth)
    decreases depth, 0, |keys|
  {
    hide *;
    StillSame(h, order, x, y, keys, all, depth);
    if keys == [] {
      NoMoreKeys(h, order, x, y, all, depth);
      NoMoreKeys(h, order, x, y, all, more);
    } else {
      OneMoreKey(h, order, x, y, keys, all, depth);
      OneMoreKey(h, order, x, y, keys, all, more);
      KeyMore(h, order, x, y, keys[0], depth, more);
      KeysMore(RunKey(h, order, x, y, keys[0], depth).0, order, x, y, keys[1..], all, depth, more);
    }
  }

  lemma {:induction false} KeyMore(h: Heap, order: Order, x: Dict, y: Dict, key: string, depth: nat, more: nat)
    requires Closed(h) && x in h && y in h && key in h[y] && 0 < depth <= more && Orderly(order)
    requires RunKey(h, order, x, y, key, depth).1
    ensures RunKey(h, order, x, y, key, more) == RunKey(h, order, x, y, key, depth)
    decreases depth, 0, 0
  {
    hide Run, RunKey;
    if h[y][key].Table? && key in h[x] {
      KeyMerges(h, order, x, y, key, depth);
      KeyMerges(h, order, x, y, key, more);
      RunMore(h, order, h[x][key], h[y][key].dict, depth - 1, more - 1);
    } else {
      KeyWrites(h, order, x, y, key, depth);
      KeyWrites(h, order, x, y, key, more);
    }
  }

  // ----- The order

  ghost function TwoOf(j: string, k: string, keys: set<string>): (s: seq<string>)
    requires j != k
    ensures Lists(s, keys) && (j in keys && k in keys ==> |s| >= 2 && s[0] == j && s[1] == k)
  {
    if j in keys && k in keys then
      var rest := Enumerate(keys - {j, k});
      assert forall i :: i in keys ==> i == j || i == k || i in keys - {j, k};
      [j, k] + rest
    else Enumerate(keys)
  }

  /** One dictionary gives two keys before all its others, and others give one. */
  ghost function Fork(ks: map<Dict, string>, d: Dict, j: string, k: string): (order: Order)
    requires j != k
    ensures Orderly(order)
  {
    map e | e in ks.Keys + {d} :: (keys: set<string>) => if e in ks && e != d then FirstOf(ks[e], keys) else TwoOf(j, k, keys)
  }

  lemma ForkElsewhere(ks: map<Dict, string>, d: Dict, j: string, k: string, e: Dict)
    requires j != k && e in ks && e != d
    ensures KeyFirst(Fork(ks, d, j, k), e, ks[e])
  {
    FirstKey(ks, e);
    forall keys
      ensures Listed(Fork(ks, d, j, k), e, keys) == Listed(First(ks), e, keys)
    {
    }
  }

  lemma ForkTwo(ks: map<Dict, string>, d: Dict, j: string, k: string, all: set<string>)
    requires j != k && j in all && k in all
    ensures
      var keys := Listed(Fork(ks, d, j, k), d, all);
      |keys| >= 2 && keys[0] == j && keys[1] == k
  {
    assert Listed(Fork(ks, d, j, k), d, all) == TwoOf(j, k, all);
  }

  /** Beyond the fork. */
  lemma {:induction false} ForkLeadsOn(ks: map<Dict, string>, d: Dict, j: string, k: string, v: View, R: Path)
    requires j != k && Follows(ks, v, R) && d !in Dicts(v)
    ensures Leads(Fork(ks, d, j, k), v, R)
    decreases |R|
  {
    if R != [] && v.Node? {
      ForkElsewhere(ks, d, j, k, v.dict);
      if R[0] in v.kids { ForkLeadsOn(ks, d, j, k, v.kids[R[0]], R[1..]); }
    }
  }

  /** On the way to the fork. */
  lemma {:induction false} ForkLeads(h: Heap, ks: map<Dict, string>, s: View, j: string, k: string, v: View, R: Path)
    requires j != k && ShowsIn(h, v) && s.Node? && Follows(ks, v, R) && Reached(v, R) == Some(s)
    ensures Leads(Fork(ks, s.dict, j, k), v, R)
    decreases |R|
  {
    hide Fork, Dicts;
    if R != [] && v.Node? {
      var kid := v.kids[R[0]];
      ReachedPart(kid, R[1..], s);
      SubDicts(kid, s);
      NotOwnPart(h, v, R[0]);
      ForkElsewhere(ks, s.dict, j, k, v.dict);
      ForkLeads(h, ks, s, j, k, kid, R[1..]);
    }
  }

  // ----- The way to the scalar

  lemma {:induction false} PairOnPath(a: View, b: View, Q: Path, P: Path)
    requires PairAt(a, b, P).Some? && Q <= P
    ensures PairAt(a, b, Q).Some?
    ensures Q < P ==>
      var q, k := PairAt(a, b, Q).value, P[|Q|];
      q.0.Node? && k in q.0.kids && k in q.1.kids && q.1.kids[k].Node?
    decreases |Q|
  {
    if Q != [] {
      PairOnPath(a.kids[Q[0]], b.kids[Q[0]], Q[1..], P[1..]);
    }
  }

  /** The branch has been merged, and nothing else. */
  ghost predicate After(h0: Heap, h: Heap, a: View, b: View, beta: Path) {
    && Setting(h0, a, b) && Mid(h0, h, a, b) && PairAt(a, b, beta).Some?
    && var s := PairAt(a, b, beta).value;
       Changed(h0, h, Overridden(s.0, s.1)) && forall r :: r in Pairs(s.0, s.1) ==> PairDone(h, r)
  }

  /** Who put a scalar into an entry of the settings. */
  lemma Overwriter(h0: Heap, h: Heap, a: View, b: View, beta: Path, A: Path, u: (View, View), k: string)
    returns (P: Path, p: (View, View))
    requires After(h0, h, a, b, beta) && PairAt(a, b, A) == Some(u) && k in u.1.kids
    requires u.1.dict in h && k in h[u.1.dict] && h[u.1.dict][k] != ItemOf(u.1.kids[k])
    ensures beta <= P && PairAt(a, b, P) == Some(p) && p.0 == u.1 && p.0.Node? && p.1.Node? && Changes(p)
    ensures Merge(p.0, p.1).Node? && k in Merge(p.0, p.1).kids && Merge(p.0, p.1).kids[k].Leaf?
  {
    var s := PairAt(a, b, beta).value;
    hide *;
    ChangedBranch(h0, h, a, b, beta, A, u, k);
    p := OverriddenHasPair(s.0, s.1, u.1.dict);
    var R := PairHasPath(s.0, s.1, p);
    P := beta + R;
    PairFurther(a, b, beta, R);
    PairIsSeen(a, b, P);
    PairIsSeen(a, b, A);
    OneAfter(h0, h, a, b, beta, p.0, u.1);
    BranchDone(h, h0, a, b, beta, p);
    DoneEntry(h, p, k);
  }

  lemma ChangedBranch(h0: Heap, h: Heap, a: View, b: View, beta: Path, A: Path, u: (View, View), k: string)
    requires After(h0, h, a, b, beta) && PairAt(a, b, A) == Some(u) && k in u.1.kids
    requires u.1.dict in h && k in h[u.1.dict] && h[u.1.dict][k] != ItemOf(u.1.kids[k])
    ensures u.1.Node? && PairAt(a, b, beta).Some?
    ensures u.1.dict in Overridden(PairAt(a, b, beta).value.0, PairAt(a, b, beta).value.1)
  {
    hide PairAt, Overridden, Pairs, Harmless, ReadsWell, Mid, Merge;
    PairIsSeen(a, b, A);
    SubsShownIn(h0, b, u.1);
  }

  lemma OneAfter(h0: Heap, h: Heap, a: View, b: View, beta: Path, s: View, t: View)
    requires After(h0, h, a, b, beta) && s in Subs(a) && t in Subs(b) && s.Node? && t.Node? && s.dict == t.dict
    ensures s == t
  {
    hide PairAt, Overridden, Pairs, Setting, Mid, Merge, Subs;
    OneInSetting(h0, a, b, s, t);
  }

  lemma BranchDone(h: Heap, h0: Heap, a: View, b: View, beta: Path, p: (View, View))
    requires After(h0, h, a, b, beta)
    requires p in Pairs(PairAt(a, b, beta).value.0, PairAt(a, b, beta).value.1)
    ensures PairDone(h, p)
  {
    hide PairAt, Overridden, Pairs, Setting, Mid, PairDone;
  }

  lemma DoneEntry(h: Heap, p: (View, View), k: string)
    requires PairDone(h, p) && p.0.Node? && p.1.Node? && k in p.0.kids && p.0.dict in h && k in h[p.0.dict]
    requires h[p.0.dict][k] != ItemOf(p.0.kids[k])
    ensures Changes(p) && Merge(p.0, p.1).Node? && k in Merge(p.0, p.1).kids && Merge(p.0, p.1).kids[k].Leaf?
  {
    MergedAt(p.0, p.1, k);
    if k in p.1.kids && p.1.kids[k].Node? {
      MergedItem(p.0.kids[k], p.1.kids[k]);
    }
  }

  /** On the way to Q the settings' entries are still what they were. */
  lemma EntryOnWay(h0: Heap, h: Heap, a: View, b: View, beta: Path, Q: Path, A: Path, u: (View, View), k: string)
    requires After(h0, h, a, b, beta) && Leaves(beta, Q) && |beta| <= |A| + 1 && A + [k] <= Q
    requires PairAt(a, b, A) == Some(u) && u.0.Node? && k in u.0.kids && k in u.1.kids && u.1.kids[k].Node?
    requires if A + [k] == Q then !Overruled(a, b, beta, Q) else u.0.kids[k].Node?
    ensures u.1.dict in h && k in h[u.1.dict] && h[u.1.dict][k] == ItemOf(u.1.kids[k])
  {
    hide *;
    EntryThere(h0, h, a, b, beta, A, u, k);
    if h[u.1.dict][k] != ItemOf(u.1.kids[k]) {
      var P, p := Overwriter(h0, h, a, b, beta, A, u, k);
      if A + [k] == Q {
        ItIsOverruled(a, b, beta, P, p, A, u, k);
      } else {
        PathsPart(beta, P, Q, A, k);
        AfterReads(h0, h, a, b, beta, P, p, A, u, k);
        ScalarIsSeen(u, Merge(p.0, p.1), k);
      }
    }
  }

  lemma EntryThere(h0: Heap, h: Heap, a: View, b: View, beta: Path, A: Path, u: (View, View), k: string)
    requires After(h0, h, a, b, beta) && PairAt(a, b, A) == Some(u) && k in u.1.kids
    ensures u.1.Node? && u.1.dict in h && k in h[u.1.dict]
  {
    hide PairAt, Overridden, Pairs, Setting, Mid, Merge, Subs;
    PairIsSeen(a, b, A);
    SettingsKeys(h0, h, a, b, u.1);
  }

  lemma ItIsOverruled(a: View, b: View, beta: Path, P: Path, p: (View, View), A: Path, u: (View, View), k: string)
    requires beta <= P && PairAt(a, b, P) == Some(p) && PairAt(a, b, A) == Some(u) && p.0 == u.1 && p.0.Node? && p.1.Node?
    requires k in Merge(p.0, p.1).kids && Merge(p.0, p.1).kids[k].Leaf?
    ensures Overruled(a, b, beta, A + [k])
  {
    assert (A + [k])[..|A + [k]| - 1] == A;
    hide PairAt, Merge;
  }

  lemma PathsPart(beta: Path, P: Path, Q: Path, A: Path, k: string)
    requires Leaves(beta, Q) && beta <= P && A + [k] <= Q && |beta| <= |A| + 1
    ensures P != A && (A < P ==> k != P[|A|])
  {
    assert A <= Q by { assert (A + [k])[..|A|] == A; assert Q[..|A|] == A; }
    if A < P && k == P[|A|] {
      SameStart(beta, P, A, k, Q);
    }
  }

  lemma SameStart(beta: Path, P: Path, A: Path, k: string, Q: Path)
    requires beta <= P && A < P && k == P[|A|] && |beta| <= |A| + 1 && A + [k] <= Q
    ensures beta <= Q
  {
    assert P[..|A| + 1] == A + [k];
    assert beta == P[..|beta|] == (A + [k])[..|beta|] == Q[..|beta|];
  }

  lemma AfterReads(h0: Heap, h: Heap, a: View, b: View, beta: Path, P: Path, p: (View, View), A: Path, u: (View, View), k: string)
    requires After(h0, h, a, b, beta) && PairAt(a, b, P) == Some(p) && PairAt(a, b, A) == Some(u)
    requires p.0 == u.1 && p.0.Node? && p.1.Node? && Changes(p) && u.0.Node? && Merge(p.0, p.1).Node? && k in Merge(p.0, p.1).kids
    requires P != A && (A < P ==> k != P[|A|])
    ensures SameAt(u, Merge(p.0, p.1), k)
  {
    hide PairAt, Overridden, Pairs, Harmless, Mid, Merge, SameAt, Changes;
    assert ReadsWellAt(P, p, A, u);
  }

  lemma ScalarIsSeen(u: (View, View), m: View, k: string)
    requires u.0.Node? && u.1.Node? && m.Node? && k in m.kids && SameAt(u, m, k) && m.kids[k].Leaf?
    requires k in u.0.kids && k in u.1.kids
    ensures u.0.kids[k].Leaf? || u.1.kids[k].Leaf?
  {
    MergedAt(u.0, u.1, k);
  }

  /** The round on the way to Q fails: the scalar is met by settings that have keys by now. */
  lemma {:induction false} WayFails(h0: Heap, h: Heap, order: Order, a: View, b: View, beta: Path, Q: Path, q: (View, View),
                                    A: Path, u: (View, View), depth: nat)
    requires After(h0, h, a, b, beta) && Orderly(order) && Leaves(beta, Q) && |beta| <= |A| + 1 && A < Q
    requires PairAt(a, b, Q) == Some(q) && q.0.Leaf? && q.1.dict in h && h[q.1.dict] != map[] && !Overruled(a, b, beta, Q)
    requires PairAt(a, b, A) == Some(u) && u.0.Node? && depth > 0
    requires Q[|A|] in u.1.kids ==> Leads(order, u.1.kids[Q[|A|]], Q[|A| + 1..])
    ensures Closed(h) && u.0.dict in h && u.1.dict in h && Q[|A|] in h[u.1.dict]
    ensures !RunKey(h, order, u.0.dict, u.1.dict, Q[|A|], depth).1
    decreases |Q| - |A|
  {
    hide *;
    var k := Q[|A|];
    assert A + [k] <= Q;
    PairOnPath(a, b, A, Q);
    PairBelow(a, b, A, k);
    var x, y := u.0.kids[k], u.1.kids[k];
    PairOnPath(a, b, A + [k], Q);
    EntryOnWay(h0, h, a, b, beta, Q, A, u, k);
    DefaultOnWay(h0, h, a, b, beta, A, u, k);
    ItemIsTable(y);
    KeyMerges(h, order, u.0.dict, u.1.dict, k, depth);
    if A + [k] == Q {
      PlainLeaf(x);
      if Run(h, order, ItemOf(x), y.dict, depth - 1).1 {
        ScalarLast(h, order, ItemOf(x), y.dict, depth - 1);
      }
    } else if Run(h, order, ItemOf(x), y.dict, depth - 1).1 {
      ItemIsTable(x);
      DeepRun(h, order, ItemOf(x), y.dict, depth - 1);
      assert Q[|A| + 1..][1..] == Q[|A + [k]| + 1..] && Q[|A| + 1..][0] == Q[|A + [k]|];
      LeadsHere(order, y, Q[|A| + 1..], y.kids.Keys);
      WayFails(h0, h, order, a, b, beta, Q, q, A + [k], (x, y), depth - 1);
      LeadsHere(order, y, Q[|A| + 1..], h[y.dict].Keys);
      RoundOne(h, order, x, y.dict, depth - 1, Q[|A| + 1]);
    }
  }

  /** The default on the way to Q is still there. */
  lemma DefaultOnWay(h0: Heap, h: Heap, a: View, b: View, beta: Path, A: Path, u: (View, View), k: string)
    requires After(h0, h, a, b, beta) && PairAt(a, b, A) == Some(u) && u.0.Node? && k in u.0.kids && k in u.1.kids
    requires u.1.kids[k].Node?
    ensures Closed(h) && u.0.dict in h && k in h[u.0.dict] && h[u.0.dict][k] == ItemOf(u.0.kids[k])
  {
    hide PairAt, Overridden, Pairs, Setting, Merge, Subs, Between;
    PairIsSeen(a, b, A);
    assert PairMid(h, u);
    MergedAt(u.0, u.1, k);
    EntryMidHere(h, u, k);
  }

  // ----- The order fails

  lemma WayParts(a: View, b: View, P: Path, p: (View, View), Q: Path, q: (View, View))
    requires a.Node? && b.Node? && Mergeable(a, b) && Harmless(a, b) && PairAt(a, b, P) == Some(p) && PairAt(a, b, Q) == Some(q)
    requires p.0 == q.1 && p.0.Node? && q.0.Leaf?
    ensures !(P <= Q) && !(Q <= P)
  {
    if Q <= P {
      PairOnPath(a, b, Q, P);
    }
    if P < Q {
      hide *;
      assert Q == P + Q[|P|..];
      PairFurther(a, b, P, Q[|P|..]);
      PairReaches(p.0, p.1, Q[|P|..], q);
      NotInside(a, b, P, p, Q[|P|..]);
    }
  }

  /** The two rounds at the fork. */
  lemma ForkRounds(h0: Heap, ks: map<Dict, string>, j: string, k: string, s: (View, View), depth: nat)
    requires Closed(h0) && ShowsIn(h0, s.0) && ShowsIn(h0, s.1) && s.0.Node? && s.1.Node?
    requires j != k && j in s.1.kids && k in s.1.kids
    requires Within(h0, ItemOf(s.0)) && s.1.dict in h0 && Run(h0, Fork(ks, s.1.dict, j, k), ItemOf(s.0), s.1.dict, depth).1
    ensures depth > 0 && s.0.dict in h0 && j in h0[s.1.dict]
    ensures
      var r := RunKey(h0, Fork(ks, s.1.dict, j, k), s.0.dict, s.1.dict, j, depth);
      r.1 && k in r.0[s.1.dict] && RunKey(r.0, Fork(ks, s.1.dict, j, k), s.0.dict, s.1.dict, k, depth).1
  {
    hide *;
    ShownKeySet(h0, s.0);
    ShownKeySet(h0, s.1);
    ItemIsTable(s.0);
    var order, all := Fork(ks, s.1.dict, j, k), h0[s.1.dict].Keys;
    ForkTwo(ks, s.1.dict, j, k, all);
    var keys := Listed(order, s.1.dict, all);
    RoundOne(h0, order, s.0, s.1.dict, depth, j);
    var r := RunKey(h0, order, s.0.dict, s.1.dict, j, depth);
    OneMoreKey(r.0, order, s.0.dict, s.1.dict, keys[1..], all, depth);
  }

  lemma ShownEntry(h: Heap, v: View, k: string)
    requires ShowsIn(h, v) && v.Node? && k in v.kids
    ensures v.dict in h && k in h[v.dict] && h[v.dict][k] == ItemOf(v.kids[k])
  {
    assert k in EntriesOf(v);
  }

  /** The round over the branch merges all that is below it. */
  lemma BranchMerges(h0: Heap, order: Order, a: View, b: View, n: nat, fork: Path, j: string, s: (View, View), depth: nat)
    requires Setting(h0, a, b) && Orderly(order) && Deep(b, n) && PairAt(a, b, fork) == Some(s) && s.0.Node? && depth > 0
    requires ShowsIn(h0, s.0) && ShowsIn(h0, s.1) && PairAt(a, b, fork + [j]).Some?
    requires s.1.Node? && j in s.0.kids && j in s.1.kids && s.1.kids[j].Node? && s.1.dict in h0 && j in h0[s.1.dict]
    requires Closed(h0) && s.0.dict in h0 && RunKey(h0, order, s.0.dict, s.1.dict, j, depth).1
    ensures After(h0, RunKey(h0, order, s.0.dict, s.1.dict, j, depth).0, a, b, fork + [j])
  {
    hide *;
    var x, y, beta := s.0.kids[j], s.1.kids[j], fork + [j];
    ShownEntry(h0, s.0, j);
    ShownEntry(h0, s.1, j);
    PairBelow(a, b, fork, j);
    ItemIsTable(y);
    KeyMerges(h0, order, s.0.dict, s.1.dict, j, depth);
    BranchRun(h0, order, a, b, n, beta, (x, y), depth - 1);
  }

  lemma BranchRun(h0: Heap, order: Order, a: View, b: View, n: nat, beta: Path, q: (View, View), depth: nat)
    requires Setting(h0, a, b) && Orderly(order) && Deep(b, n) && PairAt(a, b, beta) == Some(q)
    requires Closed(h0) && Within(h0, ItemOf(q.0)) && q.1.dict in h0 && Run(h0, order, ItemOf(q.0), q.1.dict, depth).1
    ensures After(h0, Run(h0, order, ItemOf(q.0), q.1.dict, depth).0, a, b, beta)
  {
    hide *;
    var more := depth + 2 * n;
    RunMore(h0, order, ItemOf(q.0), q.1.dict, depth, more);
    BranchStarts(h0, a, b, n, beta, q);
    Visit(h0, h0, order, a, b, n, beta, q, n, more);
    BranchComes(h0, Run(h0, order, ItemOf(q.0), q.1.dict, more), a, b, beta, q);
  }

  lemma BranchStarts(h0: Heap, a: View, b: View, n: nat, beta: Path, q: (View, View))
    requires Setting(h0, a, b) && Deep(b, n) && PairAt(a, b, beta) == Some(q)
    ensures Mid(h0, h0, a, b) && Changed(h0, h0, Outside(a, b, beta)) && Told(h0, h0, a, b, beta) && Entered(h0, a, b, beta)
    ensures Deep(q.1, n)
  {
    NothingYet(h0, a, b, beta);
    hide *;
    FirstVisit(h0, a, b);
    PairIsSeen(a, b, beta);
    DeepPart(b, q.1, n);
    EnteredShown(h0, a, b, beta);
  }

  lemma NothingYet(h0: Heap, a: View, b: View, beta: Path)
    requires PairAt(a, b, beta).Some?
    ensures Changed(h0, h0, Outside(a, b, beta)) && Told(h0, h0, a, b, beta)
  {
    hide PairAt, Outside, Passed;
  }

  lemma EnteredShown(h0: Heap, a: View, b: View, beta: Path)
    requires Setting(h0, a, b) && PairAt(a, b, beta).Some?
    ensures Entered(h0, a, b, beta)
  {
    if beta != [] {
      var A, k := beta[..|beta| - 1], beta[|beta| - 1];
      assert A < beta && beta[|A|] == k;
      SettingShows(h0, a, b);
      hide *;
      PairOnPath(a, b, A, beta);
      var u := PairAt(a, b, A).value;
      PairIsSeen(a, b, A);
      SubsShownIn(h0, b, u.1);
      TableShown(h0, u.1, k);
      EnteredFrom(h0, a, b, beta);
    }
  }

  lemma SettingShows(h0: Heap, a: View, b: View)
    requires Setting(h0, a, b)
    ensures ShowsIn(h0, b)
  {
    hide Harmless, ReadsWell, ShowsIn;
  }

  lemma TableShown(h: Heap, v: View, k: string)
    requires ShowsIn(h, v) && v.Node? && k in v.kids && v.kids[k].Node?
    ensures v.dict in h && k in h[v.dict] && h[v.dict][k].Table?
  {
    assert k in EntriesOf(v);
  }

  lemma EnteredFrom(h: Heap, a: View, b: View, Q: Path)
    requires Q != [] && PairAt(a, b, Q[..|Q| - 1]).Some?
    requires var r, k := PairAt(a, b, Q[..|Q| - 1]).value, Q[|Q| - 1]; r.1.dict in h && k in h[r.1.dict] && h[r.1.dict][k].Table?
    ensures Entered(h, a, b, Q)
  {
    hide PairAt;
  }

  lemma BranchComes(h0: Heap, r: (Heap, bool), a: View, b: View, beta: Path, q: (View, View))
    requires Setting(h0, a, b) && PairAt(a, b, beta) == Some(q) && r.1 && Comes(h0, h0, r, a, b, q)
    ensures After(h0, r.0, a, b, beta)
  {
    hide Setting, PairAt, Mid, Advance, Changed, Pairs, Overridden, Mergeable, PairDone, Passable;
  }

  lemma RightIsRun(h0: Heap, order: Order, a: View, b: View, depth: nat)
    requires Given(h0, a, b) && Orderly(order)
    ensures Closed(h0) && Within(h0, ItemOf(a)) && b.dict in h0
    ensures Right(h0, order, a, b, depth) ==> Run(h0, order, ItemOf(a), b.dict, depth).1
  {
  }

  lemma SettingOf(h0: Heap, a: View, b: View)
    requires Given(h0, a, b) && Harmless(a, b) && ReadsWell(a, b)
    ensures Setting(h0, a, b)
  {
    hide Harmless, ReadsWell;
  }

  /** Settings that meet a scalar and are given keys first. */
  lemma ForkWrong(h0: Heap, a: View, b: View, n: nat, fork: Path, j: string, P: Path, p: (View, View), Q: Path, q: (View, View),
                  s: (View, View), depth: nat)
    requires Given(h0, a, b) && Mergeable(a, b) && Harmless(a, b) && ReadsWell(a, b) && Deep(b, n)
    requires PairAt(a, b, P) == Some(p) && PairAt(a, b, Q) == Some(q) && Leaves(fork + [j], Q) && fork + [j] <= P
    requires p.0 == q.1 && p.0.Node? && q.0.Leaf? && Merge(p.0, p.1).kids != map[] && !Overruled(a, b, fork + [j], Q)
    requires fork < Q && j != Q[|fork|] && PairAt(a, b, fork) == Some(s) && s.1.Node?
    ensures Closed(h0) && Within(h0, ItemOf(a)) && b.dict in h0
    ensures !Right(h0, Fork(Along(b, Q), s.1.dict, j, Q[|fork|]), a, b, depth)
  {
    hide *;
    var ks, k, beta := Along(b, Q), Q[|fork|], fork + [j];
    var order := Fork(ks, s.1.dict, j, k);
    GivenFacts(h0, a, b);
    SettingOf(h0, a, b);
    RightIsRun(h0, order, a, b, depth);
    if Right(h0, order, a, b, depth) {
      PairOnPath(a, b, fork, Q);
      PairOnPath(a, b, beta, P);
      OnBranch(a, b, fork, j, P);
      ForkOrder(h0, a, b, fork, j, Q, s);
      var d := ReachFirst(h0, order, a, b, depth, fork, s);
      ForkRounds(h0, ks, j, k, s, d);
      BranchMerges(h0, order, a, b, n, fork, j, s, d);
      var h := RunKey(h0, order, s.0.dict, s.1.dict, j, d).0;
      ScalarMet(h0, h, a, b, beta, P, p, q);
      WayFails(h0, h, order, a, b, beta, Q, q, fork, s, d);
    }
  }

  /** The order leads to the fork, and on from there. */
  lemma ForkOrder(h0: Heap, a: View, b: View, fork: Path, j: string, Q: Path, s: (View, View))
    requires ShowsIn(h0, b) && fork < Q && j != Q[|fork|] && PairAt(a, b, fork) == Some(s) && s.1.Node? && Q[|fork|] in s.1.kids
    ensures
      var order := Fork(Along(b, Q), s.1.dict, j, Q[|fork|]);
      Leads(order, b, fork) && Leads(order, s.1.kids[Q[|fork|]], Q[|fork| + 1..])
  {
    hide *;
    var ks, k, rest := Along(b, Q), Q[|fork|], Q[|fork|..];
    AlongFollows(h0, b, Q);
    PairReaches(a, b, fork, s);
    assert Q == fork + rest && rest[0] == k && rest[1..] == Q[|fork| + 1..];
    FollowsFar(ks, b, fork, rest);
    FollowsStart(ks, b, fork, rest);
    FollowsHead(ks, s.1, rest);
    ReachedShown(h0, b, fork, s.1);
    NotOwnPart(h0, s.1, k);
    ForkLeads(h0, ks, s.1, j, k, b, fork);
    ForkLeadsOn(ks, s.1.dict, j, k, s.1.kids[k], Q[|fork| + 1..]);
  }

  lemma {:induction false} FollowsStart(ks: map<Dict, string>, v: View, Q: Path, R: Path)
    requires Follows(ks, v, Q + R)
    ensures Follows(ks, v, Q)
    decreases |Q|
  {
    if Q != [] {
      assert (Q + R)[0] == Q[0] && (Q + R)[1..] == Q[1..] + R;
      if v.Node? && Q[0] in v.kids { FollowsStart(ks, v.kids[Q[0]], Q[1..], R); }
    }
  }

  lemma ReachedShown(h: Heap, v: View, R: Path, s: View)
    requires ShowsIn(h, v) && Reached(v, R) == Some(s) && s.Node?
    ensures ShowsIn(h, s)
  {
    ReachedPart(v, R, s);
    SubsShownIn(h, v, s);
  }

  lemma OnBranch(a: View, b: View, fork: Path, j: string, P: Path)
    requires PairAt(a, b, P).Some? && fork + [j] <= P
    ensures PairAt(a, b, fork).Some?
    ensures var s := PairAt(a, b, fork).value; s.0.Node? && j in s.0.kids && j in s.1.kids && s.1.kids[j].Node?
  {
    assert fork < P && P[|fork|] == j;
    PairOnPath(a, b, fork, P);
  }

  lemma ScalarMet(h0: Heap, h: Heap, a: View, b: View, beta: Path, P: Path, p: (View, View), q: (View, View))
    requires After(h0, h, a, b, beta) && PairAt(a, b, P) == Some(p) && beta <= P && p.0 == q.1 && p.0.Node?
    requires Merge(p.0, p.1).kids != map[]
    ensures q.1.Node? && q.1.dict in h && h[q.1.dict] != map[]
  {
    hide *;
    assert P == beta + P[|beta|..];
    OnBranchPair(a, b, beta, P, p);
    BranchDone(h, h0, a, b, beta, p);
    DoneKeys(h, p);
  }

  lemma OnBranchPair(a: View, b: View, beta: Path, P: Path, p: (View, View))
    requires PairAt(a, b, P) == Some(p) && beta <= P && p.0.Node?
    ensures PairAt(a, b, beta).Some? && p in Pairs(PairAt(a, b, beta).value.0, PairAt(a, b, beta).value.1)
  {
    hide Pairs, PairAt;
    var R := P[|beta|..];
    assert P == beta + R;
    PairOnPath(a, b, beta, P);
    PairFurther(a, b, beta, R);
    PairIsSeen(PairAt(a, b, beta).value.0, PairAt(a, b, beta).value.1, R);
  }

  lemma DoneKeys(h: Heap, p: (View, View))
    requires PairDone(h, p) && Merge(p.0, p.1).kids != map[]
    ensures p.0.dict in h && h[p.0.dict] != map[]
  {
    var m := Merge(p.0, p.1);
    hide Merge;
    assert EntriesOf(m).Keys == m.kids.Keys;
    assert m.kids.Keys != {};
  }

  lemma BranchFork(beta: Path, Q: Path) returns (fork: Path, j: string)
    requires Leaves(beta, Q)
    ensures beta == fork + [j] && fork < Q && j != Q[|fork|]
  {
    fork, j := beta[..|beta| - 1], beta[|beta| - 1];
    assert fork <= Q && |fork| < |Q|;
    assert Q[..|beta|] == Q[..|fork|] + [Q[|fork|]];
  }

  lemma SomeScalar(a: View, b: View) returns (P: Path, p: (View, View), Q: Path, q: (View, View))
    requires !ScalarsRead(a, b)
    ensures PairAt(a, b, P) == Some(p) && PairAt(a, b, Q) == Some(q) && Rewrites(p, q) && q.0.Leaf?
    ensures Merge(p.0, p.1).kids != map[] && !Overruled(a, b, Branch(P, Q), Q)
  {
    hide Merge, PairAt, Overruled;
    P, Q :| PairAt(a, b, P).Some? && PairAt(a, b, Q).Some? &&
      !ScalarReadAt(a, b, P, PairAt(a, b, P).value, Q, PairAt(a, b, Q).value);
    p, q := PairAt(a, b, P).value, PairAt(a, b, Q).value;
  }

  lemma ScalarWrong(h0: Heap, a: View, b: View, n: nat) returns (order: Order)
    requires Given(h0, a, b) && Mergeable(a, b) && Harmless(a, b) && ReadsWell(a, b) && Deep(b, n) && !ScalarsRead(a, b)
    ensures Orderly(order) && Closed(h0) && Within(h0, ItemOf(a)) && b.dict in h0
    ensures forall depth: nat :: !Right(h0, order, a, b, depth)
  {
    hide *;
    GivenFacts(h0, a, b);
    var P, p, Q, q := SomeScalar(a, b);
    RewritesNode(p, q);
    SharedPair(h0, a, b, P, p, Q, q);
    WayParts(a, b, P, p, Q, q);
    BranchLeaves(P, Q);
    var fork, j := BranchFork(Branch(P, Q), Q);
    PairOnPath(a, b, fork, Q);
    var s := PairAt(a, b, fork).value;
    order := Fork(Along(b, Q), s.1.dict, j, Q[|fork|]);
    forall depth: nat ensures !Right(h0, order, a, b, depth) {
      ForkWrong(h0, a, b, n, fork, j, P, p, Q, q, s, depth);
    }
  }

  lemma RewritesNode(p: (View, View), q: (View, View))
    requires Rewrites(p, q)
    ensures p.0.Node?
  {
  }

  /** Without the condition some order of the keys fails or leaves another configuration, whatever the recursion limit. */
  lemma UnsafeOrder(h0: Heap, a: View, b: View, n: nat) returns (order: Order)
    requires Given(h0, a, b) && Deep(b, n) && !Safe(a, b)
    ensures Orderly(order) && Closed(h0) && Within(h0, ItemOf(a)) && b.dict in h0
    ensures forall depth: nat :: !Right(h0, order, a, b, depth)
  {
    hide Mergeable, Harmless, ReadsWell, ScalarsRead, Given, Deep, Right, Run;
    if Mergeable(a, b) && Harmless(a, b) && ReadsWell(a, b) {
      order := ScalarWrong(h0, a, b, n);
    } else {
      order := WrongOrder(h0, a, b);
    }
  }

  /** The merge succeeds and leaves the merged configuration in every order of the keys exactly under the condition. */
  lemma RightIffSafe(h0: Heap, a: View, b: View, n: nat, depth: nat)
    requires Given(h0, a, b) && Deep(b, n) && depth >= 2 * n
    ensures Closed(h0) && Within(h0, ItemOf(a)) && b.dict in h0
    ensures Safe(a, b) <==> forall order: Order :: Orderly(order) ==> Right(h0, order, a, b, depth)
  {
    hide Safe, Run, ShowsIn, Orderly, Deep;
    GivenFacts(h0, a, b);
    if Safe(a, b) {
      forall order: Order | Orderly(order)
        ensures Right(h0, order, a, b, depth)
      {
        SafeMerge(h0, order, a, b, n, depth);
      }
    } else {
      var order := UnsafeOrder(h0, a, b, n);
      assert !Right(h0, order, a, b, depth);
    }
  }

  // ----- Sharing that is harmless and still read wrong

  /** Defaults {x: {}, y: D} with the definition D = {p: 0}. */
  function SharedDefaults(head: Dict, empty: Dict, definition: Dict): View {
    Node(head, map["x" := Node(empty, map[]), "y" := Node(definition, map["p" := Leaf(Other(0))])])
  }

  /** A service with {x: D, y: {q: 1}}. */
  function SharingService(head: Dict, definition: Dict, own: Dict): View {
    Node(head, map["x" := Node(definition, map["p" := Leaf(Other(0))]), "y" := Node(own, map["q" := Leaf(Other(1))])])
  }

  /** Some heap could show the merged configuration, but taking y before x gives the key q to x as well. */
  lemma HarmlessYetWrong(one: Dict, two: Dict, empty: Dict, definition: Dict, own: Dict) returns (h0: Heap, order: Order)
    requires one != two && one != empty && one != definition && one != own && two != empty && two != definition && two != own
    requires empty != definition && empty != own && definition != own
    ensures
      var a, b := SharedDefaults(one, empty, definition), SharingService(two, definition, own);
      Given(h0, a, b) && Orderly(order) && Mergeable(a, b) && Harmless(a, b) &&
      Closed(h0) && Within(h0, ItemOf(a)) && b.dict in h0 && forall depth: nat :: !Right(h0, order, a, b, depth)
  {
    var a, b := SharedDefaults(one, empty, definition), SharingService(two, definition, own);
    h0 := map[one := EntriesOf(a), two := EntriesOf(b), empty := map[], definition := EntriesOf(a.kids["y"]),
      own := EntriesOf(b.kids["y"])];
    ExampleGiven(h0, one, two, empty, definition, own);
    ExampleHarmless(one, two, empty, definition, own);
    ExampleMisread(one, two, empty, definition, own);
    hide *;
    order := WrongOrder(h0, a, b);
  }

  lemma ExampleGiven(h0: Heap, one: Dict, two: Dict, empty: Dict, definition: Dict, own: Dict)
    requires one != two && one != empty && one != definition && one != own && two != empty && two != definition && two != own
    requires empty != definition && empty != own && definition != own
    requires
      var a, b := SharedDefaults(one, empty, definition), SharingService(two, definition, own);
      h0 == map[one := EntriesOf(a), two := EntriesOf(b), empty := map[], definition := EntriesOf(a.kids["y"]),
        own := EntriesOf(b.kids["y"])]
    ensures Given(h0, SharedDefaults(one, empty, definition), SharingService(two, definition, own))
  {
    var a, b := SharedDefaults(one, empty, definition), SharingService(two, definition, own);
    assert EntriesOf(a.kids["x"]) == map[] && a.kids["y"] == b.kids["x"];
    assert ShowsIn(h0, a.kids["x"]) && ShowsIn(h0, a.kids["y"]) && ShowsIn(h0, b.kids["y"]);
  }

  lemma ExampleKids(one: Dict, two: Dict, empty: Dict, definition: Dict, own: Dict)
    ensures
      var a, b := SharedDefaults(one, empty, definition), SharingService(two, definition, own);
      var p, q := (a.kids["y"], b.kids["y"]), (a.kids["x"], b.kids["x"]);
      && Pairs(p.0, p.1) == {p} && Pairs(q.0, q.1) == {q} && Kept(p.0, p.1) == Kept(q.0, q.1) == {}
      && Mergeable(p.0, p.1) && Mergeable(q.0, q.1)
  {
    var a, b := SharedDefaults(one, empty, definition), SharingService(two, definition, own);
    assert a.kids["x"].kids.Keys == {} && a.kids["y"].kids.Keys == {"p"} && b.kids["y"].kids.Keys == {"q"} && b.kids["x"].kids.Keys == {"p"};
  }

  lemma ExampleHarmless(one: Dict, two: Dict, empty: Dict, definition: Dict, own: Dict)
    requires one != empty && one != definition && empty != definition
    ensures
      var a, b := SharedDefaults(one, empty, definition), SharingService(two, definition, own);
      Mergeable(a, b) && Harmless(a, b)
  {
    var a, b := SharedDefaults(one, empty, definition), SharingService(two, definition, own);
    var p, q := (a.kids["y"], b.kids["y"]), (a.kids["x"], b.kids["x"]);
    ExampleKids(one, two, empty, definition, own);
    assert a.kids.Keys == {"x", "y"} == b.kids.Keys;
    assert OnlyIn(a, b) == {} == OnlyIn(b, a);
    assert Kept(a, b) == {};
    forall r | r in Pairs(a, b)
      ensures r == (a, b) || r == p || r == q
    {
    }
    assert KidMergeable(a, b, "x") && KidMergeable(a, b, "y");
    hide Merge, Pairs, Kept;
  }

  lemma ExampleMisread(one: Dict, two: Dict, empty: Dict, definition: Dict, own: Dict)
    ensures !ReadsWell(SharedDefaults(one, empty, definition), SharingService(two, definition, own))
  {
    var a, b := SharedDefaults(one, empty, definition), SharingService(two, definition, own);
    var p, q := (a.kids["y"], b.kids["y"]), (a.kids["x"], b.kids["x"]);
    assert PairAt(a, b, ["y"]) == Some(p) && PairAt(a, b, ["x"]) == Some(q);
    var m := Merge(p.0, p.1);
    assert "q" in m.kids && "q" !in p.0.kids;
    assert "q" !in Merge(q.0, q.1).kids;
    assert !SameAt(q, m, "q");
    assert !ReadsWellAt(["y"], p, ["x"], q);
  }
}
