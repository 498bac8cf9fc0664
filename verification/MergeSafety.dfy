/** When merging shared dictionaries gives the merged configuration, in whatever order keys are visited. */
module MergeSafety {
  import opened RetryConfigs
  import opened RetryConfigSharing
  import opened MergeRuns
  import opened Results

  // ----- What a heap shows

  ghost predicate ShowsIn(h: Heap, v: View) {
    v.Node? ==> v.dict in h && h[v.dict] == EntriesOf(v) && forall k :: k in v.kids ==> ShowsIn(h, v.kids[k])
  }

  lemma {:induction false} SubsShownIn(h: Heap, v: View, s: View)
    requires ShowsIn(h, v) && s in Subs(v)
    ensures s.Node? && ShowsIn(h, s)
    decreases v
  {
    if s != v {
      var k :| k in v.kids && s in Subs(v.kids[k]);
      SubsShownIn(h, v.kids[k], s);
    }
  }

  lemma {:induction false} EachShown(h: Heap, v: View)
    requires forall s :: s in Subs(v) ==> s.Node? && s.dict in h && h[s.dict] == EntriesOf(s)
    ensures ShowsIn(h, v)
    decreases v
  {
    if v.Node? {
      assert v in Subs(v);
      forall k | k in v.kids
        ensures ShowsIn(h, v.kids[k])
      {
        assert Subs(v.kids[k]) <= Subs(v);
        EachShown(h, v.kids[k]);
      }
    }
  }

  lemma {:induction false} OneViewIn(h: Heap, v: View, w: View)
    requires ShowsIn(h, v) && ShowsIn(h, w) && ItemOf(v) == ItemOf(w)
    ensures v == w
    decreases v
  {
    if v.Node? {
      assert v.kids.Keys == EntriesOf(v).Keys == EntriesOf(w).Keys == w.kids.Keys;
      forall k | k in v.kids
        ensures v.kids[k] == w.kids[k]
      {
        assert EntriesOf(v)[k] == EntriesOf(w)[k];
        OneViewIn(h, v.kids[k], w.kids[k]);
      }
      assert v.kids == w.kids;
    }
  }

  lemma AgreeIn(h: Heap, v: View, w: View)
    requires ShowsIn(h, v) && ShowsIn(h, w)
    ensures Agree(Subs(v), Subs(w))
  {
    forall s, t | s in Subs(v) && t in Subs(w) && ItemOf(s) == ItemOf(t)
      ensures s == t
    {
      SubsShownIn(h, v, s);
      SubsShownIn(h, w, t);
      OneViewIn(h, s, t);
    }
  }

  // ----- Merges that change nothing

  lemma {:induction false} MergeSelf(v: View)
    ensures Merge(v, v) == v && Mergeable(v, v)
  {
    if v.Node? {
      forall k | k in v.kids
        ensures MergedKid(v, v, k) == v.kids[k] && KidMergeable(v, v, k)
      {
        MergeSelf(v.kids[k]);
      }
      assert Merge(v, v).kids == v.kids;
    }
  }

  lemma KidsKept(x: View, y: View, k: string)
    requires x.Node? && y.Node? && Merge(x, y) == x && k in y.kids
    ensures k in x.kids && MergedKid(x, y, k) == x.kids[k]
  {
    MergedAt(x, y, k);
  }

  /** The recursion limit is not met below the view. */
  ghost predicate Deep(v: View, depth: nat) {
    v.Node? ==> depth > 0 && forall k :: k in v.kids ==> Deep(v.kids[k], depth - 1)
  }

  lemma {:induction false} Deeper(v: View, one: nat, more: nat)
    requires Deep(v, one) && one <= more
    ensures Deep(v, more)
    decreases v
  {
    if v.Node? {
      forall k | k in v.kids { Deeper(v.kids[k], one - 1, more - 1); }
    }
  }

  lemma {:induction false} DeepPart(v: View, s: View, depth: nat)
    requires Deep(v, depth) && s in Subs(v)
    ensures Deep(s, depth)
    decreases v
  {
    if s != v {
      var k :| k in v.kids && s in Subs(v.kids[k]);
      DeepPart(v.kids[k], s, depth - 1);
      Deeper(s, depth - 1, depth);
    }
  }

  lemma {:induction false} QuietRun(h: Heap, order: Order, x: View, y: View, depth: nat)
    requires Closed(h) && Orderly(order) && ShowsIn(h, x) && ShowsIn(h, y) && y.Node?
    requires Merge(x, y) == x && Mergeable(x, y) && Deep(y, depth)
    ensures Run(h, order, ItemOf(x), y.dict, depth) == (h, true)
    decreases y, 1, 0
  {
    if x.Node? {
      assert Lists(Listed(order, y.dict, h[y.dict].Keys), h[y.dict].Keys);
      QuietKeys(h, order, x, y, Listed(order, y.dict, h[y.dict].Keys), depth);
    }
  }

  lemma {:induction false} QuietKeys(h: Heap, order: Order, x: View, y: View, keys: seq<string>, depth: nat)
    requires Closed(h) && Orderly(order) && ShowsIn(h, x) && ShowsIn(h, y) && x.Node? && y.Node?
    requires Merge(x, y) == x && Mergeable(x, y) && Deep(y, depth) && forall i :: 0 <= i < |keys| ==> keys[i] in y.kids
    ensures RunKeys(h, order, x.dict, y.dict, keys, h[y.dict].Keys, depth) == (h, true)
    decreases y, 0, |keys|
  {
    if keys != [] {
      QuietKey(h, order, x, y, keys[0], depth);
      QuietKeys(h, order, x, y, keys[1..], depth);
    }
  }

  lemma {:induction false} QuietKey(h: Heap, order: Order, x: View, y: View, k: string, depth: nat)
    requires Closed(h) && Orderly(order) && ShowsIn(h, x) && ShowsIn(h, y) && x.Node? && y.Node?
    requires Merge(x, y) == x && Mergeable(x, y) && Deep(y, depth) && k in y.kids
    ensures RunKey(h, order, x.dict, y.dict, k, depth) == (h, true)
    decreases y, 0, 0
  {
    KidsKept(x, y, k);
    assert KidMergeable(x, y, k);
    if y.kids[k].Node? {
      QuietRun(h, order, x.kids[k], y.kids[k], depth - 1);
    } else {
      assert h[x.dict][k := ItemOf(y.kids[k])] == h[x.dict];
      assert h[x.dict := h[x.dict]] == h;
    }
  }

  // ----- The condition

  /** The keys that lead from two configurations to two of their parts. */
  type Path = seq<string>

  /** The settings that meet the dictionary or scalar of `a` at a path. */
  function PairAt(a: View, b: View, path: Path): (p: Option<(View, View)>)
    ensures p.Some? ==> p.value.1.Node?
    decreases |path|
  {
    if b.Leaf? then None
    else if path == [] then Some((a, b))
    else if a.Leaf? || path[0] !in a.kids || path[0] !in b.kids then None
    else PairAt(a.kids[path[0]], b.kids[path[0]], path[1..])
  }

  /** Laying this key of other settings over the merged pair would change nothing. */
  predicate SameAt(q: (View, View), m: View, k: string)
    requires q.0.Node? && q.1.Node? && m.Node? && k in m.kids
  {
    var w := Merge(q.0, q.1);
    k in w.kids && MergedKid(w, m, k) == w.kids[k] && KidMergeable(w, m, k)
  }

  /** The loop over the settings of q runs while one of its own rounds makes them m: under key k the old ones were read. */
  predicate ReadsWhile(q: (View, View), m: View, k: string)
    requires q.0.Node? && q.1.Node? && m.Node?
  {
    m.kids.Keys == q.1.kids.Keys && forall j :: j in m.kids && j != k ==> SameAt(q, m, j)
  }

  /** The settings of q are dictionaries that the pair p really changes. */
  predicate Rewrites(p: (View, View), q: (View, View)) {
    p.0.Node? && p.1.Node? && q.1.Node? && p.0.dict == q.1.dict && Changes(p)
  }

  predicate ReadsWellAt(P: Path, p: (View, View), Q: Path, q: (View, View)) {
    Rewrites(p, q) && q.0.Node? ==>
      var m := Merge(p.0, p.1);
      if Q < P then ReadsWhile(q, m, P[|Q|]) else forall k :: k in m.kids ==> SameAt(q, m, k)
  }

  /** Where settings are read that the merge changes elsewhere, the change does not matter. */
  ghost predicate ReadsWell(a: View, b: View) {
    forall P, Q {:trigger PairAt(a, b, P), PairAt(a, b, Q)} ::
      P != Q && PairAt(a, b, P).Some? && PairAt(a, b, Q).Some? ==> ReadsWellAt(P, PairAt(a, b, P).value, Q, PairAt(a, b, Q).value)
  }

  /** The first step of P off the path Q. */
  function Branch(P: Path, Q: Path): Path
    decreases |P|
  {
    if P == [] then []
    else if Q == [] || P[0] != Q[0] then [P[0]]
    else [P[0]] + Branch(P[1..], Q[1..])
  }

  /** The pair lets a scalar take the place of the settings' entry under the key. */
  predicate Overrules(p: (View, View), settings: View, k: string) {
    && p.0.Node? && p.1.Node? && settings.Node? && p.0.dict == settings.dict
    && k in Merge(p.0, p.1).kids && Merge(p.0, p.1).kids[k].Leaf?
  }

  /** Below a path there is such a pair for the entry that leads to Q. */
  ghost predicate Overruled(a: View, b: View, beta: Path, Q: Path) {
    Q != [] && PairAt(a, b, Q[..|Q| - 1]).Some? &&
    exists P {:trigger PairAt(a, b, P)} ::
      beta <= P && PairAt(a, b, P).Some? && Overrules(PairAt(a, b, P).value, PairAt(a, b, Q[..|Q| - 1]).value.1, Q[|Q| - 1])
  }

  /** Settings that meet a scalar are not given keys elsewhere, unless they themselves are overruled there. */
  ghost predicate ScalarsRead(a: View, b: View) {
    forall P, Q {:trigger PairAt(a, b, P), PairAt(a, b, Q)} ::
      PairAt(a, b, P).Some? && PairAt(a, b, Q).Some? ==>
        ScalarReadAt(a, b, P, PairAt(a, b, P).value, Q, PairAt(a, b, Q).value)
  }

  ghost predicate ScalarReadAt(a: View, b: View, P: Path, p: (View, View), Q: Path, q: (View, View)) {
    Rewrites(p, q) && q.0.Leaf? ==> Merge(p.0, p.1).kids == map[] || Overruled(a, b, Branch(P, Q), Q)
  }

  /** The merge gives the merged configuration whatever the order of the keys. */
  ghost predicate Safe(a: View, b: View) {
    Mergeable(a, b) && Harmless(a, b) && ReadsWell(a, b) && ScalarsRead(a, b)
  }

  // ----- Pairs at paths

  lemma {:induction false} PairFurther(a: View, b: View, Q: Path, R: Path)
    requires PairAt(a, b, Q).Some?
    ensures PairAt(a, b, Q + R) == PairAt(PairAt(a, b, Q).value.0, PairAt(a, b, Q).value.1, R)
    decreases |Q|
  {
    if Q == [] {
      assert Q + R == R;
    } else {
      assert (Q + R)[0] == Q[0] && (Q + R)[1..] == Q[1..] + R;
      PairFurther(a.kids[Q[0]], b.kids[Q[0]], Q[1..], R);
    }
  }

  lemma PairBelow(a: View, b: View, Q: Path, k: string)
    requires PairAt(a, b, Q).Some?
    requires var q := PairAt(a, b, Q).value;
      q.0.Node? && k in q.0.kids && k in q.1.kids && q.1.kids[k].Node?
    ensures var q := PairAt(a, b, Q).value;
      PairAt(a, b, Q + [k]) == Some((q.0.kids[k], q.1.kids[k]))
  {
    PairFurther(a, b, Q, [k]);
    var q := PairAt(a, b, Q).value;
    assert PairAt(q.0.kids[k], q.1.kids[k], [k][1..]) == Some((q.0.kids[k], q.1.kids[k]));
  }

  lemma {:induction false} PairIsSeen(a: View, b: View, Q: Path)
    requires PairAt(a, b, Q).Some?
    ensures var q := PairAt(a, b, Q).value;
      && q.1 in Subs(b)
      && (q.0.Node? ==> q in Pairs(a, b) && q.0 in Subs(a) && Pairs(q.0, q.1) <= Pairs(a, b) && Kept(q.0, q.1) <= Kept(a, b))
      && (Mergeable(a, b) ==> Mergeable(q.0, q.1))
    decreases |Q|
  {
    if Q != [] {
      var k := Q[0];
      PairIsSeen(a.kids[k], b.kids[k], Q[1..]);
      assert Mergeable(a, b) ==> KidMergeable(a, b, k);
    }
  }

  lemma {:induction false} PairHasPath(a: View, b: View, p: (View, View)) returns (P: Path)
    requires p in Pairs(a, b)
    ensures PairAt(a, b, P) == Some(p) && p.0.Node?
    decreases b
  {
    if p == (a, b) {
      P := [];
    } else {
      var k :| k in a.kids && k in b.kids && p in Pairs(a.kids[k], b.kids[k]);
      var R := PairHasPath(a.kids[k], b.kids[k], p);
      P := [k] + R;
    }
  }

  lemma {:induction false} OverriddenHasPair(a: View, b: View, d: Dict) returns (p: (View, View))
    requires d in Overridden(a, b)
    ensures p in Pairs(a, b) && p.0.Node? && p.1.Node? && p.0.dict == d
    decreases b
  {
    if d == a.dict {
      p := (a, b);
    } else {
      var k :| k in a.kids && k in b.kids && d in Overridden(a.kids[k], b.kids[k]);
      p := OverriddenHasPair(a.kids[k], b.kids[k], d);
    }
  }

  lemma {:induction false} PairIsOverridden(a: View, b: View, p: (View, View))
    requires p in Pairs(a, b)
    ensures p.0.Node? && p.1.Node? && p.0.dict in Overridden(a, b)
    decreases b
  {
    if p != (a, b) {
      var k :| k in a.kids && k in b.kids && p in Pairs(a.kids[k], b.kids[k]);
      PairIsOverridden(a.kids[k], b.kids[k], p);
    }
  }

  /** What the merge writes into outside the subtree at a path. */
  ghost function Outside(a: View, b: View, Q: Path): set<Dict>
    requires PairAt(a, b, Q).Some?
    decreases |Q|
  {
    if Q == [] then {}
    else {a.dict} + Below((a, b), (a.kids.Keys * b.kids.Keys) - {Q[0]}) + Outside(a.kids[Q[0]], b.kids[Q[0]], Q[1..])
  }

  /** What the merge writes into below some keys of a pair. */
  ghost function Below(q: (View, View), keys: set<string>): set<Dict>
    requires q.0.Node? && q.1.Node?
  {
    set k, d | k in keys && k in q.0.kids && k in q.1.kids && d in Overridden(q.0.kids[k], q.1.kids[k]) :: d
  }

  lemma PrefixTail(Q: Path, R: Path)
    requires Q != []
    ensures Q <= [Q[0]] + R <==> Q[1..] <= R
  {
    assert Q == [Q[0]] + Q[1..];
    if Q[1..] <= R {
      assert ([Q[0]] + R)[..|Q|] == [Q[0]] + R[..|Q| - 1];
    }
    if Q <= [Q[0]] + R {
      assert R[..|Q| - 1] == ([Q[0]] + R)[1..|Q|];
    }
  }

  lemma {:induction false} OutsideHasPath(a: View, b: View, Q: Path, d: Dict) returns (P: Path)
    requires PairAt(a, b, Q).Some? && d in Outside(a, b, Q)
    ensures !(Q <= P) && PairAt(a, b, P).Some?
    ensures var p := PairAt(a, b, P).value; p.0.Node? && p.0.dict == d
    decreases |Q|
  {
    var k := Q[0];
    if d == a.dict {
      P := [];
    } else if d in Outside(a.kids[k], b.kids[k], Q[1..]) {
      var R := OutsideHasPath(a.kids[k], b.kids[k], Q[1..], d);
      P := [k] + R;
      PrefixTail(Q, R);
    } else {
      var j :| j in a.kids && j in b.kids && j != k && d in Overridden(a.kids[j], b.kids[j]);
      var p := OverriddenHasPair(a.kids[j], b.kids[j], d);
      var R := PairHasPath(a.kids[j], b.kids[j], p);
      P := [j] + R;
    }
  }

  lemma {:induction false} OutsideBelow(a: View, b: View, Q: Path, k: string)
    requires PairAt(a, b, Q).Some? && PairAt(a, b, Q + [k]).Some?
    requires PairAt(a, b, Q).value.0.Node?
    ensures var q := PairAt(a, b, Q).value;
      Outside(a, b, Q + [k]) == Outside(a, b, Q) + {q.0.dict} + Below(q, (q.0.kids.Keys * q.1.kids.Keys) - {k})
    decreases |Q|
  {
    if Q == [] {
      assert Q + [k] == [k];
      PairFurther(a, b, [k], []);
    } else {
      assert (Q + [k])[1..] == Q[1..] + [k] && (Q + [k])[0] == Q[0];
      OutsideBelow(a.kids[Q[0]], b.kids[Q[0]], Q[1..], k);
    }
  }

  // ----- Paths that part

  /** The path leaves Q at its last step. */
  predicate Leaves(beta: Path, Q: Path) {
    beta != [] && |beta| <= |Q| && beta[..|beta| - 1] <= Q && !(beta <= Q)
  }

  lemma {:induction false} BranchIs(beta: Path, P: Path, Q: Path)
    requires Leaves(beta, Q) && beta <= P
    ensures Branch(P, Q) == beta
    decreases |P|
  {
    assert P == beta + P[|beta|..];
    if |beta| > 1 {
      assert beta[0] == P[0] == Q[0];
      assert beta == [beta[0]] + beta[1..] && Q == [Q[0]] + Q[1..];
      assert beta[1..][..|beta[1..]| - 1] == beta[..|beta| - 1][1..];
      BranchIs(beta[1..], P[1..], Q[1..]);
    } else {
      assert beta == [P[0]];
      assert Q[..1] == [Q[0]];
    }
  }

  lemma {:induction false} BranchLeaves(P: Path, Q: Path)
    requires !(P <= Q) && !(Q <= P)
    ensures Leaves(Branch(P, Q), Q) && Branch(P, Q) <= P
    decreases |P|
  {
    assert P != [] && Q != [];
    assert P == [P[0]] + P[1..] && Q == [Q[0]] + Q[1..];
    if P[0] == Q[0] {
      BranchLeaves(P[1..], Q[1..]);
      var beta := Branch(P[1..], Q[1..]);
      assert ([P[0]] + beta)[..|[P[0]] + beta| - 1] == [P[0]] + beta[..|beta| - 1];
      PrefixTail([P[0]] + beta, Q[1..]);
    }
  }

  lemma LeavesBelow(beta: Path, Q: Path, k: string)
    requires Leaves(beta, Q)
    ensures Leaves(beta, Q + [k])
  {
    assert beta[..|beta| - 1] <= Q + [k];
    assert (Q + [k])[..|beta|] == Q[..|beta|];
  }

  lemma LeavesHere(Q: Path, j: string, k: string)
    requires j != k
    ensures Leaves(Q + [j], Q + [k])
  {
    assert (Q + [j])[..|Q|] == Q && (Q + [k])[..|Q|] == Q;
    assert (Q + [j])[|Q|] == j && (Q + [k])[|Q|] == k;
  }

  // ----- Settings that hold the defaults they meet

  /** What a view shows along a path. */
  function Reached(v: View, R: Path): Option<View>
    decreases |R|
  {
    if R == [] then Some(v) else if v.Leaf? || R[0] !in v.kids then None else Reached(v.kids[R[0]], R[1..])
  }

  lemma {:induction false} PairReaches(x: View, y: View, R: Path, q: (View, View))
    requires PairAt(x, y, R) == Some(q)
    ensures Reached(x, R) == Some(q.0) && Reached(y, R) == Some(q.1)
    decreases |R|
  {
    if R != [] {
      PairReaches(x.kids[R[0]], y.kids[R[0]], R[1..], q);
    }
  }

  lemma {:induction false} ReachFurther(v: View, R: Path, S: Path)
    requires Reached(v, R).Some?
    ensures Reached(v, R + S) == Reached(Reached(v, R).value, S)
    decreases |R|
  {
    if R == [] {
      assert R + S == S;
    } else {
      assert (R + S)[0] == R[0] && (R + S)[1..] == R[1..] + S;
      ReachFurther(v.kids[R[0]], R[1..], S);
    }
  }

  lemma {:induction false} ReachedPart(v: View, R: Path, s: View)
    requires Reached(v, R) == Some(s) && s.Node?
    ensures s in Subs(v) && (R != [] ==> v.Node? && v.kids != map[] && (v decreases to s))
    decreases |R|
  {
    if R != [] {
      ReachedPart(v.kids[R[0]], R[1..], s);
      assert R[0] in v.kids;
    }
  }

  /** A merge that changes nothing changes nothing anywhere. */
  lemma {:induction false} UnchangedBelow(x: View, y: View, R: Path, q: (View, View))
    requires Merge(x, y) == x && PairAt(x, y, R) == Some(q) && q.0.Node?
    ensures Merge(q.0, q.1) == q.0
    decreases |R|
  {
    if R != [] {
      KidsKept(x, y, R[0]);
      UnchangedBelow(x.kids[R[0]], y.kids[R[0]], R[1..], q);
    }
  }

  /** No dictionary that meets settings is a part of them: its own part of the same place would meet it in turn. */
  lemma {:induction false} NotInside(a: View, b: View, P: Path, p: (View, View), R: Path)
    requires a.Node? && b.Node? && Mergeable(a, b) && Harmless(a, b)
    requires PairAt(a, b, P) == Some(p) && p.0.Node? && R != []
    ensures Reached(p.1, R) != Some(p.0)
    decreases p.1, 1, 0
  {
    if Reached(p.1, R) == Some(p.0) {
      assert PairAt(p.0, p.1, []) == Some(p);
      WalkInside(a, b, P, p, R, [], R);
    }
  }

  lemma {:induction false} WalkInside(a: View, b: View, P: Path, p: (View, View), R: Path, done: Path, rest: Path)
    requires a.Node? && b.Node? && Mergeable(a, b) && Harmless(a, b)
    requires PairAt(a, b, P) == Some(p) && p.0.Node? && R != [] && R == done + rest
    requires PairAt(p.0, p.1, done).Some? && PairAt(p.0, p.1, done).value.0.Node?
    ensures Reached(p.1, R) != Some(p.0)
    decreases p.1, 0, |rest|
  {
    if Reached(p.1, R) == Some(p.0) {
      hide Harmless, Merge, Pairs, Kept, PairAt, Mergeable, Subs;
      var u := PairAt(p.0, p.1, done).value;
      PairReaches(p.0, p.1, done, u);
      ReachFurther(p.1, done, rest);
      ReachedPart(p.1, R, p.0);
      PairFurther(a, b, P, done);
      if rest == [] {
        assert done == R;
        NotInside(a, b, P + done, u, R);
      } else {
        NewHolds(a, b, P, p, done, u, rest);
        var k := rest[0];
        StepInside(a, b, P, p, done, u, rest);
        assert R == (done + [k]) + rest[1..];
        WalkInside(a, b, P, p, R, done + [k], rest[1..]);
      }
    }
  }

  lemma StepInside(a: View, b: View, P: Path, p: (View, View), done: Path, u: (View, View), rest: Path)
    requires a.Node? && b.Node? && Mergeable(a, b) && PairAt(a, b, P) == Some(p) && p.0.Node?
    requires PairAt(p.0, p.1, done) == Some(u) && u.0.Node? && rest != [] && rest[0] in u.0.kids
    requires Reached(u.1, rest) == Some(p.0)
    ensures PairAt(p.0, p.1, done + [rest[0]]).Some? && PairAt(p.0, p.1, done + [rest[0]]).value.0.Node?
  {
    var k := rest[0];
    PairFurther(a, b, P, done);
    PairIsSeen(a, b, P + done);
    ScalarInside(p, done, u, rest);
    assert KidMergeable(u.0, u.1, k);
    hide PairAt, Merge, Pairs, Kept, Subs;
    PairBelow(p.0, p.1, done, k);
  }

  /** A key that only the settings have cannot lead to the dictionary: then it is left alone, but gets that key as well. */
  lemma NewHolds(a: View, b: View, P: Path, p: (View, View), done: Path, u: (View, View), rest: Path)
    requires a.Node? && b.Node? && Harmless(a, b) && PairAt(a, b, P) == Some(p) && p.0.Node?
    requires PairAt(p.0, p.1, done) == Some(u) && u.0.Node? && rest != [] && Reached(u.1, rest) == Some(p.0)
    ensures rest[0] in u.0.kids
  {
    hide PairAt, Merge, Pairs, Kept, Harmless;
    PairIsSeen(a, b, P);
    PairIsSeen(p.0, p.1, done);
    var k := rest[0];
    if k !in u.0.kids {
      ReachedPart(u.1.kids[k], rest[1..], p.0);
      NewIsKept(u, k);
      KeptChanges(a, b, p);
      UnchangedBelow(p.0, p.1, done, u);
      MergedAt(u.0, u.1, k);
    }
  }

  lemma NewIsKept(u: (View, View), k: string)
    requires u.0.Node? && u.1.Node? && k in u.1.kids && k !in u.0.kids
    ensures Subs(u.1.kids[k]) <= Kept(u.0, u.1)
  {
    assert Subs(u.1.kids[k]) <= OnlyIn(u.1, u.0);
  }

  lemma KeptChanges(a: View, b: View, p: (View, View))
    requires Harmless(a, b) && p in Pairs(a, b) && p.0 in Kept(a, b)
    ensures Merge(p.0, p.1) == p.0
  {
    hide Merge;
    assert !Changes(p);
  }

  lemma ScalarInside(p: (View, View), done: Path, u: (View, View), rest: Path)
    requires p.0.Node? && PairAt(p.0, p.1, done) == Some(u) && u.0.Node? && rest != [] && rest[0] in u.0.kids
    requires Reached(u.1, rest) == Some(p.0)
    ensures u.1.Node? && rest[0] in u.1.kids && u.1.kids[rest[0]].Node? && u.1.kids[rest[0]].kids != map[]
  {
    var k := rest[0];
    ReachedPart(u.1.kids[k], rest[1..], p.0);
    if rest[1..] == [] {
      PairReaches(p.0, p.1, done, u);
      if done == [] {
        assert u.0 == p.0 && k in p.0.kids;
      } else {
        assert done[0] in p.0.kids;
      }
    }
  }

  // ----- Nothing shared

  lemma ApartKids(a: View, b: View, k: string)
    requires Apart(a, b) && a.Node? && b.Node? && k in a.kids
    ensures a.dict !in Dicts(a.kids[k])
    ensures k in b.kids ==> Apart(a.kids[k], b.kids[k])
    ensures k in b.kids ==> forall j :: j in a.kids && j != k ==> Overridden(a.kids[k], b.kids[k]) !! Dicts(a.kids[j])
  {
    hide Dicts, Overridden;
  }

  lemma PairStep(a: View, b: View, p: (View, View)) returns (k: string)
    requires p in Pairs(a, b) && p != (a, b)
    ensures a.Node? && b.Node? && k in a.kids && k in b.kids && p in Pairs(a.kids[k], b.kids[k])
  {
    k :| k in a.kids && k in b.kids && p in Pairs(a.kids[k], b.kids[k]);
  }

  lemma {:induction false} ApartPairs(a: View, b: View, p: (View, View), q: (View, View))
    requires Apart(a, b) && p in Pairs(a, b) && q in Pairs(a, b) && ItemOf(p.0) == ItemOf(q.0)
    ensures p == q
    decreases b
  {
    hide Apart, Dicts, Overridden, Pairs;
    if p != (a, b) && q != (a, b) {
      var k := PairStep(a, b, p);
      var j := PairStep(a, b, q);
      ApartKids(a, b, k);
      PairIsOverridden(a.kids[k], b.kids[k], p);
      PairInside(a.kids[j], b.kids[j], q);
      assert j == k;
      ApartPairs(a.kids[k], b.kids[k], p, q);
    } else if p != (a, b) {
      ApartHead(a, b, p);
    } else if q != (a, b) {
      ApartHead(a, b, q);
    }
  }

  lemma PairInside(a: View, b: View, p: (View, View))
    requires p in Pairs(a, b)
    ensures p.0.Node? && p.0.dict in Dicts(a)
  {
    hide Dicts;
    PairsSeen(a, b, p);
    SubDicts(a, p.0);
  }

  lemma ApartHead(a: View, b: View, p: (View, View))
    requires Apart(a, b) && p in Pairs(a, b) && p != (a, b)
    ensures ItemOf(p.0) != ItemOf(a)
  {
    hide Apart, Dicts, Pairs;
    var k := PairStep(a, b, p);
    ApartKids(a, b, k);
    PairInside(a.kids[k], b.kids[k], p);
  }

  lemma KeptInside(a: View, b: View, s: View)
    requires s in Kept(a, b)
    ensures s.Node? && (s.dict in Dicts(a) || s.dict in Dicts(b))
  {
    hide Dicts;
    KeptSeen(a, b, s);
    if s in Subs(a) { SubDicts(a, s); } else { SubDicts(b, s); }
  }

  /** Kept in the defaults, under a key. */
  lemma KeptStep(a: View, b: View, s: View) returns (k: string)
    requires s in Kept(a, b) && s.Node? && s.dict !in Dicts(b)
    ensures a.Node? && b.Node? && k in a.kids && if k in b.kids then s in Kept(a.kids[k], b.kids[k]) else s in Subs(a.kids[k])
  {
    if j :| j in b.kids && j !in a.kids && s in Subs(b.kids[j]) {
      SubDicts(b.kids[j], s);
      assert false;
      k := "";
    } else if j :| j in a.kids && j !in b.kids && s in Subs(a.kids[j]) {
      k := j;
    } else {
      k :| k in a.kids && k in b.kids && s in Kept(a.kids[k], b.kids[k]);
    }
  }

  lemma OverriddenStep(a: View, b: View, d: Dict) returns (k: string)
    requires d in Overridden(a, b) && d != a.dict
    ensures a.Node? && b.Node? && k in a.kids && k in b.kids && d in Overridden(a.kids[k], b.kids[k])
  {
    k :| k in a.kids && k in b.kids && d in Overridden(a.kids[k], b.kids[k]);
  }

  lemma ApartBelow(a: View, b: View, k: string)
    requires Overridden(a, b) !! Dicts(b) && a.Node? && b.Node? && k in a.kids && k in b.kids
    ensures Overridden(a.kids[k], b.kids[k]) !! Dicts(b.kids[k])
  {
    assert Dicts(b.kids[k]) <= Dicts(b) && Overridden(a.kids[k], b.kids[k]) <= Overridden(a, b);
    hide Dicts, Overridden;
  }

  lemma {:induction false} ApartKept(a: View, b: View, s: View)
    requires Apart(a, b) && Overridden(a, b) !! Dicts(b) && s in Kept(a, b)
    ensures s.Node? && s.dict !in Overridden(a, b)
    decreases b
  {
    hide Apart, Dicts, Overridden, Kept, Subs;
    KeptInside(a, b, s);
    if s.dict in Overridden(a, b) {
      var j := KeptStep(a, b, s);
      ApartKids(a, b, j);
      KeptBelow(a, b, s, j);
      var k := OverriddenStep(a, b, s.dict);
      ApartKids(a, b, k);
      ApartBelow(a, b, k);
      if j == k {
        ApartKept(a.kids[k], b.kids[k], s);
      }
    }
  }

  lemma KeptBelow(a: View, b: View, s: View, k: string)
    requires a.Node? && b.Node? && k in a.kids && s.Node? && s.dict !in Dicts(b)
    requires if k in b.kids then s in Kept(a.kids[k], b.kids[k]) else s in Subs(a.kids[k])
    ensures s.dict in Dicts(a.kids[k])
  {
    if k in b.kids {
      KeptInside(a.kids[k], b.kids[k], s);
    } else {
      SubDicts(a.kids[k], s);
    }
  }

  /** Where nothing the merge writes into is seen twice, only scalars can stand in the way. */
  lemma ApartIsClean(a: View, b: View)
    requires Apart(a, b) && Overridden(a, b) !! Dicts(b)
    ensures Harmless(a, b) && ReadsWell(a, b) && ScalarsRead(a, b)
  {
    hide Apart, Overridden, Dicts, Pairs, Kept, Merge, PairAt;
    forall p, q | p in Pairs(a, b) && q in Pairs(a, b) && ItemOf(p.0) == ItemOf(q.0)
      ensures p == q
    {
      ApartPairs(a, b, p, q);
    }
    forall p | p in Pairs(a, b)
      ensures p.0 !in Kept(a, b)
    {
      PairIsOverridden(a, b, p);
      if p.0 in Kept(a, b) { ApartKept(a, b, p.0); }
    }
    forall P, Q | PairAt(a, b, P).Some? && PairAt(a, b, Q).Some?
      ensures !Rewrites(PairAt(a, b, P).value, PairAt(a, b, Q).value)
    {
      ApartReads(a, b, P, Q);
    }
  }

  lemma ApartReads(a: View, b: View, P: Path, Q: Path)
    requires Overridden(a, b) !! Dicts(b) && PairAt(a, b, P).Some? && PairAt(a, b, Q).Some?
    ensures !Rewrites(PairAt(a, b, P).value, PairAt(a, b, Q).value)
  {
    hide Overridden, Dicts, Pairs, Kept, Merge, PairAt;
    PairIsSeen(a, b, P);
    PairIsSeen(a, b, Q);
    SubDicts(b, PairAt(a, b, Q).value.1);
    if PairAt(a, b, P).value.0.Node? {
      PairIsOverridden(a, b, PairAt(a, b, P).value);
    }
  }
}
