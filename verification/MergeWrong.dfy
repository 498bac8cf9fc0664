/** Without the condition, some order of the keys ends in an error or with another configuration. */
module MergesWrong {
  import opened Results
  import opened RetryConfigs
  import opened RetryConfigSharing
  import opened MergeRuns
  import opened MergeSafety

  // ----- What stays, whatever is merged

  /** A key stays; a scalar stays a scalar, and a dictionary gives way to scalars only. */
  ghost predicate Grown(h: Heap, g: Heap) {
    g.Keys == h.Keys && forall d :: d in h ==> EntriesGrown(h[d], g[d])
  }

  ghost predicate EntriesGrown(e: map<string, Item>, f: map<string, Item>) {
    forall k :: k in e ==> k in f && (f[k].Plain? || f[k] == e[k])
  }

  lemma GrownAll(h: Heap, g: Heap, f: Heap)
    requires Grown(h, g) && Grown(g, f)
    ensures Grown(h, f)
  {
    forall d | d in h
      ensures EntriesGrown(h[d], f[d])
    {
      assert EntriesGrown(h[d], g[d]) && EntriesGrown(g[d], f[d]);
    }
  }

  lemma GrownSelf(h: Heap)
    ensures Grown(h, h)
  {
  }

  lemma {:induction false} RunGrows(h: Heap, order: Order, x: Item, y: Dict, depth: nat)
    requires Closed(h) && Within(h, x) && y in h && Orderly(order)
    ensures Grown(h, Run(h, order, x, y, depth).0)
    decreases depth, 1, 0
  {
    if depth == 0 || x.Plain? {
      GrownSelf(h);
    } else {
      assert Lists(Listed(order, y, h[y].Keys), h[y].Keys);
      KeysGrow(h, order, x.dict, y, Listed(order, y, h[y].Keys), h[y].Keys, depth);
    }
  }

  lemma {:induction false} KeysGrow(h: Heap, order: Order, x: Dict, y: Dict, keys: seq<string>, all: set<string>,
                                    depth: nat)
    requires Closed(h) && x in h && y in h && Orderly(order)
    requires depth > 0 && forall i :: 0 <= i < |keys| ==> keys[i] in all
    ensures Grown(h, RunKeys(h, order, x, y, keys, all, depth).0)
    decreases depth, 0, |keys|
  {
    if h[y].Keys != all || keys == [] {
      GrownSelf(h);
    } else {
      KeyGrows(h, order, x, y, keys[0], depth);
      var r := RunKey(h, order, x, y, keys[0], depth);
      if r.1 {
        KeysGrow(r.0, order, x, y, keys[1..], all, depth);
        GrownAll(h, r.0, RunKeys(h, order, x, y, keys, all, depth).0);
      }
    }
  }

  lemma {:induction false} KeyGrows(h: Heap, order: Order, x: Dict, y: Dict, key: string, depth: nat)
    requires Closed(h) && x in h && y in h && key in h[y] && depth > 0 && Orderly(order)
    ensures Grown(h, RunKey(h, order, x, y, key, depth).0)
    decreases depth, 0, 0
  {
    hide Run, RunKey;
    if h[y][key].Table? && key in h[x] {
      KeyMerges(h, order, x, y, key, depth);
      RunGrows(h, order, h[x][key], h[y][key].dict, depth - 1);
    } else {
      KeyWrites(h, order, x, y, key, depth);
      WriteGrows(h, x, key, h[y][key]);
    }
  }

  lemma WriteGrows(h: Heap, x: Dict, key: string, item: Item)
    requires x in h && (item.Plain? || key !in h[x])
    ensures Grown(h, h[x := h[x][key := item]])
  {
  }

  // ----- Orders with a key in front or at the end

  ghost function FirstOf(k: string, keys: set<string>): (s: seq<string>)
    ensures Lists(s, keys) && (k in keys ==> s != [] && s[0] == k)
  {
    if k in keys then
      var rest := Enumerate(keys - {k});
      assert forall j :: j in keys ==> j == k || j in keys - {k};
      [k] + rest
    else Enumerate(keys)
  }

  ghost function LastOf(k: string, keys: set<string>): (s: seq<string>)
    ensures Lists(s, keys) && (k in keys ==> s != [] && s[|s| - 1] == k)
  {
    if k in keys then
      var rest := Enumerate(keys - {k});
      assert forall j :: j in keys ==> j == k || j in keys - {k};
      rest + [k]
    else Enumerate(keys)
  }

  /** One key of each dictionary before all its others. */
  ghost function First(ks: map<Dict, string>): (order: Order)
    ensures Orderly(order)
  {
    map d | d in ks :: (keys: set<string>) => FirstOf(ks[d], keys)
  }

  /** One key of each dictionary after all its others. */
  ghost function Last(ks: map<Dict, string>): (order: Order)
    ensures Orderly(order)
  {
    map d | d in ks :: (keys: set<string>) => LastOf(ks[d], keys)
  }

  /** The keys lead along the path. */
  ghost predicate Follows(ks: map<Dict, string>, v: View, R: Path)
    decreases |R|
  {
    R != [] && v.Node? ==> v.dict in ks && ks[v.dict] == R[0] && (R[0] in v.kids ==> Follows(ks, v.kids[R[0]], R[1..]))
  }

  /** The keys that lead along a path. */
  function Along(v: View, R: Path): map<Dict, string>
    decreases |R|
  {
    if R == [] || v.Leaf? then map[]
    else (if R[0] in v.kids then Along(v.kids[R[0]], R[1..]) else map[])[v.dict := R[0]]
  }

  lemma {:induction false} FollowsMore(ks: map<Dict, string>, more: map<Dict, string>, v: View, R: Path)
    requires Follows(ks, v, R) && forall d :: d in ks && d in Dicts(v) ==> d in more && more[d] == ks[d]
    ensures Follows(more, v, R)
    decreases |R|
  {
    if R != [] && v.Node? && R[0] in v.kids {
      assert Dicts(v.kids[R[0]]) <= Dicts(v);
      FollowsMore(ks, more, v.kids[R[0]], R[1..]);
    }
  }

  lemma {:induction false} DictHasSub(v: View, d: Dict) returns (s: View)
    requires d in Dicts(v)
    ensures s in Subs(v) && s.Node? && s.dict == d
    decreases v
  {
    if d == v.dict {
      s := v;
    } else {
      var k :| k in v.kids && d in Dicts(v.kids[k]);
      s := DictHasSub(v.kids[k], d);
    }
  }

  lemma {:induction false} SubSmaller(v: View, s: View)
    requires s in Subs(v)
    ensures s == v || (v decreases to s)
    decreases v
  {
    if s != v {
      var k :| k in v.kids && s in Subs(v.kids[k]);
      SubSmaller(v.kids[k], s);
    }
  }

  /** No dictionary that a heap shows is a part of itself. */
  lemma NotOwnPart(h: Heap, v: View, k: string)
    requires ShowsIn(h, v) && v.Node? && k in v.kids
    ensures v.dict !in Dicts(v.kids[k])
  {
    if v.dict in Dicts(v.kids[k]) {
      var s := DictHasSub(v.kids[k], v.dict);
      SubSmaller(v.kids[k], s);
      SubsShownIn(h, v.kids[k], s);
      OneViewIn(h, s, v);
    }
  }

  lemma {:induction false} AlongFollows(h: Heap, v: View, R: Path)
    requires ShowsIn(h, v)
    ensures Follows(Along(v, R), v, R) && Along(v, R).Keys <= Dicts(v)
    decreases |R|
  {
    if R != [] && v.Node? && R[0] in v.kids {
      var kid := v.kids[R[0]];
      AlongFollows(h, kid, R[1..]);
      NotOwnPart(h, v, R[0]);
      FollowsMore(Along(kid, R[1..]), Along(v, R), kid, R[1..]);
    }
  }

  lemma {:induction false} FollowsFar(ks: map<Dict, string>, v: View, Q: Path, R: Path)
    requires Follows(ks, v, Q + R) && Reached(v, Q).Some?
    ensures Follows(ks, Reached(v, Q).value, R)
    decreases |Q|
  {
    if Q == [] {
      assert Q + R == R;
    } else {
      assert (Q + R)[0] == Q[0] && (Q + R)[1..] == Q[1..] + R;
      FollowsFar(ks, v.kids[Q[0]], Q[1..], R);
    }
  }

  // ----- What a visited pair leaves behind

  /** The keys of the view are there, and its scalars are scalars. */
  ghost predicate LaidAt(h: Heap, s: View) {
    s.Node? && s.dict in h && forall k :: k in s.kids ==> k in h[s.dict] && (s.kids[k].Leaf? ==> h[s.dict][k].Plain?)
  }

  ghost predicate AllLaid(h: Heap, v: View) {
    forall s :: s in Subs(v) ==> LaidAt(h, s)
  }

  lemma LaidStays(h: Heap, g: Heap, v: View)
    requires AllLaid(h, v) && Grown(h, g)
    ensures AllLaid(g, v)
  {
    forall s | s in Subs(v)
      ensures LaidAt(g, s)
    {
      assert LaidAt(h, s) && EntriesGrown(h[s.dict], g[s.dict]);
    }
  }

  lemma ShownIsLaid(h: Heap, v: View)
    requires ShowsIn(h, v)
    ensures AllLaid(h, v)
  {
    forall s | s in Subs(v)
      ensures LaidAt(h, s)
    {
      SubsShownIn(h, v, s);
    }
  }

  /** The entry of a merged pair under one key, and everything below it. */
  ghost predicate KeyLaid(h: Heap, x: View, w: View, k: string) {
    x.Node? && w.Node? && x.dict in h && k in w.kids && k in h[x.dict]
    && (w.kids[k].Leaf? ==> h[x.dict][k].Plain?) && AllLaid(h, w.kids[k])
  }

  lemma KeyLaidStays(h: Heap, g: Heap, x: View, w: View, k: string)
    requires KeyLaid(h, x, w, k) && Grown(h, g)
    ensures KeyLaid(g, x, w, k)
  {
    LaidStays(h, g, w.kids[k]);
    assert EntriesGrown(h[x.dict], g[x.dict]);
    hide AllLaid;
  }

  /** Two pairs in a heap that has moved on, of which the last heap shows the merged one. */
  ghost predicate Scene(h0: Heap, h: Heap, gf: Heap, x: View, y: View) {
    Closed(h) && x.Node? && y.Node? && ShowsIn(h0, x) && ShowsIn(h0, y) && Grown(h0, h) && Grown(h, gf) && ShowsIn(gf, Merge(x, y))
  }

  lemma SceneFacts(h0: Heap, h: Heap, gf: Heap, x: View, y: View)
    requires Scene(h0, h, gf, x, y)
    ensures Closed(h) && x.Node? && y.Node? && x.dict in h && y.dict in h && y.kids.Keys <= h[y.dict].Keys && x.kids.Keys <= h[x.dict].Keys
    ensures Merge(x, y).Node? && Merge(x, y).dict == x.dict
    ensures forall k :: k in x.kids || k in y.kids ==> k in Merge(x, y).kids && Merge(x, y).kids[k] == MergedKid(x, y, k)
    ensures forall k :: k in x.kids ==> h[x.dict][k].Plain? || h[x.dict][k] == ItemOf(x.kids[k])
    ensures forall k :: k in y.kids ==> h[y.dict][k].Plain? || h[y.dict][k] == ItemOf(y.kids[k])
    ensures x.dict in gf && forall k :: k in Merge(x, y).kids ==> k in gf[x.dict] && gf[x.dict][k] == ItemOf(Merge(x, y).kids[k])
    ensures forall k :: k in x.kids || k in y.kids ==> ShowsIn(gf, Merge(x, y).kids[k])
    ensures Grown(h0, h) && forall k :: k in y.kids ==> ShowsIn(h0, y.kids[k])
  {
    assert EntriesGrown(h0[x.dict], h[x.dict]) && EntriesGrown(h0[y.dict], h[y.dict]);
    assert EntriesOf(x).Keys == x.kids.Keys && EntriesOf(y).Keys == y.kids.Keys;
    MergedItem(x, y);
    forall k | k in x.kids || k in y.kids { MergedAt(x, y, k); }
    assert EntriesOf(Merge(x, y)).Keys == Merge(x, y).kids.Keys;
    hide Merge, MergedKid;
  }

  lemma {:induction false} VisitLays(h0: Heap, h: Heap, gf: Heap, order: Order, x: View, y: View, depth: nat)
    requires Closed(h) && Orderly(order) && Within(h, ItemOf(x)) && x.Node? && y.Node? && y.dict in h
    requires
      var r := Run(h, order, ItemOf(x), y.dict, depth);
      r.1 && Grown(r.0, gf) && Scene(h0, h, gf, x, y)
    ensures AllLaid(Run(h, order, ItemOf(x), y.dict, depth).0, Merge(x, y))
    decreases depth, 1, 0
  {
    SceneFacts(h0, h, gf, x, y);
    var all := h[y.dict].Keys;
    var keys := Listed(order, y.dict, all);
    assert Lists(keys, all);
    var g := Run(h, order, ItemOf(x), y.dict, depth).0;
    assert (g, true) == RunKeys(h, order, x.dict, y.dict, keys, all, depth);
    RunGrows(h, order, ItemOf(x), y.dict, depth);
    hide Run, RunKeys, Scene, Merge, ShowsIn;
    KeysLay(h0, h, gf, order, x, y, keys, all, depth);
    PairLaid(h0, h, g, gf, x, y);
  }

  lemma PairLaid(h0: Heap, h: Heap, g: Heap, gf: Heap, x: View, y: View)
    requires Scene(h0, h, gf, x, y) && Grown(h, g) && Grown(g, gf)
    requires forall k :: k in y.kids ==> KeyLaid(g, x, Merge(x, y), k)
    ensures AllLaid(g, Merge(x, y))
  {
    SceneFacts(h0, h, gf, x, y);
    var w := Merge(x, y);
    GrownAll(h0, h, g);
    forall k | k in w.kids
      ensures KeyLaid(g, x, w, k)
    {
      if k !in y.kids {
        AbsentStays(x, y, k);
        OldKeyLaid(h0, g, x, k);
      }
    }
    hide *;
    AllKeysLaid(g, x, w);
  }

  lemma OldKeyLaid(h0: Heap, g: Heap, x: View, k: string)
    requires x.Node? && ShowsIn(h0, x) && Grown(h0, g) && k in x.kids
    ensures KeyLaid(g, x, x, k)
  {
    ShownIsLaid(h0, x.kids[k]);
    LaidStays(h0, g, x.kids[k]);
    assert EntriesGrown(h0[x.dict], g[x.dict]);
    assert k in EntriesOf(x);
  }

  lemma AllKeysLaid(g: Heap, x: View, w: View)
    requires x.Node? && w.Node? && w.dict == x.dict && x.dict in g && forall k :: k in w.kids ==> KeyLaid(g, x, w, k)
    ensures AllLaid(g, w)
  {
    forall s | s in Subs(w)
      ensures LaidAt(g, s)
    {
      if s == w {
        assert forall k :: k in w.kids ==> KeyLaid(g, x, w, k);
      } else {
        var k :| k in w.kids && s in Subs(w.kids[k]);
        assert KeyLaid(g, x, w, k);
      }
    }
  }

  lemma {:induction false} KeysLay(h0: Heap, h: Heap, gf: Heap, order: Order, x: View, y: View, keys: seq<string>,
                                   all: set<string>, depth: nat)
    requires Closed(h) && Orderly(order) && x.Node? && y.Node? && x.dict in h && y.dict in h
    requires depth > 0 && forall i :: 0 <= i < |keys| ==> keys[i] in all
    requires
      var r := RunKeys(h, order, x.dict, y.dict, keys, all, depth);
      r.1 && Grown(r.0, gf) && Scene(h0, h, gf, x, y)
    ensures
      var g := RunKeys(h, order, x.dict, y.dict, keys, all, depth).0;
      forall k :: k in keys && k in y.kids ==> KeyLaid(g, x, Merge(x, y), k)
    decreases depth, 0, |keys|
  {
    hide *;
    if keys != [] {
      StillSame(h, order, x.dict, y.dict, keys, all, depth);
      var k := keys[0];
      var r := RunKey(h, order, x.dict, y.dict, k, depth);
      var g := RunKeys(h, order, x.dict, y.dict, keys, all, depth).0;
      OneMoreKey(h, order, x.dict, y.dict, keys, all, depth);
      KeyGrows(h, order, x.dict, y.dict, k, depth);
      KeysGrow(r.0, order, x.dict, y.dict, keys[1..], all, depth);
      SceneLater(h0, h, r.0, g, gf, x, y);
      KeysLay(h0, r.0, gf, order, x, y, keys[1..], all, depth);
      if k in y.kids {
        KeyLays(h0, h, gf, order, x, y, k, depth);
        KeyLaidStays(r.0, g, x, Merge(x, y), k);
      }
      assert forall j :: j in keys ==> j == k || j in keys[1..];
    }
  }

  lemma StillSame(h: Heap, order: Order, x: Dict, y: Dict, keys: seq<string>, all: set<string>, depth: nat)
    requires Closed(h) && x in h && y in h && Orderly(order) && depth > 0 && forall i :: 0 <= i < |keys| ==> keys[i] in all
    requires RunKeys(h, order, x, y, keys, all, depth).1
    ensures h[y].Keys == all
  {
    hide RunKey;
  }

  lemma SceneLater(h0: Heap, h: Heap, g: Heap, f: Heap, gf: Heap, x: View, y: View)
    requires Scene(h0, h, gf, x, y) && Closed(g) && Grown(h, g) && Grown(g, f) && Grown(f, gf)
    ensures Scene(h0, g, gf, x, y) && Grown(g, gf)
  {
    GrownAll(h0, h, g);
    GrownAll(g, f, gf);
    hide Grown, ShowsIn, Merge;
  }

  lemma {:induction false} KeyLays(h0: Heap, h: Heap, gf: Heap, order: Order, x: View, y: View, k: string, depth: nat)
    requires Closed(h) && Orderly(order) && x.Node? && y.Node? && x.dict in h && y.dict in h && k in h[y.dict] && depth > 0
    requires
      var r := RunKey(h, order, x.dict, y.dict, k, depth);
      r.1 && Grown(r.0, gf) && Scene(h0, h, gf, x, y) && Scene(h0, r.0, gf, x, y) && k in y.kids
    ensures KeyLaid(RunKey(h, order, x.dict, y.dict, k, depth).0, x, Merge(x, y), k)
    decreases depth, 0, 0
  {
    hide *;
    SceneFacts(h0, h, gf, x, y);
    KeyGrows(h, order, x.dict, y.dict, k, depth);
    if y.kids[k].Leaf? {
      KeyLaysScalar(h, order, x, y, k, depth);
    } else if k !in x.kids {
      KeyLaysNew(h0, h, order, x, y, k, depth);
    } else if x.kids[k].Leaf? {
      KeyLaysOld(h, order, x, y, k, depth);
    } else {
      ItemIsTable(y.kids[k]);
      ItemIsTable(x.kids[k]);
      StillTables(h0, h, gf, order, x, y, k, depth);
      KeyMerges(h, order, x.dict, y.dict, k, depth);
      KidScene(h0, h, gf, x, y, k);
      VisitLays(h0, h, gf, order, x.kids[k], y.kids[k], depth - 1);
      MergedBoth(x, y, k);
      KidLaid(h, RunKey(h, order, x.dict, y.dict, k, depth).0, x, Merge(x, y), k);
    }
  }

  lemma MergedBoth(x: View, y: View, k: string)
    requires x.Node? && y.Node? && k in x.kids && k in y.kids && x.kids[k].Node? && y.kids[k].Node?
    ensures Merge(x, y).Node? && k in Merge(x, y).kids && Merge(x, y).kids[k] == Merge(x.kids[k], y.kids[k])
    ensures Merge(x, y).kids[k].Node? && ItemOf(Merge(x, y).kids[k]) == ItemOf(x.kids[k])
  {
    MergedAt(x, y, k);
    MergedItem(x.kids[k], y.kids[k]);
  }

  lemma KidLaid(h: Heap, g: Heap, x: View, w: View, k: string)
    requires x.Node? && w.Node? && k in w.kids && w.kids[k].Node? && AllLaid(g, w.kids[k])
    requires Grown(h, g) && x.dict in h && k in h[x.dict]
    ensures KeyLaid(g, x, w, k)
  {
    assert EntriesGrown(h[x.dict], g[x.dict]);
    hide AllLaid;
  }

  /** A scalar among the settings is assigned. */
  lemma KeyLaysScalar(h: Heap, order: Order, x: View, y: View, k: string, depth: nat)
    requires Closed(h) && Orderly(order) && x.Node? && y.Node? && x.dict in h && y.dict in h && k in h[y.dict] && depth > 0
    requires k in y.kids && y.kids[k].Leaf? && (h[y.dict][k].Plain? || h[y.dict][k] == ItemOf(y.kids[k]))
    ensures KeyLaid(RunKey(h, order, x.dict, y.dict, k, depth).0, x, Merge(x, y), k)
  {
    KeyWrites(h, order, x.dict, y.dict, k, depth);
    MergedAt(x, y, k);
    hide Merge, RunKey;
  }

  lemma KeyLaysNew(h0: Heap, h: Heap, order: Order, x: View, y: View, k: string, depth: nat)
    requires Closed(h) && Orderly(order) && x.Node? && y.Node? && x.dict in h && y.dict in h && k in h[y.dict] && depth > 0
    requires k in y.kids && k !in x.kids && y.kids[k].Node? && ShowsIn(h0, y.kids[k]) && Grown(h0, h)
    ensures KeyLaid(RunKey(h, order, x.dict, y.dict, k, depth).0, x, Merge(x, y), k)
  {
    var g := RunKey(h, order, x.dict, y.dict, k, depth).0;
    KeyGrows(h, order, x.dict, y.dict, k, depth);
    GrownAll(h0, h, g);
    ShownIsLaid(h0, y.kids[k]);
    LaidStays(h0, g, y.kids[k]);
    MergedAt(x, y, k);
    assert EntriesGrown(h[x.dict], g[x.dict]);
    assert k in g[x.dict];
    hide Merge, RunKey;
  }

  /** A scalar of the defaults that meets a dictionary stays. */
  lemma KeyLaysOld(h: Heap, order: Order, x: View, y: View, k: string, depth: nat)
    requires Closed(h) && Orderly(order) && x.Node? && y.Node? && x.dict in h && y.dict in h && k in h[y.dict] && depth > 0
    requires k in y.kids && k in x.kids && y.kids[k].Node? && x.kids[k].Leaf?
    requires k in h[x.dict] && (h[x.dict][k].Plain? || h[x.dict][k] == ItemOf(x.kids[k]))
    ensures KeyLaid(RunKey(h, order, x.dict, y.dict, k, depth).0, x, Merge(x, y), k)
  {
    var g := RunKey(h, order, x.dict, y.dict, k, depth).0;
    KeyGrows(h, order, x.dict, y.dict, k, depth);
    MergedAt(x, y, k);
    assert MergedKid(x, y, k) == x.kids[k];
    assert EntriesGrown(h[x.dict], g[x.dict]);
    hide Merge, RunKey;
  }

  /** Where two dictionaries are to be merged, both are still there: a scalar would have stayed to the end. */
  lemma StillTables(h0: Heap, h: Heap, gf: Heap, order: Order, x: View, y: View, k: string, depth: nat)
    requires Closed(h) && Orderly(order) && x.Node? && y.Node? && x.dict in h && y.dict in h && k in h[y.dict] && depth > 0
    requires Scene(h0, h, gf, x, y) && k in x.kids && k in y.kids && x.kids[k].Node? && y.kids[k].Node?
    requires Grown(RunKey(h, order, x.dict, y.dict, k, depth).0, gf)
    ensures k in h[x.dict] && h[x.dict][k] == ItemOf(x.kids[k]) && h[y.dict][k] == ItemOf(y.kids[k])
  {
    var g := RunKey(h, order, x.dict, y.dict, k, depth).0;
    SceneFacts(h0, h, gf, x, y);
    MergedBoth(x, y, k);
    assert EntriesGrown(h[x.dict], gf[x.dict]) && EntriesGrown(g[x.dict], gf[x.dict]);
    hide Merge;
  }

  lemma KidScene(h0: Heap, h: Heap, gf: Heap, x: View, y: View, k: string)
    requires Scene(h0, h, gf, x, y) && k in x.kids && k in y.kids && x.kids[k].Node? && y.kids[k].Node?
    ensures Scene(h0, h, gf, x.kids[k], y.kids[k])
  {
    MergedAt(x, y, k);
    hide Grown;
  }

  // ----- The last write stays

  /** Along the path the settings say something else than the view. */
  predicate Mismatch(v: View, u: View, R: Path)
    decreases |R|
  {
    && v.Node? && u.Node? && R != [] && R[0] in u.kids
    && var k := R[0];
       if k !in v.kids then true
       else if u.kids[k].Leaf? then v.kids[k] != u.kids[k]
       else if v.kids[k].Leaf? then u.kids[k].kids != map[]
       else Mismatch(v.kids[k], u.kids[k], R[1..])
  }

  lemma {:induction false} NoOwnMismatch(v: View, R: Path)
    ensures !Mismatch(v, v, R)
    decreases |R|
  {
    if v.Node? && R != [] && R[0] in v.kids {
      NoOwnMismatch(v.kids[R[0]], R[1..]);
    }
  }

  /** Laying settings over a view changes nothing unless they say something else somewhere. */
  lemma {:induction false} SomeMismatch(w: View, m: View) returns (R: Path)
    requires w.Node? && m.Node? && !(Merge(w, m) == w && Mergeable(w, m))
    ensures Mismatch(w, m, R)
    decreases m
  {
    if forall k :: k in m.kids ==> k in w.kids && MergedKid(w, m, k) == w.kids[k] && KidMergeable(w, m, k) {
      SameByKids(w, m);
      assert false;
      R := [];
    } else {
      var k :| k in m.kids && !(k in w.kids && MergedKid(w, m, k) == w.kids[k] && KidMergeable(w, m, k));
      R := KeyMismatch(w, m, k);
    }
  }

  lemma SameByKids(w: View, m: View)
    requires w.Node? && m.Node?
    requires forall k :: k in m.kids ==> k in w.kids && MergedKid(w, m, k) == w.kids[k] && KidMergeable(w, m, k)
    ensures Merge(w, m) == w && Mergeable(w, m)
  {
    forall k | k in Merge(w, m).kids
      ensures k in w.kids && Merge(w, m).kids[k] == w.kids[k]
    {
      MergedAt(w, m, k);
    }
    assert Merge(w, m).kids == w.kids;
  }

  lemma {:induction false} KeyMismatch(w: View, m: View, k: string) returns (R: Path)
    requires w.Node? && m.Node? && k in m.kids
    requires !(k in w.kids && MergedKid(w, m, k) == w.kids[k] && KidMergeable(w, m, k))
    ensures Mismatch(w, m, R) && R[0] == k
    decreases m, 0
  {
    R := [k];
    if k in w.kids && w.kids[k].Node? && m.kids[k].Node? {
      var S := SomeMismatch(w.kids[k], m.kids[k]);
      R := [k] + S;
      assert R[1..] == S;
    }
  }

  /** Scalars of the view that meet dictionaries among the settings are scalars already. */
  ghost predicate Guarded(h: Heap, v: View, u: View)
    decreases v, 1
  {
    v.Node? && u.Node? ==>
      && v.dict in h
      && forall k :: k in v.kids && k in u.kids && u.kids[k].Node? ==> GuardedKid(h, v, u, k)
  }

  ghost predicate GuardedKid(h: Heap, v: View, u: View, k: string)
    requires v.Node? && u.Node? && v.dict in h && k in v.kids && k in u.kids
    decreases v, 0
  {
    if v.kids[k].Leaf? then k in h[v.dict] && h[v.dict][k].Plain? else Guarded(h, v.kids[k], u.kids[k])
  }

  lemma {:induction false} GuardStays(h: Heap, g: Heap, v: View, u: View)
    requires Guarded(h, v, u) && Grown(h, g)
    ensures Guarded(g, v, u)
    decreases v
  {
    if v.Node? && u.Node? {
      assert EntriesGrown(h[v.dict], g[v.dict]);
      forall k | k in v.kids && k in u.kids && u.kids[k].Node?
        ensures GuardedKid(g, v, u, k)
      {
        assert GuardedKid(h, v, u, k);
        if v.kids[k].Node? {
          GuardStays(h, g, v.kids[k], u.kids[k]);
        }
      }
    }
  }

  /** Where a loop stands before its last round. */
  lemma {:induction false} BeforeLast(h: Heap, order: Order, x: Dict, y: Dict, keys: seq<string>, all: set<string>,
                                      depth: nat)
    returns (hl: Heap)
    requires Closed(h) && x in h && y in h && Orderly(order) && depth > 0 && keys != []
    requires forall i :: 0 <= i < |keys| ==> keys[i] in all
    requires RunKeys(h, order, x, y, keys, all, depth).1
    ensures Closed(hl) && hl.Keys == h.Keys && Grown(h, hl) && hl[y].Keys == all
    ensures RunKey(hl, order, x, y, keys[|keys| - 1], depth) == RunKeys(h, order, x, y, keys, all, depth)
    decreases |keys|
  {
    hide *;
    StillSame(h, order, x, y, keys, all, depth);
    OneMoreKey(h, order, x, y, keys, all, depth);
    var r := RunKey(h, order, x, y, keys[0], depth);
    if |keys| == 1 {
      hl := h;
      GrownSelf(h);
      assert keys[1..] == [];
      StillSame(r.0, order, x, y, [], all, depth);
      NoMoreKeys(r.0, order, x, y, all, depth);
    } else {
      KeyGrows(h, order, x, y, keys[0], depth);
      hl := BeforeLast(r.0, order, x, y, keys[1..], all, depth);
      GrownAll(h, r.0, hl);
    }
  }

  lemma LastKey(ks: map<Dict, string>, v: View, R: Path, all: set<string>)
    requires Follows(ks, v, R) && R != [] && R[0] in all && v.Node?
    ensures
      var keys := Listed(Last(ks), v.dict, all);
      Lists(keys, all) && keys != [] && keys[|keys| - 1] == R[0] && forall i :: 0 <= i < |keys| ==> keys[i] in all
  {
    hide Follows;
    FollowsHead(ks, v, R);
  }

  lemma FollowsHead(ks: map<Dict, string>, v: View, R: Path)
    requires Follows(ks, v, R) && R != [] && v.Node?
    ensures v.dict in ks && ks[v.dict] == R[0] && (R[0] in v.kids ==> Follows(ks, v.kids[R[0]], R[1..]))
  {
  }

  /** The last key visited: the final views agree along its path. */
  lemma {:induction false} LastRound(h: Heap, ks: map<Dict, string>, v: View, u: View, depth: nat, R: Path)
    requires Closed(h) && v.Node? && u.Node? && v.dict in h && u.dict in h && depth > 0 && Follows(ks, u, R) && R != []
    requires R[0] in h[u.dict] && AllLaid(h, u) && Guarded(h, v, u)
    requires
      var r := RunKey(h, Last(ks), v.dict, u.dict, R[0], depth);
      r.1 && ShowsIn(r.0, v) && ShowsIn(r.0, u)
    ensures !Mismatch(v, u, R)
    decreases depth, 0
  {
    hide *;
    var k := R[0];
    if h[u.dict][k].Plain? || k !in h[v.dict] {
      Assigned(h, ks, v, u, depth, R);
    } else {
      MergedLast(h, ks, v, u, depth, R);
      if k in v.kids && k in u.kids && v.kids[k].Node? && u.kids[k].Node? {
        LaidPart(h, u, k);
        GuardPart(h, v, u, k);
        FollowsHead(ks, u, R);
        LastVisit(h, ks, v.kids[k], u.kids[k], depth - 1, R[1..]);
        NoMismatchBelow(v, u, R);
      }
    }
  }

  lemma NoMismatchBelow(v: View, u: View, R: Path)
    requires v.Node? && u.Node? && R != [] && R[0] in v.kids && R[0] in u.kids
    requires v.kids[R[0]].Node? && u.kids[R[0]].Node? && !Mismatch(v.kids[R[0]], u.kids[R[0]], R[1..])
    ensures !Mismatch(v, u, R)
  {
  }

  lemma GuardPart(h: Heap, v: View, u: View, k: string)
    requires v.Node? && u.Node? && k in v.kids && k in u.kids && v.kids[k].Node? && u.kids[k].Node? && Guarded(h, v, u)
    ensures Guarded(h, v.kids[k], u.kids[k])
  {
    assert GuardedKid(h, v, u, k);
  }

  /** Two dictionaries were merged last: they are the ones that are seen in the end. */
  lemma MergedLast(h: Heap, ks: map<Dict, string>, v: View, u: View, depth: nat, R: Path)
    requires Closed(h) && v.Node? && u.Node? && v.dict in h && u.dict in h && depth > 0 && Follows(ks, u, R) && R != []
    requires R[0] in h[u.dict] && AllLaid(h, u) && Guarded(h, v, u)
    requires h[u.dict][R[0]].Table? && R[0] in h[v.dict]
    requires
      var r := RunKey(h, Last(ks), v.dict, u.dict, R[0], depth);
      r.1 && ShowsIn(r.0, v) && ShowsIn(r.0, u)
    ensures
      var k := R[0];
      if k in v.kids && k in u.kids && v.kids[k].Node? && u.kids[k].Node? then
        && Closed(h) && v.kids[k].dict in h && u.kids[k].dict in h
        && var r := Run(h, Last(ks), ItemOf(v.kids[k]), u.kids[k].dict, depth - 1);
           r.1 && ShowsIn(r.0, v.kids[k]) && ShowsIn(r.0, u.kids[k])
      else !Mismatch(v, u, R)
  {
    hide *;
    var k := R[0];
    var g := RunKey(h, Last(ks), v.dict, u.dict, k, depth).0;
    KeyMerges(h, Last(ks), v.dict, u.dict, k, depth);
    KeyGrows(h, Last(ks), v.dict, u.dict, k, depth);
    LastEntries(h, g, v, u, k);
    if v.kids[k].Node? {
      ItemIsTable(v.kids[k]);
      ItemIsTable(u.kids[k]);
    } else {
      GuardedScalar(h, v, u, k);
      ItemIsTable(u.kids[k]);
      ScalarLast(h, Last(ks), h[v.dict][k], u.kids[k].dict, depth - 1);
      EmptyMatch(h, v, u, R);
    }
  }

  lemma LastEntries(h: Heap, g: Heap, v: View, u: View, k: string)
    requires Closed(h) && v.Node? && u.Node? && v.dict in h && u.dict in h && k in h[u.dict] && k in h[v.dict]
    requires Grown(h, g) && ShowsIn(g, v) && ShowsIn(g, u) && AllLaid(h, u) && h[u.dict][k].Table?
    ensures k in v.kids && k in u.kids && u.kids[k].Node? && h[u.dict][k] == ItemOf(u.kids[k]) && u.kids[k].dict in h
    ensures v.kids[k].Node? ==> h[v.dict][k] == ItemOf(v.kids[k]) && v.kids[k].dict in h
    ensures ShowsIn(g, v.kids[k]) && ShowsIn(g, u.kids[k])
  {
    assert EntriesGrown(h[u.dict], g[u.dict]) && EntriesGrown(h[v.dict], g[v.dict]);
    assert g[u.dict] == EntriesOf(u) && g[v.dict] == EntriesOf(v);
    assert k in EntriesOf(v) && k in EntriesOf(u);
    assert u in Subs(u) && LaidAt(h, u);
    hide AllLaid, Subs;
  }

  lemma GuardedScalar(h: Heap, v: View, u: View, k: string)
    requires v.Node? && u.Node? && k in v.kids && k in u.kids && v.kids[k].Leaf? && u.kids[k].Node? && Guarded(h, v, u)
    ensures v.dict in h && k in h[v.dict] && h[v.dict][k].Plain?
  {
    assert GuardedKid(h, v, u, k);
  }

  lemma EmptyMatch(h: Heap, v: View, u: View, R: Path)
    requires v.Node? && u.Node? && R != [] && R[0] in v.kids && R[0] in u.kids && v.kids[R[0]].Leaf? && u.kids[R[0]].Node?
    requires ShowsIn(h, u.kids[R[0]]) && h[u.kids[R[0]].dict] == map[]
    ensures !Mismatch(v, u, R)
  {
    var w := u.kids[R[0]];
    assert EntriesOf(w) == map[] && w.kids.Keys == EntriesOf(w).Keys;
  }

  lemma ScalarLast(h: Heap, order: Order, x: Item, y: Dict, depth: nat)
    requires Closed(h) && Within(h, x) && y in h && Orderly(order) && x.Plain? && Run(h, order, x, y, depth).1
    ensures Run(h, order, x, y, depth).0 == h && h[y] == map[]
  {
  }

  lemma LaidPart(h: Heap, u: View, k: string)
    requires u.Node? && k in u.kids && AllLaid(h, u)
    ensures AllLaid(h, u.kids[k])
  {
    assert Subs(u.kids[k]) <= Subs(u);
  }

  /** What was assigned last is seen in both views. */
  lemma Assigned(h: Heap, ks: map<Dict, string>, v: View, u: View, depth: nat, R: Path)
    requires Closed(h) && v.Node? && u.Node? && v.dict in h && u.dict in h && depth > 0 && R != [] && R[0] in h[u.dict]
    requires h[u.dict][R[0]].Plain? || R[0] !in h[v.dict]
    requires
      var r := RunKey(h, Last(ks), v.dict, u.dict, R[0], depth);
      ShowsIn(r.0, v) && ShowsIn(r.0, u)
    ensures !Mismatch(v, u, R)
  {
    var k := R[0];
    var g := RunKey(h, Last(ks), v.dict, u.dict, k, depth).0;
    KeyWrites(h, Last(ks), v.dict, u.dict, k, depth);
    assert g[v.dict] == EntriesOf(v) && g[u.dict] == EntriesOf(u);
    if v.dict == u.dict {
      OneViewIn(g, v, u);
    } else if k in u.kids {
      assert EntriesOf(v)[k] == EntriesOf(u)[k];
      OneViewIn(g, v.kids[k], u.kids[k]);
      NoOwnMismatch(u.kids[k], R[1..]);
    }
    NoOwnMismatch(u, R);
  }

  lemma NoStart(v: View, u: View, R: Path)
    requires u.Node? && (R == [] || R[0] !in u.kids)
    ensures !Mismatch(v, u, R)
  {
  }

  lemma LaidHead(h: Heap, u: View)
    requires u.Node? && AllLaid(h, u)
    ensures u.dict in h && u.kids.Keys <= h[u.dict].Keys
  {
    assert u in Subs(u) && LaidAt(h, u);
  }

  lemma DeepRun(h: Heap, order: Order, x: Item, y: Dict, depth: nat)
    requires Closed(h) && Within(h, x) && y in h && Orderly(order) && Run(h, order, x, y, depth).1
    ensures depth > 0
  {
  }

  lemma {:induction false} LastVisit(h: Heap, ks: map<Dict, string>, v: View, u: View, depth: nat, R: Path)
    requires Closed(h) && v.Node? && u.Node? && v.dict in h && u.dict in h && Follows(ks, u, R)
    requires AllLaid(h, u) && Guarded(h, v, u)
    requires
      var r := Run(h, Last(ks), ItemOf(v), u.dict, depth);
      r.1 && ShowsIn(r.0, v) && ShowsIn(r.0, u)
    ensures !Mismatch(v, u, R)
    decreases depth, 1
  {
    hide *;
    if R == [] || R[0] !in u.kids {
      NoStart(v, u, R);
    } else {
      var all := h[u.dict].Keys;
      LaidHead(h, u);
      LastKey(ks, u, R, all);
      var keys := Listed(Last(ks), u.dict, all);
      ItemIsTable(v);
      DeepRun(h, Last(ks), ItemOf(v), u.dict, depth);
      RunIsLoop(h, Last(ks), v, u.dict, depth);
      var hl := BeforeLast(h, Last(ks), v.dict, u.dict, keys, all, depth);
      LaidStays(h, hl, u);
      GuardStays(h, hl, v, u);
      LastRound(hl, ks, v, u, depth, R);
    }
  }

  // ----- The last pair

  /** Where a loop stands before an earlier round, and before its last one. */
  lemma {:induction false} BeforeEarlier(h: Heap, order: Order, x: Dict, y: Dict, keys: seq<string>, all: set<string>,
                                         depth: nat, j: string)
    returns (hj: Heap, hl: Heap)
    requires Closed(h) && x in h && y in h && Orderly(order) && depth > 0 && keys != [] && j in keys && j != keys[|keys| - 1]
    requires forall i :: 0 <= i < |keys| ==> keys[i] in all
    requires RunKeys(h, order, x, y, keys, all, depth).1
    ensures hj.Keys == h.Keys == hl.Keys && Closed(hj) && Grown(h, hj) && hj[y].Keys == all && j in all && RunKey(hj, order, x, y, j, depth).1
    ensures Closed(hl) && Grown(RunKey(hj, order, x, y, j, depth).0, hl) && hl[y].Keys == all
    ensures RunKey(hl, order, x, y, keys[|keys| - 1], depth) == RunKeys(h, order, x, y, keys, all, depth)
    decreases |keys|
  {
    hide *;
    StillSame(h, order, x, y, keys, all, depth);
    OneMoreKey(h, order, x, y, keys, all, depth);
    var r := RunKey(h, order, x, y, keys[0], depth);
    KeyGrows(h, order, x, y, keys[0], depth);
    if keys[0] == j {
      hj := h;
      GrownSelf(h);
      hl := BeforeLast(r.0, order, x, y, keys[1..], all, depth);
    } else {
      assert j in keys[1..];
      hj, hl := BeforeEarlier(r.0, order, x, y, keys[1..], all, depth, j);
      GrownAll(h, r.0, hj);
    }
  }

  lemma SceneMoves(h0: Heap, h: Heap, g: Heap, gf: Heap, x: View, y: View)
    requires Scene(h0, h, gf, x, y) && Closed(g) && Grown(h, g) && Grown(g, gf)
    ensures Scene(h0, g, gf, x, y)
  {
    GrownAll(h0, h, g);
    hide Grown, ShowsIn, Merge;
  }

  lemma {:induction false} PairKeeps(x: View, y: View, P: Path, p: (View, View))
    requires x.Node? && y.Node? && PairAt(x, y, P) == Some(p) && p.0.Node?
    ensures Merge(p.0, p.1) in Subs(Merge(x, y)) && Subs(Merge(p.0, p.1)) <= Subs(Merge(x, y))
  {
    PairIsSeen(x, y, P);
    PairsSeen(x, y, p);
    SubsWithin(Merge(x, y), Merge(p.0, p.1));
  }

  lemma {:induction false} SubsWithin(v: View, s: View)
    requires s in Subs(v)
    ensures Subs(s) <= Subs(v)
    decreases v
  {
    if s != v {
      var k :| k in v.kids && s in Subs(v.kids[k]);
      SubsWithin(v.kids[k], s);
    }
  }

  /** One round that merges a pair leaves everything below it laid. */
  lemma RoundLays(h0: Heap, h: Heap, gf: Heap, order: Order, x: View, y: View, j: string, depth: nat, P: Path,
                  p: (View, View))
    requires Closed(h) && Orderly(order) && x.Node? && y.Node? && x.dict in h && y.dict in h && j in h[y.dict] && depth > 0
    requires
      var r := RunKey(h, order, x.dict, y.dict, j, depth);
      r.1 && Grown(r.0, gf) && Scene(h0, h, gf, x, y)
    requires P != [] && P[0] == j && PairAt(x, y, P) == Some(p) && p.0.Node?
    ensures AllLaid(RunKey(h, order, x.dict, y.dict, j, depth).0, Merge(p.0, p.1))
  {
    hide *;
    StepOnPath(x, y, P, p);
    ItemIsTable(x.kids[j]);
    ItemIsTable(y.kids[j]);
    StillTables(h0, h, gf, order, x, y, j, depth);
    KeyMerges(h, order, x.dict, y.dict, j, depth);
    KidScene(h0, h, gf, x, y, j);
    VisitLays(h0, h, gf, order, x.kids[j], y.kids[j], depth - 1);
    PairKeeps(x.kids[j], y.kids[j], P[1..], p);
    LaidWithin(RunKey(h, order, x.dict, y.dict, j, depth).0, Merge(x.kids[j], y.kids[j]), Merge(p.0, p.1));
  }

  lemma LaidWithin(h: Heap, v: View, s: View)
    requires AllLaid(h, v) && Subs(s) <= Subs(v)
    ensures AllLaid(h, s)
  {
  }

  lemma StepOnPath(x: View, y: View, P: Path, p: (View, View))
    requires P != [] && PairAt(x, y, P) == Some(p) && p.0.Node?
    ensures x.Node? && y.Node? && P[0] in x.kids && P[0] in y.kids && x.kids[P[0]].Node? && y.kids[P[0]].Node?
    ensures PairAt(x.kids[P[0]], y.kids[P[0]], P[1..]) == Some(p)
  {
  }

  lemma RunKeyGrown(h: Heap, hj: Heap, hl: Heap, order: Order, x: Dict, y: Dict, j: string, depth: nat)
    requires Closed(hj) && x in hj && y in hj && j in hj[y] && depth > 0 && Orderly(order)
    requires Grown(h, hj) && Grown(RunKey(hj, order, x, y, j, depth).0, hl)
    ensures Grown(h, hl)
  {
    hide *;
    KeyGrows(hj, order, x, y, j, depth);
    GrownAll(h, hj, RunKey(hj, order, x, y, j, depth).0);
    GrownAll(h, RunKey(hj, order, x, y, j, depth).0, hl);
  }

  lemma HereAlready(x: View, y: View, q: (View, View))
    requires PairAt(x, y, []) == Some(q)
    ensures q == (x, y)
  {
  }

  lemma PrefixTails(P: Path, Q: Path)
    requires P != [] && Q != [] && P[0] == Q[0] && !(Q <= P) && !(P <= Q)
    ensures !(Q[1..] <= P[1..]) && !(P[1..] <= Q[1..])
  {
    assert P == [P[0]] + P[1..] && Q == [Q[0]] + Q[1..];
    PrefixTail(Q, P[1..]);
    PrefixTail(P, Q[1..]);
  }

  lemma LastScene(h0: Heap, h: Heap, hl: Heap, g: Heap, x: View, y: View)
    requires Scene(h0, h, g, x, y) && Closed(hl) && Grown(h, hl) && Grown(hl, g)
    ensures Scene(h0, hl, g, x, y) && x.dict in hl && y.dict in hl && y.kids.Keys <= hl[y.dict].Keys
  {
    hide *;
    SceneMoves(h0, h, hl, g, x, y);
    SceneFacts(h0, hl, g, x, y);
  }

  /** An earlier round on the way to another pair leaves that pair laid. */
  lemma EarlierLays(h0: Heap, h: Heap, hj: Heap, hl: Heap, g: Heap, order: Order, x: View, y: View, depth: nat,
                    P: Path, p: (View, View))
    requires Orderly(order) && x.Node? && y.Node? && x.dict in hj && y.dict in hj && depth > 0
    requires P != [] && PairAt(x, y, P) == Some(p) && p.0.Node? && P[0] in hj[y.dict]
    requires Closed(hj) && Grown(h, hj) && Scene(h0, h, g, x, y)
    requires
      var r := RunKey(hj, order, x.dict, y.dict, P[0], depth);
      r.1 && Grown(r.0, hl) && Grown(hl, g)
    ensures AllLaid(hl, Merge(p.0, p.1))
  {
    hide *;
    var r := RunKey(hj, order, x.dict, y.dict, P[0], depth);
    KeyGrows(hj, order, x.dict, y.dict, P[0], depth);
    GrownAll(r.0, hl, g);
    GrownAll(hj, r.0, g);
    SceneMoves(h0, h, hj, g, x, y);
    RoundLays(h0, hj, g, order, x, y, P[0], depth, P, p);
    LaidStays(r.0, hl, Merge(p.0, p.1));
  }

  /** Before the last round of a loop: what was merged elsewhere is laid, if an earlier round came there. */
  lemma LastRoundStarts(h0: Heap, h: Heap, ks: map<Dict, string>, x: View, y: View, depth: nat, R: Path, P: Path, p: (View, View),
                        m: View, laid: bool)
    returns (hl: Heap)
    requires Closed(h) && x.Node? && y.Node? && x.dict in h && y.dict in h && Follows(ks, y, R) && R != [] && R[0] in y.kids
    requires
      var r := Run(h, Last(ks), ItemOf(x), y.dict, depth);
      r.1 && Scene(h0, h, r.0, x, y)
    requires if laid then AllLaid(h, m) else PairAt(x, y, P) == Some(p) && p.0.Node? && m == Merge(p.0, p.1) && P != []
    ensures Closed(hl) && x.dict in hl && y.dict in hl && R[0] in hl[y.dict] && depth > 0
    ensures
      var g := Run(h, Last(ks), ItemOf(x), y.dict, depth).0;
      Scene(h0, hl, g, x, y) && RunKey(hl, Last(ks), x.dict, y.dict, R[0], depth) == (g, true)
    ensures laid || P[0] != R[0] ==> AllLaid(hl, m)
  {
    hide *;
    ItemIsTable(x);
    var g := Run(h, Last(ks), ItemOf(x), y.dict, depth).0;
    var all := h[y.dict].Keys;
    var keys := Listed(Last(ks), y.dict, all);
    SceneFacts(h0, h, g, x, y);
    LastKey(ks, y, R, all);
    DeepRun(h, Last(ks), ItemOf(x), y.dict, depth);
    RunIsLoop(h, Last(ks), x, y.dict, depth);
    if !laid && P[0] != R[0] {
      StepOnPath(x, y, P, p);
      ListHas(keys, all, P[0]);
      var hj;
      hj, hl := BeforeEarlier(h, Last(ks), x.dict, y.dict, keys, all, depth, P[0]);
      KeyGrows(hl, Last(ks), x.dict, y.dict, R[0], depth);
      EarlierLays(h0, h, hj, hl, g, Last(ks), x, y, depth, P, p);
      RunKeyGrown(h, hj, hl, Last(ks), x.dict, y.dict, P[0], depth);
    } else {
      hl := BeforeLast(h, Last(ks), x.dict, y.dict, keys, all, depth);
      KeyGrows(hl, Last(ks), x.dict, y.dict, R[0], depth);
      if laid { LaidStays(h, hl, m); }
    }
    LastScene(h0, h, hl, g, x, y);
  }

  /** Before the pair at the last path is merged, which nothing follows, what was merged elsewhere is laid. */
  lemma {:induction false} ReachLast(h0: Heap, h: Heap, ks: map<Dict, string>, x: View, y: View, depth: nat, Q: Path,
                                     q: (View, View), P: Path, p: (View, View), m: View, laid: bool)
    returns (hq: Heap, dq: nat)
    requires Closed(h) && x.Node? && y.Node? && x.dict in h && y.dict in h && Follows(ks, y, Q)
    requires
      var r := Run(h, Last(ks), ItemOf(x), y.dict, depth);
      r.1 && Scene(h0, h, r.0, x, y)
    requires PairAt(x, y, Q) == Some(q) && q.0.Node?
    requires if laid then AllLaid(h, m)
             else PairAt(x, y, P) == Some(p) && p.0.Node? && m == Merge(p.0, p.1) && !(Q <= P) && !(P <= Q)
    ensures
      var g := Run(h, Last(ks), ItemOf(x), y.dict, depth).0;
      && Closed(hq) && q.0.dict in hq && q.1.dict in hq && AllLaid(hq, m) && Scene(h0, hq, g, q.0, q.1)
      && Run(hq, Last(ks), ItemOf(q.0), q.1.dict, dq) == (g, true)
    decreases |Q|
  {
    hide *;
    if Q == [] {
      HereAlready(x, y, q);
      hq, dq := h, depth;
    } else {
      var k := Q[0];
      ItemIsTable(x);
      var g := Run(h, Last(ks), ItemOf(x), y.dict, depth).0;
      FollowsHead(ks, y, Q);
      StepOnPath(x, y, Q, q);
      var done := laid || P[0] != k;
      var hl := LastRoundStarts(h0, h, ks, x, y, depth, Q, P, p, m, laid);
      GrownSelf(g);
      StillTables(h0, hl, g, Last(ks), x, y, k, depth);
      ItemIsTable(x.kids[k]);
      ItemIsTable(y.kids[k]);
      KeyMerges(hl, Last(ks), x.dict, y.dict, k, depth);
      KidScene(h0, hl, g, x, y, k);
      if !done { PrefixTails(P, Q); StepOnPath(x, y, P, p); }
      hq, dq := ReachLast(h0, hl, ks, x.kids[k], y.kids[k], depth - 1, Q[1..], q, if P == [] then [] else P[1..], p, m, done);
    }
  }

  // ----- Scalars that are there from the start

  lemma {:induction false} ShownGuard(h: Heap, v: View, u: View)
    requires ShowsIn(h, v)
    ensures Guarded(h, v, u)
    decreases v
  {
    if v.Node? && u.Node? {
      forall k | k in v.kids && k in u.kids && u.kids[k].Node?
        ensures GuardedKid(h, v, u, k)
      {
        assert k in EntriesOf(v);
        if v.kids[k].Node? { ShownGuard(h, v.kids[k], u.kids[k]); }
      }
    }
  }

  /** A scalar in the merged pair that meets a dictionary of the changed settings was a scalar of the defaults. */
  lemma {:induction false} MergedGuard(h: Heap, x: View, y: View, s: View)
    requires ShowsIn(h, x) && ShowsIn(h, y) && x.Node? && y.Node?
    ensures Guarded(h, Merge(x, y), Merge(y, s))
    decreases y
  {
    var w, m := Merge(x, y), Merge(y, s);
    assert w.dict == x.dict;
    forall k | k in w.kids && k in m.kids && m.kids[k].Node?
      ensures GuardedKid(h, w, m, k)
    {
      MergedAt(x, y, k);
      assert h[x.dict] == EntriesOf(x);
      if k !in x.kids {
        SettingsGuard(y, s, k, if s.Node? && k in s.kids && s.kids[k].Node? then s.kids[k] else Leaf(Text("")));
        ShownGuard(h, y.kids[k], m.kids[k]);
      } else if k !in y.kids {
        assert k in EntriesOf(x);
        ShownGuard(h, x.kids[k], m.kids[k]);
      } else {
        BothGuard(h, x, y, s, k);
      }
    }
  }

  lemma {:induction false} BothGuard(h: Heap, x: View, y: View, s: View, k: string)
    requires ShowsIn(h, x) && ShowsIn(h, y) && x.Node? && y.Node? && k in x.kids && k in y.kids
    requires k in Merge(x, y).kids && k in Merge(y, s).kids && Merge(y, s).kids[k].Node?
    ensures Merge(x, y).dict in h && GuardedKid(h, Merge(x, y), Merge(y, s), k)
    decreases y, 0
  {
    var w, m := Merge(x, y), Merge(y, s);
    MergedAt(x, y, k);
    assert k in EntriesOf(x);
    var t := if s.Node? && k in s.kids && s.kids[k].Node? then s.kids[k] else Leaf(Text(""));
    SettingsGuard(y, s, k, t);
    if x.kids[k].Node? {
      MergedGuard(h, x.kids[k], y.kids[k], t);
    }
  }

  /** A dictionary that is left of settings under a key comes from the settings' own. */
  lemma SettingsGuard(y: View, s: View, k: string, t: View)
    requires y.Node? && k in y.kids && k in Merge(y, s).kids && Merge(y, s).kids[k].Node?
    requires t == if s.Node? && k in s.kids && s.kids[k].Node? then s.kids[k] else Leaf(Text(""))
    ensures y.kids[k].Node? && Merge(y, s).kids[k] == Merge(y.kids[k], t)
  {
    if s.Node? {
      MergedAt(y, s, k);
    }
  }

  // ----- The first pair

  /** On the way along the path its keys come first. */
  ghost predicate Leads(order: Order, v: View, R: Path)
    decreases |R|
  {
    R != [] && v.Node? ==> KeyFirst(order, v.dict, R[0]) && (R[0] in v.kids ==> Leads(order, v.kids[R[0]], R[1..]))
  }

  ghost predicate KeyFirst(order: Order, d: Dict, k: string) {
    forall keys :: k in keys ==> Listed(order, d, keys) != [] && Listed(order, d, keys)[0] == k
  }

  lemma {:induction false} FirstLeads(ks: map<Dict, string>, v: View, R: Path)
    requires Follows(ks, v, R)
    ensures Leads(First(ks), v, R)
    decreases |R|
  {
    if R != [] && v.Node? {
      FirstKey(ks, v.dict);
      if R[0] in v.kids { FirstLeads(ks, v.kids[R[0]], R[1..]); }
    }
  }

  lemma FirstKey(ks: map<Dict, string>, d: Dict)
    requires d in ks
    ensures KeyFirst(First(ks), d, ks[d])
  {
    forall keys | ks[d] in keys
      ensures Listed(First(ks), d, keys) != [] && Listed(First(ks), d, keys)[0] == ks[d]
    {
      assert Listed(First(ks), d, keys) == FirstOf(ks[d], keys);
    }
  }

  lemma {:induction false} LeadsOn(order: Order, v: View, Q: Path, R: Path)
    requires Leads(order, v, Q + R)
    ensures Leads(order, v, Q)
    ensures Reached(v, Q).Some? ==> Leads(order, Reached(v, Q).value, R)
    decreases |Q|
  {
    if Q == [] {
      assert Q + R == R;
    } else {
      assert (Q + R)[0] == Q[0] && (Q + R)[1..] == Q[1..] + R;
      if v.Node? && Q[0] in v.kids { LeadsOn(order, v.kids[Q[0]], Q[1..], R); }
    }
  }

  lemma LeadsHere(order: Order, v: View, R: Path, all: set<string>)
    requires Leads(order, v, R) && R != [] && R[0] in all && v.Node?
    ensures Listed(order, v.dict, all) != [] && Listed(order, v.dict, all)[0] == R[0]
    ensures R[0] in v.kids ==> Leads(order, v.kids[R[0]], R[1..])
  {
    hide Listed;
  }

  /** The first round of a loop that succeeds. */
  lemma RoundOne(h: Heap, order: Order, x: View, y: Dict, depth: nat, k: string)
    requires Closed(h) && x.Node? && x.dict in h && y in h && Orderly(order) && Within(h, ItemOf(x))
    requires Run(h, order, ItemOf(x), y, depth).1 && k in h[y]
    requires Listed(order, y, h[y].Keys) != [] && Listed(order, y, h[y].Keys)[0] == k
    ensures depth > 0
    ensures
      var r := RunKey(h, order, x.dict, y, k, depth);
      var keys := Listed(order, y, h[y].Keys);
      && (forall i :: 0 <= i < |keys| ==> keys[i] in h[y].Keys)
      && r.1 && r.0[y].Keys == h[y].Keys
      && Run(h, order, ItemOf(x), y, depth) == RunKeys(r.0, order, x.dict, y, keys[1..], h[y].Keys, depth)
  {
    hide *;
    var all := h[y].Keys;
    OrderLists(order, y, all);
    var keys := Listed(order, y, all);
    DeepRun(h, order, ItemOf(x), y, depth);
    RunIsLoop(h, order, x, y, depth);
    OneMoreKey(h, order, x.dict, y, keys, all, depth);
    var r := RunKey(h, order, x.dict, y, k, depth);
    StillSame(r.0, order, x.dict, y, keys[1..], all, depth);
  }

  lemma ShownKeySet(h: Heap, v: View)
    requires ShowsIn(h, v) && v.Node?
    ensures v.dict in h && h[v.dict].Keys == v.kids.Keys
  {
    assert EntriesOf(v).Keys == v.kids.Keys;
  }

  /** The first round of the loop over a pair that has not been changed. */
  lemma FirstRound(h: Heap, order: Order, x: View, y: View, depth: nat, R: Path)
    requires Closed(h) && x.Node? && y.Node? && ShowsIn(h, x) && ShowsIn(h, y) && R != [] && R[0] in y.kids
    requires Orderly(order) && Leads(order, y, R)
    requires Run(h, order, ItemOf(x), y.dict, depth).1
    ensures depth > 0 && R[0] in h[y.dict]
    ensures
      var r := RunKey(h, order, x.dict, y.dict, R[0], depth);
      var g := Run(h, order, ItemOf(x), y.dict, depth).0;
      r.1 && Grown(r.0, g) && r.0[y.dict].Keys == y.kids.Keys
  {
    hide *;
    ShownKeySet(h, x);
    ShownKeySet(h, y);
    ItemIsTable(x);
    var all := h[y.dict].Keys;
    LeadsHere(order, y, R, all);
    RoundOne(h, order, x, y.dict, depth, R[0]);
    var r := RunKey(h, order, x.dict, y.dict, R[0], depth);
    KeysGrow(r.0, order, x.dict, y.dict, Listed(order, y.dict, all)[1..], all, depth);
  }

  /** The pair at the first path is merged before anything has changed. */
  lemma {:induction false} ReachFirst(h: Heap, order: Order, x: View, y: View, depth: nat, Q: Path, q: (View, View))
    returns (dq: nat)
    requires Closed(h) && ShowsIn(h, x) && ShowsIn(h, y) && y.Node? && Orderly(order) && Leads(order, y, Q)
    requires PairAt(x, y, Q) == Some(q) && Within(h, ItemOf(x)) && y.dict in h
    requires Run(h, order, ItemOf(x), y.dict, depth).1
    ensures Within(h, ItemOf(q.0)) && q.1.dict in h && ShowsIn(h, q.0) && ShowsIn(h, q.1)
    ensures
      var r := Run(h, order, ItemOf(q.0), q.1.dict, dq);
      r.1 && Grown(r.0, Run(h, order, ItemOf(x), y.dict, depth).0)
    decreases |Q|
  {
    hide *;
    if Q == [] {
      HereAlready(x, y, q);
      dq := depth;
      GrownSelf(Run(h, order, ItemOf(x), y.dict, depth).0);
    } else {
      var k := Q[0];
      PathStarts(x, y, Q);
      LeadsHere(order, y, Q, y.kids.Keys);
      FirstRound(h, order, x, y, depth, Q);
      FirstMerges(h, order, x, y, k, depth, q, Q);
      dq := ReachFirst(h, order, x.kids[k], y.kids[k], depth - 1, Q[1..], q);
      GrownAll(Run(h, order, ItemOf(q.0), q.1.dict, dq).0, RunKey(h, order, x.dict, y.dict, k, depth).0,
        Run(h, order, ItemOf(x), y.dict, depth).0);
    }
  }

  lemma PathStarts(x: View, y: View, Q: Path)
    requires PairAt(x, y, Q).Some? && Q != []
    ensures x.Node? && y.Node? && Q[0] in x.kids && Q[0] in y.kids
  {
  }

  lemma FirstMerges(h: Heap, order: Order, x: View, y: View, k: string, depth: nat, q: (View, View), Q: Path)
    requires Closed(h) && Orderly(order) && x.Node? && y.Node? && ShowsIn(h, x) && ShowsIn(h, y) && depth > 0
    requires Q != [] && Q[0] == k && PairAt(x, y, Q) == Some(q)
    ensures x.dict in h && y.dict in h && k in h[x.dict] && k in h[y.dict] && k in x.kids && k in y.kids && y.kids[k].Node?
    ensures ShowsIn(h, x.kids[k]) && ShowsIn(h, y.kids[k]) && PairAt(x.kids[k], y.kids[k], Q[1..]) == Some(q)
    ensures Within(h, ItemOf(x.kids[k])) && y.kids[k].dict in h
    ensures RunKey(h, order, x.dict, y.dict, k, depth) == Run(h, order, ItemOf(x.kids[k]), y.kids[k].dict, depth - 1)
  {
    assert k in EntriesOf(x) && k in EntriesOf(y);
    hide Run;
    KeyMerges(h, order, x.dict, y.dict, k, depth);
  }

  // ----- Orders that go wrong

  /** The run succeeds and leaves the merged configuration. */
  ghost predicate Right(h0: Heap, order: Order, a: View, b: View, depth: nat)
    requires Closed(h0) && Within(h0, ItemOf(a)) && b.Node? && b.dict in h0 && Orderly(order)
  {
    var r := Run(h0, order, ItemOf(a), b.dict, depth);
    r.1 && ShowsIn(r.0, Merge(a, b))
  }

  /** Two configurations of one heap. */
  ghost predicate Given(h0: Heap, a: View, b: View) {
    Closed(h0) && a.Node? && b.Node? && ShowsIn(h0, a) && ShowsIn(h0, b)
  }

  lemma GivenFacts(h0: Heap, a: View, b: View)
    requires Given(h0, a, b)
    ensures Closed(h0) && a.Node? && b.Node? && a.dict in h0 && b.dict in h0 && Within(h0, ItemOf(a))
    ensures ShowsIn(h0, a) && ShowsIn(h0, b) && Grown(h0, h0)
  {
    GrownSelf(h0);
  }

  lemma {:induction false} Unmergeable(a: View, b: View) returns (Q: Path, q: (View, View))
    requires !Mergeable(a, b)
    ensures PairAt(a, b, Q) == Some(q) && q.0.Leaf? && q.1.kids != map[]
    decreases b
  {
    if a.Leaf? {
      Q, q := [], (a, b);
    } else {
      var k :| k in b.kids && !KidMergeable(a, b, k);
      var R;
      R, q := Unmergeable(a.kids[k], b.kids[k]);
      Q := [k] + R;
    }
  }

  /** A scalar that meets settings: the merge fails, if it gets there first. */
  lemma ScalarFirst(h0: Heap, a: View, b: View, Q: Path, q: (View, View), depth: nat)
    requires Given(h0, a, b) && PairAt(a, b, Q) == Some(q) && q.0.Leaf? && q.1.kids != map[]
    ensures Closed(h0) && Within(h0, ItemOf(a)) && b.dict in h0 && !Right(h0, First(Along(b, Q)), a, b, depth)
  {
    hide *;
    GivenFacts(h0, a, b);
    var order := First(Along(b, Q));
    if Right(h0, order, a, b, depth) {
      RightRun(h0, order, a, b, depth);
      AlongFollows(h0, b, Q);
      FirstLeads(Along(b, Q), b, Q);
      var dq := ReachFirst(h0, order, a, b, depth, Q, q);
      PlainLeaf(q.0);
      ScalarLast(h0, order, ItemOf(q.0), q.1.dict, dq);
      ShownKeys(h0, q.1);
    }
  }

  lemma PlainLeaf(v: View)
    requires v.Leaf?
    ensures ItemOf(v).Plain?
  {
  }

  lemma ShownKeys(h: Heap, v: View)
    requires ShowsIn(h, v) && v.Node? && v.kids != map[]
    ensures v.dict in h && h[v.dict] != map[]
  {
    assert EntriesOf(v).Keys == v.kids.Keys != {};
  }

  lemma FinalPair(h0: Heap, g: Heap, a: View, b: View, Q: Path, q: (View, View))
    requires Given(h0, a, b) && Grown(h0, g) && ShowsIn(g, Merge(a, b)) && PairAt(a, b, Q) == Some(q) && q.0.Node?
    ensures Scene(h0, h0, g, q.0, q.1) && ShowsIn(g, Merge(q.0, q.1)) && q.0.dict in h0 && q.1.dict in h0
  {
    GivenFacts(h0, a, b);
    PairIsSeen(a, b, Q);
    PairKeeps(a, b, Q, q);
    SubsShownIn(h0, a, q.0);
    SubsShownIn(h0, b, q.1);
    SubsShownIn(g, Merge(a, b), Merge(q.0, q.1));
    hide Grown, Merge, Subs, Pairs, Closed;
  }

  /** Settings that grow while their keys are gone through. */
  lemma GrowingWrong(h0: Heap, a: View, b: View, P: Path, p: (View, View), Q: Path, q: (View, View), depth: nat)
    requires Given(h0, a, b) && PairAt(a, b, P) == Some(p) && PairAt(a, b, Q) == Some(q) && Q < P
    requires p.0.Node? && q.0.Node? && p.0 == q.1 && Merge(p.0, p.1).kids.Keys != q.1.kids.Keys
    ensures Closed(h0) && Within(h0, ItemOf(a)) && b.dict in h0 && !Right(h0, First(Along(b, P)), a, b, depth)
  {
    hide *;
    GivenFacts(h0, a, b);
    var R, order := P[|Q|..], First(Along(b, P));
    assert R != [] && P == Q + R;
    PairFurther(a, b, Q, R);
    if Right(h0, order, a, b, depth) {
      RightRun(h0, order, a, b, depth);
      var g := Run(h0, order, ItemOf(a), b.dict, depth).0;
      RunGrows(h0, order, ItemOf(a), b.dict, depth);
      AlongFollows(h0, b, P);
      FirstLeads(Along(b, P), b, P);
      LeadsOn(order, b, Q, R);
      PairReaches(a, b, Q, q);
      var dq := ReachFirst(h0, order, a, b, depth, Q, q);
      FinalPair(h0, g, a, b, Q, q);
      StepOnPath(q.0, q.1, R, p);
      FirstRound(h0, order, q.0, q.1, dq, R);
      var r := RunKey(h0, order, q.0.dict, q.1.dict, R[0], dq);
      GrownAll(r.0, Run(h0, order, ItemOf(q.0), q.1.dict, dq).0, g);
      RoundLays(h0, h0, g, order, q.0, q.1, R[0], dq, R, p);
      MergedHead(p);
      LaidHead(r.0, Merge(p.0, p.1));
    }
  }

  lemma MergedHead(p: (View, View))
    requires p.0.Node? && p.1.Node?
    ensures Merge(p.0, p.1).Node? && Merge(p.0, p.1).dict == p.0.dict && p.0.kids.Keys <= Merge(p.0, p.1).kids.Keys
  {
  }

  // ----- The keys that lead to what is read last

  /** The keys that lead to settings, and then along what they are to become. */
  function Reading(b: View, Q: Path, u: View, R: Path): map<Dict, string> {
    Along(b, Q) + Along(u, R)
  }

  lemma {:induction false} AlongHas(v: View, Q: Path, d: Dict) returns (A: Path)
    requires d in Along(v, Q)
    ensures A < Q && Reached(v, A).Some? && Reached(v, A).value.Node? && Reached(v, A).value.dict == d
    decreases |Q|
  {
    if d == v.dict {
      A := [];
    } else {
      var B := AlongHas(v.kids[Q[0]], Q[1..], d);
      A := [Q[0]] + B;
      PrefixTail(A, Q[1..]);
      assert Q == [Q[0]] + Q[1..];
    }
  }

  lemma {:induction false} KeptSubs(a: View, b: View, s: View)
    requires s in Kept(a, b)
    ensures Subs(s) <= Kept(a, b)
    decreases b
  {
    if k :| k in a.kids && k !in b.kids && s in Subs(a.kids[k]) {
      SubsWithin(a.kids[k], s);
      assert Subs(a.kids[k]) <= OnlyIn(a, b);
    } else if k :| k in b.kids && k !in a.kids && s in Subs(b.kids[k]) {
      SubsWithin(b.kids[k], s);
      assert Subs(b.kids[k]) <= OnlyIn(b, a);
    } else {
      var k :| k in a.kids && k in b.kids && s in Kept(a.kids[k], b.kids[k]);
      KeptSubs(a.kids[k], b.kids[k], s);
      assert Kept(a.kids[k], b.kids[k]) <= Kept(a, b);
    }
  }

  lemma GivenOne(h0: Heap, a: View, b: View, s: View, t: View)
    requires Given(h0, a, b) && s in Subs(a) + Subs(b) && t in Subs(a) + Subs(b) && ItemOf(s) == ItemOf(t)
    ensures s == t
  {
    if s in Subs(a) { SubsShownIn(h0, a, s); } else { SubsShownIn(h0, b, s); }
    if t in Subs(a) { SubsShownIn(h0, a, t); } else { SubsShownIn(h0, b, t); }
    OneViewIn(h0, s, t);
  }

  /** No dictionary above the settings is a part of what they become. */
  lemma NoneAbove(h0: Heap, a: View, b: View, y: View, R: Path, p: (View, View), s: View)
    requires Given(h0, a, b) && Harmless(a, b) && p in Pairs(a, b) && p.0.Node? && p.1.Node? && Changes(p)
    requires y in Subs(b) && Reached(y, R) == Some(p.0) && R != [] && s in Subs(Merge(p.0, p.1))
    ensures ItemOf(s) != ItemOf(y)
  {
    if ItemOf(s) == ItemOf(y) {
      hide Merge, Kept, Pairs, Subs, Given, Changes;
      ReachedPart(y, R, p.0);
      PairsSeen(a, b, p);
      SubsOfMerge(p.0, p.1, s);
      var P := PairHasPath(a, b, p);
      PairIsSeen(a, b, P);
      if s in Kept(p.0, p.1) {
        KeptSeen(a, b, s);
        GivenOne(h0, a, b, s, y);
        KeptSubs(a, b, s);
      } else {
        var r :| r in Pairs(p.0, p.1) && s == Merge(r.0, r.1);
        MergedItem(r.0, r.1);
        PairsSeen(p.0, p.1, r);
        SubsWithin(a, p.0);
        GivenOne(h0, a, b, r.0, y);
        SubSmaller(p.0, r.0);
      }
    }
  }

  lemma ReadingFollows(h0: Heap, g: Heap, a: View, b: View, p: (View, View), Q: Path, q: (View, View), R: Path)
    requires Given(h0, a, b) && Harmless(a, b) && p in Pairs(a, b) && p.0.Node? && p.1.Node? && Changes(p)
    requires PairAt(a, b, Q) == Some(q) && p.0 == q.1 && ShowsIn(g, Merge(p.0, p.1))
    ensures Follows(Reading(b, Q, Merge(p.0, p.1), R), b, Q)
    ensures Follows(Reading(b, Q, Merge(p.0, p.1), R), Merge(p.0, p.1), R)
  {
    var u := Merge(p.0, p.1);
    hide Merge, Harmless, Changes, Follows, Along, PairAt, Pairs, Subs, Dicts, Given;
    GivenFacts(h0, a, b);
    AlongFollows(h0, b, Q);
    AlongFollows(g, u, R);
    PairReaches(a, b, Q, q);
    forall d | d in Along(b, Q)
      ensures d !in Along(u, R)
    {
      if d in Along(u, R) {
        var A := AlongHas(b, Q, d);
        var y := Reached(b, A).value;
        assert Q == A + Q[|A|..];
        ReachFurther(b, A, Q[|A|..]);
        ReachedPart(b, A, y);
        var s := DictHasSub(u, d);
        NoneAbove(h0, a, b, y, Q[|A|..], p, s);
      }
    }
    FollowsMore(Along(b, Q), Reading(b, Q, u, R), b, Q);
    FollowsMore(Along(u, R), Reading(b, Q, u, R), u, R);
  }

  lemma ReadingFacts(a: View, b: View, P: Path, p: (View, View))
    requires PairAt(a, b, P) == Some(p) && p.0.Node?
    ensures p in Pairs(a, b) && p.1.Node?
  {
    PairIsSeen(a, b, P);
  }

  /** Settings changed by a pair elsewhere are read last. */
  lemma CrossWrong(h0: Heap, a: View, b: View, P: Path, p: (View, View), Q: Path, q: (View, View), R: Path, depth: nat)
    requires Given(h0, a, b) && Harmless(a, b) && Changes(p) && PairAt(a, b, P) == Some(p) && PairAt(a, b, Q) == Some(q) && !(Q <= P) && !(P <= Q)
    requires p.0.Node? && q.0.Node? && p.0 == q.1 && Mismatch(Merge(q.0, q.1), Merge(p.0, p.1), R)
    ensures Closed(h0) && Within(h0, ItemOf(a)) && b.dict in h0 && !Right(h0, Last(Reading(b, Q, Merge(p.0, p.1), R)), a, b, depth)
  {
    hide *;
    GivenFacts(h0, a, b);
    var m, w, ks := Merge(p.0, p.1), Merge(q.0, q.1), Reading(b, Q, Merge(p.0, p.1), R);
    if Right(h0, Last(ks), a, b, depth) {
      RightRun(h0, Last(ks), a, b, depth);
      var g := Run(h0, Last(ks), ItemOf(a), b.dict, depth).0;
      RunGrows(h0, Last(ks), ItemOf(a), b.dict, depth);
      NoPath(a, b);
      FinalPair(h0, g, a, b, [], (a, b));
      FinalPair(h0, g, a, b, P, p);
      ReadingFacts(a, b, P, p);
      ReadingFollows(h0, g, a, b, p, Q, q, R);
      var hq, dq := ReachLast(h0, h0, ks, a, b, depth, Q, q, P, p, m, false);
      MergedHead(p);
      MergedHead(q);
      SceneGuard(h0, hq, g, q, p.1);
      SameItems(w, q.0);
      LastVisit(hq, ks, w, m, dq, R);
    }
  }

  lemma NoPath(a: View, b: View)
    requires b.Node?
    ensures PairAt(a, b, []) == Some((a, b))
  {
  }

  lemma RightRun(h0: Heap, order: Order, a: View, b: View, depth: nat)
    requires Closed(h0) && Within(h0, ItemOf(a)) && b.Node? && b.dict in h0 && Orderly(order) && Right(h0, order, a, b, depth)
    ensures var r := Run(h0, order, ItemOf(a), b.dict, depth); r.1 && ShowsIn(r.0, Merge(a, b))
  {
  }

  lemma SameItems(w: View, x: View)
    requires w.Node? && x.Node? && w.dict == x.dict
    ensures ItemOf(w) == ItemOf(x)
  {
  }

  lemma SceneGuard(h0: Heap, h: Heap, g: Heap, q: (View, View), s: View)
    requires Scene(h0, h, g, q.0, q.1)
    ensures Guarded(h, Merge(q.0, q.1), Merge(q.1, s)) && ShowsIn(g, Merge(q.0, q.1))
  {
    MergedGuard(h0, q.0, q.1, s);
    GuardStays(h0, h, Merge(q.0, q.1), Merge(q.1, s));
  }

  /** Settings changed by a round of their own loop are read last. */
  lemma NestedWrong(h0: Heap, a: View, b: View, P: Path, p: (View, View), Q: Path, q: (View, View), R: Path, depth: nat)
    requires Given(h0, a, b) && Harmless(a, b) && Changes(p) && PairAt(a, b, P) == Some(p) && PairAt(a, b, Q) == Some(q) && Q < P
    requires p.0.Node? && q.0.Node? && p.0 == q.1 && Mismatch(Merge(q.0, q.1), Merge(p.0, p.1), R)
    requires R != [] && R[0] != P[|Q|] && R[0] in q.1.kids
    ensures Closed(h0) && Within(h0, ItemOf(a)) && b.dict in h0 && !Right(h0, Last(Reading(b, Q, Merge(p.0, p.1), R)), a, b, depth)
  {
    hide *;
    GivenFacts(h0, a, b);
    MismatchStarts(Merge(q.0, q.1), Merge(p.0, p.1), R);
    var ks := Reading(b, Q, Merge(p.0, p.1), R);
    if Right(h0, Last(ks), a, b, depth) {
      RightRun(h0, Last(ks), a, b, depth);
      var g := Run(h0, Last(ks), ItemOf(a), b.dict, depth).0;
      RunGrows(h0, Last(ks), ItemOf(a), b.dict, depth);
      NoPath(a, b);
      FinalPair(h0, g, a, b, [], (a, b));
      FinalPair(h0, g, a, b, P, p);
      ReadingFacts(a, b, P, p);
      ReadingFollows(h0, g, a, b, p, Q, q, R);
      NothingLaid(h0);
      var hq, dq := ReachLast(h0, h0, ks, a, b, depth, Q, q, [], p, Leaf(Text("")), true);
      ItemIsTable(q.0);
      NestedRead(h0, hq, ks, a, b, P, p, Q, q, R, dq, g);
    }
  }

  lemma MismatchStarts(v: View, u: View, R: Path)
    requires Mismatch(v, u, R)
    ensures R != [] && u.Node? && R[0] in u.kids
  {
  }

  lemma NothingLaid(h: Heap)
    ensures AllLaid(h, Leaf(Text("")))
  {
  }

  lemma NestedRead(h0: Heap, hq: Heap, ks: map<Dict, string>, a: View, b: View, P: Path, p: (View, View), Q: Path, q: (View, View), R: Path,
                   depth: nat, g: Heap)
    requires PairAt(a, b, P) == Some(p) && PairAt(a, b, Q) == Some(q) && Q < P && R != [] && Follows(ks, Merge(p.0, p.1), R)
    requires p.0.Node? && q.0.Node? && p.0 == q.1 && R[0] != P[|Q|] && R[0] in q.1.kids
    requires Closed(hq) && q.0.dict in hq && q.1.dict in hq && Scene(h0, hq, g, q.0, q.1) && ShowsIn(g, Merge(p.0, p.1))
    requires Within(hq, ItemOf(q.0)) && Run(hq, Last(ks), ItemOf(q.0), q.1.dict, depth) == (g, true)
    ensures !Mismatch(Merge(q.0, q.1), Merge(p.0, p.1), R)
  {
    var S := P[|Q|..];
    assert P == Q + S && S != [] && S[0] == P[|Q|];
    hide *;
    PairFurther(a, b, Q, S);
    var hl := BeforeNested(h0, hq, ks, p, q, R, S, depth, g);
    SceneGuard(h0, hl, g, q, p.1);
    MergedHead(p);
    MergedHead(q);
    LastRound(hl, ks, Merge(q.0, q.1), Merge(p.0, p.1), depth, R);
  }

  /** The heap before the last round over q, with the pair below q laid by an earlier one. */
  lemma BeforeNested(h0: Heap, hq: Heap, ks: map<Dict, string>, p: (View, View), q: (View, View), R: Path, S: Path, depth: nat, g: Heap)
    returns (hl: Heap)
    requires q.1.Node? && PairAt(q.0, q.1, S) == Some(p) && R != [] && Follows(ks, Merge(p.0, p.1), R) && S != [] && p.0 == q.1
    requires p.0.Node? && q.0.Node? && R[0] != S[0] && R[0] in q.1.kids
    requires Closed(hq) && q.0.dict in hq && q.1.dict in hq && Scene(h0, hq, g, q.0, q.1)
    requires Within(hq, ItemOf(q.0)) && Run(hq, Last(ks), ItemOf(q.0), q.1.dict, depth) == (g, true)
    ensures Closed(hl) && q.0.dict in hl && q.1.dict in hl && depth > 0 && R[0] in hl[q.1.dict]
    ensures AllLaid(hl, Merge(p.0, p.1)) && Scene(h0, hl, g, q.0, q.1)
    ensures RunKey(hl, Last(ks), q.0.dict, q.1.dict, R[0], depth) == (g, true)
  {
    hide *;
    StepOnPath(q.0, q.1, S, p);
    SceneFacts(h0, hq, g, q.0, q.1);
    var all := hq[q.1.dict].Keys;
    MergedHead(p);
    LastKey(ks, Merge(p.0, p.1), R, all);
    var keys := Listed(Last(ks), q.1.dict, all);
    ItemIsTable(q.0);
    DeepRun(hq, Last(ks), ItemOf(q.0), q.1.dict, depth);
    RunIsLoop(hq, Last(ks), q.0, q.1.dict, depth);
    ListHas(keys, all, S[0]);
    var hj;
    hj, hl := BeforeEarlier(hq, Last(ks), q.0.dict, q.1.dict, keys, all, depth, S[0]);
    KeyGrows(hl, Last(ks), q.0.dict, q.1.dict, R[0], depth);
    EarlierLays(h0, hq, hj, hl, g, Last(ks), q.0, q.1, depth, S, p);
    RunKeyGrown(hq, hj, hl, Last(ks), q.0.dict, q.1.dict, S[0], depth);
    SceneMoves(h0, hq, hl, g, q.0, q.1);
  }

  lemma ListHas(keys: seq<string>, all: set<string>, k: string)
    requires Lists(keys, all) && k in all
    ensures k in keys
  {
  }

  lemma Unharmless(h0: Heap, order: Order, a: View, b: View, depth: nat)
    requires Given(h0, a, b) && !Harmless(a, b) && Orderly(order)
    ensures Closed(h0) && Within(h0, ItemOf(a)) && b.dict in h0 && !Right(h0, order, a, b, depth)
  {
    GivenFacts(h0, a, b);
    hide Harmless, Merge, Run, ShowsIn;
    if Right(h0, order, a, b, depth) {
      var g := Run(h0, order, ItemOf(a), b.dict, depth).0;
      AgreeIn(g, Merge(a, b), Merge(a, b));
      ConsistentIsHarmless(a, b);
    }
  }

  lemma SharedPair(h0: Heap, a: View, b: View, P: Path, p: (View, View), Q: Path, q: (View, View))
    requires Given(h0, a, b) && PairAt(a, b, P) == Some(p) && PairAt(a, b, Q) == Some(q) && Rewrites(p, q)
    ensures p.0 == q.1
  {
    hide PairAt, Merge, Pairs, Subs;
    PairIsSeen(a, b, P);
    PairIsSeen(a, b, Q);
    SubsShownIn(h0, a, p.0);
    SubsShownIn(h0, b, q.1);
    OneViewIn(h0, p.0, q.1);
  }

  /** Settings that are misread somewhere. */
  lemma Misread(h0: Heap, a: View, b: View, P: Path, p: (View, View), Q: Path, q: (View, View)) returns (order: Order)
    requires Given(h0, a, b) && Mergeable(a, b) && Harmless(a, b)
    requires PairAt(a, b, P) == Some(p) && PairAt(a, b, Q) == Some(q) && P != Q && !ReadsWellAt(P, p, Q, q)
    ensures Orderly(order) && Closed(h0) && Within(h0, ItemOf(a)) && b.dict in h0
    ensures forall depth: nat :: !Right(h0, order, a, b, depth)
  {
    SharedPair(h0, a, b, P, p, Q, q);
    var m, w := Merge(p.0, p.1), Merge(q.0, q.1);
    GivenFacts(h0, a, b);
    if Q < P && m.kids.Keys != q.1.kids.Keys {
      order := First(Along(b, P));
      hide *;
      forall depth: nat ensures !Right(h0, order, a, b, depth) {
        GrowingWrong(h0, a, b, P, p, Q, q, depth);
      }
    } else {
      var k :| k in m.kids && !SameAt(q, m, k) && (Q < P ==> k != P[|Q|]);
      var R := KeyMismatch(w, m, k);
      order := Last(Reading(b, Q, m, R));
      if Q < P {
        hide *;
        MismatchStarts(w, m, R);
        forall depth: nat ensures !Right(h0, order, a, b, depth) {
          NestedWrong(h0, a, b, P, p, Q, q, R, depth);
        }
      } else {
        if P < Q {
          assert Q == P + Q[|P|..];
          PairFurther(a, b, P, Q[|P|..]);
          PairReaches(p.0, p.1, Q[|P|..], q);
          NotInside(a, b, P, p, Q[|P|..]);
          assert false;
        }
        hide *;
        forall depth: nat ensures !Right(h0, order, a, b, depth) {
          CrossWrong(h0, a, b, P, p, Q, q, R, depth);
        }
      }
    }
  }

  /** Where sharing does harm, or a scalar or changed settings stand in the way, some order of the keys fails or leaves
      another configuration, whatever the recursion limit. */
  lemma WrongOrder(h0: Heap, a: View, b: View) returns (order: Order)
    requires Given(h0, a, b) && !(Mergeable(a, b) && Harmless(a, b) && ReadsWell(a, b))
    ensures Orderly(order) && Closed(h0) && Within(h0, ItemOf(a)) && b.dict in h0
    ensures forall depth: nat :: !Right(h0, order, a, b, depth)
  {
    if !Mergeable(a, b) {
      var Q, q := Unmergeable(a, b);
      order := First(Along(b, Q));
      hide *;
      GivenFacts(h0, a, b);
      forall depth: nat ensures !Right(h0, order, a, b, depth) {
        ScalarFirst(h0, a, b, Q, q, depth);
      }
    } else if !Harmless(a, b) {
      order := First(map[]);
      hide *;
      GivenFacts(h0, a, b);
      forall depth: nat ensures !Right(h0, order, a, b, depth) {
        Unharmless(h0, order, a, b, depth);
      }
    } else {
      var P, Q :| P != Q && PairAt(a, b, P).Some? && PairAt(a, b, Q).Some? &&
        !ReadsWellAt(P, PairAt(a, b, P).value, Q, PairAt(a, b, Q).value);
      hide *;
      order := Misread(h0, a, b, P, PairAt(a, b, P).value, Q, PairAt(a, b, Q).value);
    }
  }
}
