/** Under the condition, every run of the merge ends with the merged configuration. */
module MergesRight {
  import opened Results
  import opened RetryConfigs
  import opened RetryConfigSharing
  import opened MergeRuns
  import opened MergeSafety

  /** Both configurations as one heap shows them, with sharing that does no harm. */
  ghost predicate Setting(h0: Heap, a: View, b: View) {
    Closed(h0) && a.Node? && b.Node? && ShowsIn(h0, a) && ShowsIn(h0, b) && Harmless(a, b) && ReadsWell(a, b)
  }

  lemma OneInSetting(h0: Heap, a: View, b: View, s: View, t: View)
    requires Setting(h0, a, b) && s in Subs(a) + Subs(b) && t in Subs(a) + Subs(b) && ItemOf(s) == ItemOf(t)
    ensures s == t
  {
    AgreeIn(h0, a, a);
    AgreeIn(h0, a, b);
    AgreeIn(h0, b, b);
  }

  /** No scalar stands in the way. */
  ghost predicate Passable(a: View, b: View) {
    Mergeable(a, b) && ScalarsRead(a, b)
  }

  // ----- While the merge is under way

  /** Every entry is what it was or what it is to become. */
  ghost predicate Between(e: map<string, Item>, x: View, w: View) {
    && x.Node? && w.Node? && x.kids.Keys <= e.Keys <= w.kids.Keys
    && forall k :: k in e ==> e[k] == ItemOf(w.kids[k]) || (k in x.kids && e[k] == ItemOf(x.kids[k]))
  }

  ghost predicate PairMid(h: Heap, p: (View, View)) {
    p.0.Node? && p.0.dict in h && Between(h[p.0.dict], p.0, Merge(p.0, p.1))
  }

  ghost predicate Mid(h0: Heap, h: Heap, a: View, b: View) {
    && Closed(h) && h.Keys == h0.Keys
    && (forall p :: p in Pairs(a, b) ==> PairMid(h, p))
    && forall d :: d in h && h[d] != h0[d] ==> d in Overridden(a, b)
  }

  /** Entries only turn into what they are to become. */
  ghost predicate Advance(h: Heap, g: Heap, a: View, b: View) {
    forall p :: p in Pairs(a, b) ==> PairAdvance(h, g, p)
  }

  ghost predicate PairAdvance(h: Heap, g: Heap, p: (View, View)) {
    p.0.Node? && p.0.dict in h && p.0.dict in g && h[p.0.dict].Keys <= g[p.0.dict].Keys &&
    var w := Merge(p.0, p.1);
    w.Node? && forall k :: k in h[p.0.dict] ==>
      g[p.0.dict][k] == h[p.0.dict][k] || (k in w.kids && g[p.0.dict][k] == ItemOf(w.kids[k]))
  }

  ghost predicate Changed(h: Heap, g: Heap, dicts: set<Dict>) {
    g.Keys == h.Keys && forall d :: d in h && g[d] != h[d] ==> d in dicts
  }

  ghost predicate PairDone(h: Heap, p: (View, View)) {
    p.0.Node? && p.0.dict in h && Merge(p.0, p.1).Node? && h[p.0.dict] == EntriesOf(Merge(p.0, p.1))
  }

  lemma AdvanceAll(h: Heap, g: Heap, f: Heap, a: View, b: View)
    requires Advance(h, g, a, b) && Advance(g, f, a, b)
    ensures Advance(h, f, a, b)
  {
    forall p | p in Pairs(a, b)
      ensures PairAdvance(h, f, p)
    {
      assert PairAdvance(h, g, p) && PairAdvance(g, f, p);
      hide Merge;
    }
  }

  lemma DoneStays(h: Heap, g: Heap, p: (View, View))
    requires PairDone(h, p) && PairAdvance(h, g, p) && PairMid(g, p)
    ensures PairDone(g, p)
  {
    hide Merge;
    var w := Merge(p.0, p.1);
    assert forall k :: k in g[p.0.dict] ==> g[p.0.dict][k] == ItemOf(w.kids[k]);
    assert g[p.0.dict].Keys == w.kids.Keys;
  }

  /** A pair that the merge does not change stays as it was. */
  lemma Unchanging(h: Heap, p: (View, View))
    requires PairMid(h, p) && Merge(p.0, p.1) == p.0
    ensures p.0.dict in h && h[p.0.dict] == EntriesOf(p.0)
  {
    hide Merge;
  }

  /** What the merge leaves alone is still what it was. */
  lemma KeptEntries(h0: Heap, h: Heap, a: View, b: View, s: View)
    requires Setting(h0, a, b) && Mid(h0, h, a, b) && s in Kept(a, b)
    ensures s.Node? && s.dict in h && h[s.dict] == EntriesOf(s)
  {
    hide Harmless, ReadsWell, Between, Merge;
    KeptSeen(a, b, s);
    if s in Subs(a) { SubsShownIn(h0, a, s); } else { SubsShownIn(h0, b, s); }
    if h[s.dict] != h0[s.dict] {
      var p := OverriddenHasPair(a, b, s.dict);
      PairsSeen(a, b, p);
      OneInSetting(h0, a, b, s, p.0);
      KeptUnchanging(a, b, p);
      assert PairMid(h, p);
      Unchanging(h, p);
    }
  }

  lemma KeptUnchanging(a: View, b: View, p: (View, View))
    requires Harmless(a, b) && p in Pairs(a, b) && p.0 in Kept(a, b)
    ensures Merge(p.0, p.1) == p.0
  {
    hide Merge;
    assert !Changes(p);
  }

  lemma KeptShown(h0: Heap, h: Heap, a: View, b: View, v: View)
    requires Setting(h0, a, b) && Mid(h0, h, a, b) && Subs(v) <= Kept(a, b)
    ensures ShowsIn(h, v)
  {
    forall s | s in Subs(v)
      ensures s.Node? && s.dict in h && h[s.dict] == EntriesOf(s)
    {
      KeptEntries(h0, h, a, b, s);
    }
    EachShown(h, v);
  }

  /** Pairs with one first dictionary come to the same. */
  lemma SamePair(h0: Heap, a: View, b: View, p: (View, View), q: (View, View))
    requires Setting(h0, a, b) && p in Pairs(a, b) && q in Pairs(a, b)
    requires p.0.Node? && q.0.Node? && p.0.dict == q.0.dict
    ensures p.0 == q.0 && Merge(p.0, p.1) == Merge(q.0, q.1)
  {
    hide Merge;
    PairsSeen(a, b, p);
    PairsSeen(a, b, q);
    OneInSetting(h0, a, b, p.0, q.0);
  }

  /** One write of what is to be. */
  lemma OneWrite(h0: Heap, h: Heap, a: View, b: View, q: (View, View), k: string)
    requires Setting(h0, a, b) && Mid(h0, h, a, b) && q in Pairs(a, b)
    requires q.0.Node? && q.0.dict in h && Merge(q.0, q.1).Node? && k in Merge(q.0, q.1).kids
    requires Within(h, ItemOf(Merge(q.0, q.1).kids[k]))
    ensures
      var g := h[q.0.dict := h[q.0.dict][k := ItemOf(Merge(q.0, q.1).kids[k])]];
      Mid(h0, g, a, b) && Advance(h, g, a, b) && Changed(h, g, {q.0.dict})
  {
    assert Closed(h);
    hide *;
    var item := ItemOf(Merge(q.0, q.1).kids[k]);
    var g := h[q.0.dict := h[q.0.dict][k := item]];
    WriteClosed(h, q.0.dict, k, item);
    PairIsOverridden(a, b, q);
    forall p | p in Pairs(a, b)
      ensures PairMid(g, p) && PairAdvance(h, g, p)
    {
      MidAt(h0, h, a, b, p);
      if p.0.dict == q.0.dict {
        SamePair(h0, a, b, p, q);
        WrittenPair(h, p, k);
      } else {
        OtherPair(h, p, q.0.dict, k, item);
      }
    }
    MidAndAdvance(h0, h, g, a, b, q.0.dict);
  }

  lemma MidAt(h0: Heap, h: Heap, a: View, b: View, p: (View, View))
    requires Mid(h0, h, a, b) && p in Pairs(a, b)
    ensures PairMid(h, p) && p.0.Node? && Merge(p.0, p.1).Node?
  {
    hide Merge, Pairs;
  }

  lemma WriteClosed(h: Heap, d: Dict, k: string, item: Item)
    requires Closed(h) && d in h && Within(h, item)
    ensures Closed(h[d := h[d][k := item]])
  {
  }

  lemma WrittenPair(h: Heap, p: (View, View), k: string)
    requires PairMid(h, p) && k in Merge(p.0, p.1).kids
    ensures
      var g := h[p.0.dict := h[p.0.dict][k := ItemOf(Merge(p.0, p.1).kids[k])]];
      PairMid(g, p) && PairAdvance(h, g, p)
  {
    hide Merge;
  }

  lemma OtherPair(h: Heap, p: (View, View), d: Dict, k: string, item: Item)
    requires PairMid(h, p) && d in h && d != p.0.dict
    ensures PairMid(h[d := h[d][k := item]], p) && PairAdvance(h, h[d := h[d][k := item]], p)
  {
    hide Merge;
  }

  lemma MidAndAdvance(h0: Heap, h: Heap, g: Heap, a: View, b: View, d: Dict)
    requires Mid(h0, h, a, b) && Closed(g) && g.Keys == h.Keys && d in h && d in Overridden(a, b) && g == h[d := g[d]]
    requires forall p :: p in Pairs(a, b) ==> PairMid(g, p) && PairAdvance(h, g, p)
    ensures Mid(h0, g, a, b) && Advance(h, g, a, b) && Changed(h, g, {d})
  {
    hide PairMid, PairAdvance, Pairs, Overridden;
  }

  // ----- What was merged before

  /** A dictionary below a pair that has been merged. */
  ghost predicate MergedBelow(h: Heap, a: View, b: View, beta: Path, d: Dict) {
    PairAt(a, b, beta).Some? &&
    var q := PairAt(a, b, beta).value;
    d in Overridden(q.0, q.1) && forall r :: r in Pairs(q.0, q.1) ==> PairDone(h, r)
  }

  ghost predicate IsHead(a: View, b: View, P: Path, d: Dict) {
    PairAt(a, b, P).Some? && PairAt(a, b, P).value.0.Node? && PairAt(a, b, P).value.0.dict == d
  }

  /** On the way to Q: d was written into on this way, or below a pair beside it that is done. */
  ghost predicate Passed(h: Heap, a: View, b: View, Q: Path, d: Dict) {
    || (exists P {:trigger PairAt(a, b, P)} :: P < Q && IsHead(a, b, P, d))
    || exists beta {:trigger Leaves(beta, Q)} :: Leaves(beta, Q) && MergedBelow(h, a, b, beta, d)
  }

  ghost predicate Told(h0: Heap, h: Heap, a: View, b: View, Q: Path) {
    h.Keys == h0.Keys && forall d :: d in h && h[d] != h0[d] ==> Passed(h, a, b, Q, d)
  }

  /** The entry that leads to Q holds the settings that are met there. */
  ghost predicate Entered(h: Heap, a: View, b: View, Q: Path) {
    Q != [] && PairAt(a, b, Q).Some? ==>
      var r, k := PairAt(a, b, Q[..|Q| - 1]), Q[|Q| - 1];
      r.Some? && r.value.1.dict in h && k in h[r.value.1.dict] && h[r.value.1.dict][k].Table?
  }

  lemma PassedStays(h0: Heap, h: Heap, g: Heap, a: View, b: View, Q: Path, d: Dict, k: string)
    requires Passed(h, a, b, Q, d) && Advance(h, g, a, b) && Mid(h0, g, a, b)
    ensures Passed(g, a, b, Q + [k], d)
  {
    if P :| P < Q && IsHead(a, b, P, d) {
      assert P < Q + [k];
    } else {
      var beta :| Leaves(beta, Q) && MergedBelow(h, a, b, beta, d);
      LeavesBelow(beta, Q, k);
      MergedStays(h0, h, g, a, b, beta, d);
    }
  }

  lemma MergedStays(h0: Heap, h: Heap, g: Heap, a: View, b: View, beta: Path, d: Dict)
    requires MergedBelow(h, a, b, beta, d) && Advance(h, g, a, b) && Mid(h0, g, a, b)
    ensures MergedBelow(g, a, b, beta, d)
  {
    hide PairAt, Overridden, Pairs, Merge, Between;
    PairIsSeen(a, b, beta);
    var q := PairAt(a, b, beta).value;
    forall r | r in Pairs(q.0, q.1)
      ensures PairDone(g, r)
    {
      assert q.0.Node? by { PairsHaveNodes(q); }
      assert PairAdvance(h, g, r) && PairMid(g, r);
      DoneStays(h, g, r);
    }
  }

  lemma PairsHaveNodes(q: (View, View))
    ensures Pairs(q.0, q.1) != {} ==> q.0.Node?
  {
  }

  // ----- What is read

  /** The dictionaries written so far, when the rounds of q over `done` are over. */
  ghost function SoFar(a: View, b: View, Q: Path, q: (View, View), done: set<string>): set<Dict>
    requires PairAt(a, b, Q) == Some(q) && q.0.Node?
  {
    Outside(a, b, Q) + {q.0.dict} + Below(q, done)
  }

  lemma BelowHasPath(a: View, b: View, Q: Path, q: (View, View), done: set<string>, d: Dict) returns (P: Path)
    requires PairAt(a, b, Q) == Some(q) && q.0.Node? && d in Below(q, done)
    ensures Q < P && P[|Q|] in done && PairAt(a, b, P).Some?
    ensures var p := PairAt(a, b, P).value; p.0.Node? && p.0.dict == d
  {
    var j :| j in done && j in q.0.kids && j in q.1.kids && d in Overridden(q.0.kids[j], q.1.kids[j]);
    var p := OverriddenHasPair(q.0.kids[j], q.1.kids[j], d);
    var R := PairHasPath(q.0.kids[j], q.1.kids[j], p);
    assert PairAt(q.0, q.1, [j] + R) == Some(p) by { assert ([j] + R)[1..] == R; }
    PairFurther(a, b, Q, [j] + R);
    P := Q + ([j] + R);
  }

  /** Who else changes the settings that q reads, if they are changed. */
  lemma Changer(h0: Heap, h: Heap, a: View, b: View, Q: Path, q: (View, View), done: set<string>)
    returns (P: Path, p: (View, View))
    requires Setting(h0, a, b) && Mid(h0, h, a, b) && PairAt(a, b, Q) == Some(q) && q.0.Node?
    requires Changed(h0, h, SoFar(a, b, Q, q, done))
    requires q.1.dict in h && h[q.1.dict] != EntriesOf(q.1)
    ensures PairAt(a, b, P) == Some(p) && p in Pairs(a, b) && p.0 == q.1 && Changes(p) && P != Q
    ensures Q < P ==> P[|Q|] in done
  {
    hide Harmless, ReadsWell, Between, Merge, Overridden, Pairs, Outside, Below, PairAt;
    var d := q.1.dict;
    PairIsSeen(a, b, Q);
    SubsShownIn(h0, b, q.1);
    if d in Outside(a, b, Q) {
      P := OutsideHasPath(a, b, Q, d);
    } else if d in Below(q, done) {
      P := BelowHasPath(a, b, Q, q, done, d);
    } else {
      P := Q;
    }
    p := PairAt(a, b, P).value;
    PairIsSeen(a, b, P);
    OneInSetting(h0, a, b, p.0, q.1);
    MidAt(h0, h, a, b, p);
    if Merge(p.0, p.1) == p.0 {
      Unchanging(h, p);
    }
    ChangesIff(p);
    if P == Q {
      MergeSelf(q.0);
    }
  }

  lemma ChangesIff(p: (View, View))
    ensures Changes(p) <==> Merge(p.0, p.1) != p.0
  {
    hide Merge;
  }

  /** A scalar meets settings: they have no keys then, whoever changed them. */
  lemma ScalarReads(h0: Heap, h: Heap, a: View, b: View, Q: Path, q: (View, View))
    requires Setting(h0, a, b) && Mid(h0, h, a, b) && PairAt(a, b, Q) == Some(q) && q.0.Leaf?
    requires Told(h0, h, a, b, Q) && Entered(h, a, b, Q) && q.1.kids == map[] && Passable(a, b)
    ensures q.1.dict in h && h[q.1.dict] == map[]
  {
    hide Harmless, Between, Merge, Overridden, Pairs, PairAt, Mergeable, ScalarsRead;
    var d := q.1.dict;
    PairIsSeen(a, b, Q);
    SubsShownIn(h0, b, q.1);
    assert EntriesOf(q.1) == map[];
    if h[d] != h0[d] {
      if P :| P < Q && IsHead(a, b, P, d) {
        HeadAbove(h0, a, b, P, Q, q);
      } else {
        var beta :| Leaves(beta, Q) && MergedBelow(h, a, b, beta, d);
        ScalarBeside(h0, h, a, b, beta, Q, q);
      }
    }
  }

  /** No dictionary on the way is among the settings further down. */
  lemma HeadAbove(h0: Heap, a: View, b: View, P: Path, Q: Path, q: (View, View))
    requires Setting(h0, a, b) && Mergeable(a, b) && PairAt(a, b, Q) == Some(q)
    requires P < Q && PairAt(a, b, P).Some? && PairAt(a, b, P).value.0.Node?
    ensures PairAt(a, b, P).value.0.dict != q.1.dict
  {
    hide Harmless, ReadsWell, Merge, Overridden, Pairs, PairAt, Mergeable;
    var p, R := PairAt(a, b, P).value, Q[|P|..];
    assert Q == P + R;
    PairIsSeen(a, b, P);
    PairIsSeen(a, b, Q);
    PairFurther(a, b, P, R);
    PairReaches(p.0, p.1, R, q);
    NotInside(a, b, P, p, R);
    if p.0.dict == q.1.dict {
      OneInSetting(h0, a, b, p.0, q.1);
    }
  }

  /** Settings that a scalar meets, merged on the way beside it. */
  lemma ScalarBeside(h0: Heap, h: Heap, a: View, b: View, beta: Path, Q: Path, q: (View, View))
    requires Setting(h0, a, b) && Mid(h0, h, a, b) && PairAt(a, b, Q) == Some(q) && q.0.Leaf?
    requires Leaves(beta, Q) && MergedBelow(h, a, b, beta, q.1.dict)
    requires Entered(h, a, b, Q) && ScalarsRead(a, b) && q.1.kids == map[]
    ensures q.1.dict in h && h[q.1.dict] == map[]
  {
    hide *;
    var P, p := PairBeside(h0, h, a, b, beta, Q, q);
    ChangesIff(p);
    if Merge(p.0, p.1) == p.0 {
      Unchanging(h, p);
      NoEntries(p.0);
    } else {
      ScalarClause(a, b, P, p, Q, q);
      if Merge(p.0, p.1).kids == map[] {
        NoKeys(h, p);
      } else {
        OverruledEntry(h, a, b, beta, q.1.dict, Q);
        EnteredTable(h, a, b, Q);
      }
    }
  }

  lemma NoEntries(v: View)
    requires v.Node? && v.kids == map[]
    ensures EntriesOf(v) == map[]
  {
  }

  lemma EnteredTable(h: Heap, a: View, b: View, Q: Path)
    requires Entered(h, a, b, Q) && Q != [] && PairAt(a, b, Q).Some?
    ensures
      var r, k := PairAt(a, b, Q[..|Q| - 1]), Q[|Q| - 1];
      r.Some? && r.value.1.dict in h && k in h[r.value.1.dict] && h[r.value.1.dict][k].Table?
  {
    hide PairAt;
  }

  lemma ScalarClause(a: View, b: View, P: Path, p: (View, View), Q: Path, q: (View, View))
    requires ScalarsRead(a, b) && PairAt(a, b, P) == Some(p) && PairAt(a, b, Q) == Some(q) && q.0.Leaf?
    requires p.0 == q.1 && p.0.Node? && p.1.Node? && Changes(p)
    ensures Merge(p.0, p.1).kids == map[] || (Q != [] && Overruled(a, b, Branch(P, Q), Q))
  {
    hide Merge, PairAt, Changes;
    assert ScalarReadAt(a, b, P, p, Q, q);
    hide ScalarsRead;
  }

  lemma PairBeside(h0: Heap, h: Heap, a: View, b: View, beta: Path, Q: Path, q: (View, View))
    returns (P: Path, p: (View, View))
    requires Setting(h0, a, b) && Mid(h0, h, a, b) && PairAt(a, b, Q) == Some(q)
    requires Leaves(beta, Q) && MergedBelow(h, a, b, beta, q.1.dict)
    ensures PairAt(a, b, P) == Some(p) && p.0 == q.1 && p.0.Node? && p.1.Node? && PairMid(h, p) && Branch(P, Q) == beta
    ensures Merge(p.0, p.1).Node?
  {
    var s := PairAt(a, b, beta).value;
    hide *;
    PairBelowBranch(h, a, b, beta, q.1.dict);
    PairIsSeen(a, b, Q);
    p := OverriddenHasPair(s.0, s.1, q.1.dict);
    var R := PairHasPath(s.0, s.1, p);
    P := beta + R;
    PairFurther(a, b, beta, R);
    BranchIs(beta, P, Q);
    PairIsSeen(a, b, P);
    OneInSetting(h0, a, b, p.0, q.1);
    MidAt(h0, h, a, b, p);
  }

  lemma PairBelowBranch(h: Heap, a: View, b: View, beta: Path, d: Dict)
    requires MergedBelow(h, a, b, beta, d)
    ensures PairAt(a, b, beta).Some? && d in Overridden(PairAt(a, b, beta).value.0, PairAt(a, b, beta).value.1)
  {
    hide PairAt, Overridden;
  }

  /** An entry that was overruled is a scalar by now. */
  lemma OverruledEntry(h: Heap, a: View, b: View, beta: Path, d: Dict, Q: Path)
    requires MergedBelow(h, a, b, beta, d) && Overruled(a, b, beta, Q)
    ensures
      var r, k := PairAt(a, b, Q[..|Q| - 1]), Q[|Q| - 1];
      r.Some? && r.value.1.dict in h && k in h[r.value.1.dict] && h[r.value.1.dict][k].Plain?
  {
    hide Merge, Overridden;
    var s := PairAt(a, b, beta).value;
    var r, k := PairAt(a, b, Q[..|Q| - 1]).value, Q[|Q| - 1];
    var P :| beta <= P && PairAt(a, b, P).Some? && Overrules(PairAt(a, b, P).value, r.1, k);
    var p := PairAt(a, b, P).value;
    assert P == beta + P[|beta|..];
    PairFurther(a, b, beta, P[|beta|..]);
    PairIsSeen(s.0, s.1, P[|beta|..]);
    assert PairDone(h, p);
  }

  lemma NoKeys(h: Heap, p: (View, View))
    requires PairMid(h, p) && Merge(p.0, p.1).kids == map[]
    ensures p.0.Node? && p.0.dict in h && h[p.0.dict] == map[]
  {
    hide Merge;
    assert h[p.0.dict].Keys == {};
  }

  /** One entry of the settings as it is read: the old one, or one that would change nothing in the result. */
  lemma EntryRead(h0: Heap, h: Heap, a: View, b: View, Q: Path, q: (View, View), done: set<string>, k: string)
    returns (p: (View, View))
    requires Setting(h0, a, b) && Mid(h0, h, a, b) && PairAt(a, b, Q) == Some(q) && q.0.Node?
    requires Changed(h0, h, SoFar(a, b, Q, q, done)) && k !in done
    requires q.1.dict in h && k in h[q.1.dict] && (k in q.1.kids ==> h[q.1.dict][k] != ItemOf(q.1.kids[k]))
    ensures p in Pairs(a, b) && p.0 == q.1 && Merge(p.0, p.1).Node? && k in Merge(p.0, p.1).kids
    ensures h[q.1.dict][k] == ItemOf(Merge(p.0, p.1).kids[k]) && SameAt(q, Merge(p.0, p.1), k)
  {
    hide Harmless, Between, Merge, Overridden, Pairs, Outside, Below, PairAt, SameAt, SoFar;
    var P;
    P, p := Changer(h0, h, a, b, Q, q, done);
    MidAt(h0, h, a, b, p);
    assert ReadsWellAt(P, p, Q, q);
    EntryMid(h, p, k);
  }

  lemma EntryMid(h: Heap, p: (View, View), k: string)
    requires PairMid(h, p) && k in h[p.0.dict]
    ensures k in Merge(p.0, p.1).kids
    ensures h[p.0.dict][k] == ItemOf(Merge(p.0, p.1).kids[k]) || (k in p.0.kids && h[p.0.dict][k] == ItemOf(p.0.kids[k]))
  {
    hide Merge;
  }

  // ----- One round

  ghost predicate KeyDone(h: Heap, q: (View, View), k: string) {
    q.0.Node? && q.1.Node? && q.0.dict in h && (k in q.1.kids ==>
      && k in h[q.0.dict] && k in Merge(q.0, q.1).kids && h[q.0.dict][k] == ItemOf(Merge(q.0, q.1).kids[k])
      && (k in q.0.kids ==> forall r :: r in Pairs(q.0.kids[k], q.1.kids[k]) ==> PairDone(h, r)))
  }

  /** The loop over the settings of q, when the rounds over `done` are over; it started with hs. */
  ghost predicate Looping(h0: Heap, hs: Heap, h: Heap, a: View, b: View, Q: Path, q: (View, View), done: set<string>)
    requires PairAt(a, b, Q) == Some(q) && q.0.Node?
  {
    && Mid(h0, h, a, b) && Advance(hs, h, a, b)
    && Changed(h0, h, SoFar(a, b, Q, q, done)) && Changed(hs, h, {q.0.dict} + Below(q, done))
    && (forall k :: k in done ==> KeyDone(h, q, k))
    && (Overridden(a, b) !! Dicts(b) ==> forall k :: k in done && k in q.1.kids ==> KidMergeable(q.0, q.1, k))
  }

  lemma KeyStaysDone(h0: Heap, h: Heap, g: Heap, a: View, b: View, Q: Path, q: (View, View), k: string)
    requires PairAt(a, b, Q) == Some(q) && q.0.Node? && KeyDone(h, q, k)
    requires Advance(h, g, a, b) && Mid(h0, g, a, b)
    ensures KeyDone(g, q, k)
  {
    hide PairAt, Merge, Overridden, Between;
    PairIsSeen(a, b, Q);
    assert PairAdvance(h, g, q) && PairMid(g, q);
    if k in q.1.kids && k in q.0.kids {
      PairsBelow(q, k);
      forall r | r in Pairs(q.0.kids[k], q.1.kids[k])
        ensures PairDone(g, r)
      {
        assert PairAdvance(h, g, r) && PairMid(g, r);
        DoneStays(h, g, r);
      }
    }
  }

  lemma PairsBelow(q: (View, View), k: string)
    requires q.0.Node? && q.1.Node? && k in q.0.kids && k in q.1.kids
    ensures Pairs(q.0.kids[k], q.1.kids[k]) <= Pairs(q.0, q.1)
  {
  }

  /** What a round has to come to. */
  lemma RoundOver(h0: Heap, hs: Heap, h: Heap, g: Heap, a: View, b: View, Q: Path, q: (View, View), done: set<string>, k: string)
    requires PairAt(a, b, Q) == Some(q) && q.0.Node? && Looping(h0, hs, h, a, b, Q, q, done)
    requires Mid(h0, g, a, b) && Advance(h, g, a, b) && Changed(h, g, {q.0.dict} + Below(q, {k})) && KeyDone(g, q, k)
    requires Overridden(a, b) !! Dicts(b) && k in q.1.kids ==> KidMergeable(q.0, q.1, k)
    ensures Looping(h0, hs, g, a, b, Q, q, done + {k})
  {
    assert Below(q, done + {k}) == Below(q, done) + Below(q, {k});
    hide PairAt, Merge, Overridden, Mid, KeyDone, Below, Pairs, Advance;
    AdvanceAll(hs, h, g, a, b);
    forall j | j in done + {k}
      ensures KeyDone(g, q, j)
    {
      if j != k {
        KeyStaysDone(h0, h, g, a, b, Q, q, j);
      }
    }
    ChangedMore(h0, h, g, SoFar(a, b, Q, q, done), {q.0.dict} + Below(q, {k}), SoFar(a, b, Q, q, done + {k}));
    ChangedMore(hs, h, g, {q.0.dict} + Below(q, done), {q.0.dict} + Below(q, {k}), {q.0.dict} + Below(q, done + {k}));
  }

  lemma ChangedMore(h: Heap, g: Heap, f: Heap, one: set<Dict>, two: set<Dict>, all: set<Dict>)
    requires Changed(h, g, one) && Changed(g, f, two) && one + two <= all
    ensures Changed(h, f, all)
  {
  }

  /** All that a round is given. */
  ghost predicate Turn(h0: Heap, hs: Heap, h: Heap, order: Order, a: View, b: View, n: nat, Q: Path, q: (View, View), e: nat,
                       depth: nat, done: set<string>, k: string)
  {
    && Setting(h0, a, b) && Orderly(order) && PairAt(a, b, Q) == Some(q) && q.0.Node?
    && Looping(h0, hs, h, a, b, Q, q, done) && k !in done && Told(h0, hs, a, b, Q)
    && q.0.dict in h && q.1.dict in h && k in h[q.1.dict]
    && Deep(b, n) && Deep(q.1, e) && e > 0 && depth >= e + n
  }

  lemma TurnFacts(h0: Heap, hs: Heap, h: Heap, order: Order, a: View, b: View, n: nat, Q: Path, q: (View, View), e: nat,
                  depth: nat, done: set<string>, k: string)
    requires Turn(h0, hs, h, order, a, b, n, Q, q, e, depth, done, k)
    ensures Mid(h0, h, a, b) && Closed(h) && h.Keys == h0.Keys && q in Pairs(a, b) && PairMid(h, q) && Merge(q.0, q.1).Node?
    ensures Changed(h0, h, SoFar(a, b, Q, q, done))
    ensures forall j :: j in q.0.kids || j in q.1.kids ==> j in Merge(q.0, q.1).kids && Merge(q.0, q.1).kids[j] == MergedKid(q.0, q.1, j)
    ensures Kept(q.0, q.1) <= Kept(a, b) && Pairs(q.0, q.1) <= Pairs(a, b)
  {
    hide PairAt, Merge, Overridden, KeyDone, Between, Setting, SoFar, Kept, Pairs, MergedKid, Below;
    PairIsSeen(a, b, Q);
    forall j | j in q.0.kids || j in q.1.kids { MergedAt(q.0, q.1, j); }
  }

  /** The entry that is read is what the result is to have. */
  lemma RoundWrites(h0: Heap, hs: Heap, h: Heap, order: Order, a: View, b: View, n: nat, Q: Path, q: (View, View), e: nat,
                    depth: nat, done: set<string>, k: string)
    requires Turn(h0, hs, h, order, a, b, n, Q, q, e, depth, done, k)
    requires k in Merge(q.0, q.1).kids && h[q.1.dict][k] == ItemOf(Merge(q.0, q.1).kids[k])
    requires h[q.1.dict][k].Plain? || k !in h[q.0.dict]
    requires k in q.0.kids && k in q.1.kids ==> Pairs(q.0.kids[k], q.1.kids[k]) == {}
    requires Overridden(a, b) !! Dicts(b) && k in q.1.kids ==> KidMergeable(q.0, q.1, k)
    ensures Orderly(order) && Closed(h)
    ensures RunKey(h, order, q.0.dict, q.1.dict, k, depth).1
    ensures Looping(h0, hs, RunKey(h, order, q.0.dict, q.1.dict, k, depth).0, a, b, Q, q, done + {k})
  {
    TurnFacts(h0, hs, h, order, a, b, n, Q, q, e, depth, done, k);
    hide *;
    TurnIs(h0, hs, h, order, a, b, n, Q, q, e, depth, done, k);
    KeyWrites(h, order, q.0.dict, q.1.dict, k, depth);
    var g := RunKey(h, order, q.0.dict, q.1.dict, k, depth).0;
    ReadWithin(h, q.1.dict, k);
    OneWrite(h0, h, a, b, q, k);
    WrittenDone(h, q, k);
    ChangedWider(h, g, {q.0.dict}, {q.0.dict} + Below(q, {k}));
    RoundOver(h0, hs, h, g, a, b, Q, q, done, k);
  }

  lemma TurnIs(h0: Heap, hs: Heap, h: Heap, order: Order, a: View, b: View, n: nat, Q: Path, q: (View, View), e: nat,
               depth: nat, done: set<string>, k: string)
    requires Turn(h0, hs, h, order, a, b, n, Q, q, e, depth, done, k)
    ensures Setting(h0, a, b) && Orderly(order) && PairAt(a, b, Q) == Some(q) && q.0.Node? && Closed(h)
    ensures Told(h0, hs, a, b, Q)
    ensures Looping(h0, hs, h, a, b, Q, q, done) && k !in done && depth > n && depth >= e + n && Deep(b, n) && Deep(q.1, e) && e > 0
    ensures q.0.dict in h && q.1.dict in h && k in h[q.1.dict]
  {
    hide Setting, PairAt, Merge, Overridden, Below, KeyDone, Advance, Told;
  }

  lemma ReadWithin(h: Heap, y: Dict, k: string)
    requires Closed(h) && y in h && k in h[y]
    ensures Within(h, h[y][k])
  {
  }

  lemma WrittenDone(h: Heap, q: (View, View), k: string)
    requires q.0.Node? && q.1.Node? && q.0.dict in h && k in Merge(q.0, q.1).kids
    requires k in q.0.kids && k in q.1.kids ==> Pairs(q.0.kids[k], q.1.kids[k]) == {}
    ensures KeyDone(h[q.0.dict := h[q.0.dict][k := ItemOf(Merge(q.0, q.1).kids[k])]], q, k)
  {
    hide Merge, Pairs;
  }

  lemma ChangedWider(h: Heap, g: Heap, one: set<Dict>, all: set<Dict>)
    requires Changed(h, g, one) && one <= all
    ensures Changed(h, g, all)
  {
  }

  /** Nothing happens in a round that merges what is there already. */
  lemma RoundQuiet(h0: Heap, hs: Heap, h: Heap, order: Order, a: View, b: View, n: nat, Q: Path, q: (View, View), e: nat,
                   depth: nat, done: set<string>, k: string, x: View, y: View)
    requires Turn(h0, hs, h, order, a, b, n, Q, q, e, depth, done, k)
    requires k in h[q.0.dict] && h[q.0.dict][k] == ItemOf(x) && h[q.1.dict][k] == ItemOf(y) && y.Node?
    requires Merge(x, y) == x && Mergeable(x, y) && Subs(x) <= Kept(a, b) && Subs(y) <= Kept(a, b) && Deep(y, n)
    requires k in q.1.kids ==> k !in q.0.kids && k in Merge(q.0, q.1).kids && h[q.0.dict][k] == ItemOf(Merge(q.0, q.1).kids[k])
    ensures Orderly(order) && Closed(h)
    ensures RunKey(h, order, q.0.dict, q.1.dict, k, depth).1
    ensures Looping(h0, hs, RunKey(h, order, q.0.dict, q.1.dict, k, depth).0, a, b, Q, q, done + {k})
  {
    hide *;
    ItemIsTable(y);
    TurnFacts(h0, hs, h, order, a, b, n, Q, q, e, depth, done, k);
    TurnIs(h0, hs, h, order, a, b, n, Q, q, e, depth, done, k);
    KeptShown(h0, h, a, b, x);
    KeptShown(h0, h, a, b, y);
    Deeper(y, n, depth - 1);
    QuietRun(h, order, x, y, depth - 1);
    KeyMerges(h, order, q.0.dict, q.1.dict, k, depth);
    MidStill(h0, h, a, b);
    NoChange(h, {q.0.dict} + Below(q, {k}));
    QuietDone(h, q, k);
    if k in q.1.kids {
      FreshKey(q, k);
    }
    RoundOver(h0, hs, h, h, a, b, Q, q, done, k);
  }

  lemma QuietDone(h: Heap, q: (View, View), k: string)
    requires q.0.Node? && q.1.Node? && q.0.dict in h
    requires k in q.1.kids ==>
      k !in q.0.kids && k in h[q.0.dict] && k in Merge(q.0, q.1).kids && h[q.0.dict][k] == ItemOf(Merge(q.0, q.1).kids[k])
    ensures KeyDone(h, q, k)
  {
    hide Merge;
  }

  lemma FreshKey(q: (View, View), k: string)
    requires q.0.Node? && q.1.Node? && k in q.1.kids && k !in q.0.kids
    ensures KidMergeable(q.0, q.1, k)
  {
  }

  lemma NoChange(h: Heap, dicts: set<Dict>)
    ensures Changed(h, h, dicts)
  {
  }

  lemma MidStill(h0: Heap, h: Heap, a: View, b: View)
    requires Mid(h0, h, a, b)
    ensures Advance(h, h, a, b)
  {
    hide Merge, Pairs, Overridden;
  }

  // ----- The whole run

  /** What merging a pair comes to. */
  ghost predicate Comes(h0: Heap, h: Heap, r: (Heap, bool), a: View, b: View, q: (View, View)) {
    && (r.1 ==>
         && Mid(h0, r.0, a, b) && Advance(h, r.0, a, b) && Changed(h, r.0, Overridden(q.0, q.1))
         && (forall p :: p in Pairs(q.0, q.1) ==> PairDone(r.0, p))
         && (Overridden(a, b) !! Dicts(b) ==> Mergeable(q.0, q.1)))
    && (Passable(a, b) ==> r.1)
  }

  lemma SettingsKeys(h0: Heap, h: Heap, a: View, b: View, v: View)
    requires Setting(h0, a, b) && Mid(h0, h, a, b) && v in Subs(b)
    ensures v.Node? && v.dict in h && v.kids.Keys <= h[v.dict].Keys
  {
    hide Harmless, ReadsWell, Merge, Overridden, Pairs, Subs;
    SubsShownIn(h0, b, v);
    assert EntriesOf(v).Keys == v.kids.Keys;
    if h[v.dict] != h0[v.dict] {
      var p := OverriddenHasPair(a, b, v.dict);
      PairsSeen(a, b, p);
      OneInSetting(h0, a, b, v, p.0);
      assert PairMid(h, p);
    }
  }

  lemma VisitSeen(h0: Heap, h: Heap, a: View, b: View, Q: Path, q: (View, View))
    requires Setting(h0, a, b) && PairAt(a, b, Q) == Some(q) && Mid(h0, h, a, b)
    ensures Closed(h) && h.Keys == h0.Keys && Within(h, ItemOf(q.0)) && q.1.Node?
    ensures q.1.dict in h && q.1.kids.Keys <= h[q.1.dict].Keys
    ensures q.0.Node? ==> q in Pairs(a, b) && q.0.dict in h && Pairs(q.0, q.1) <= Pairs(a, b)
  {
    hide Harmless, ReadsWell, Merge, Overridden, Pairs, Subs, PairAt, PairMid;
    PairIsSeen(a, b, Q);
    SettingsKeys(h0, h, a, b, q.1);
    if q.0.Node? {
      SubsShownIn(h0, a, q.0);
    }
  }

  lemma VisitScalar(h0: Heap, h: Heap, order: Order, a: View, b: View, Q: Path, q: (View, View), depth: nat)
    requires Setting(h0, a, b) && Orderly(order) && PairAt(a, b, Q) == Some(q) && q.0.Leaf? && depth > 0
    requires Mid(h0, h, a, b) && Told(h0, h, a, b, Q) && Entered(h, a, b, Q)
    requires Closed(h) && h.Keys == h0.Keys && q.1.dict in h && q.1.kids.Keys <= h[q.1.dict].Keys
    ensures Comes(h0, h, Run(h, order, ItemOf(q.0), q.1.dict, depth), a, b, q)
  {
    var r := Run(h, order, ItemOf(q.0), q.1.dict, depth);
    assert r == (h, h[q.1.dict] == map[]);
    assert Pairs(q.0, q.1) == {} && Overridden(q.0, q.1) == {};
    assert Mergeable(q.0, q.1) <==> q.1.kids == map[];
    hide Setting, Pairs, Mid, Overridden, PairAt, Mergeable, Run, ScalarsRead, Told, Entered;
    MidStill(h0, h, a, b);
    NoChange(h, {});
    if r.1 {
      assert q.1.kids.Keys == {};
    }
    if Passable(a, b) {
      PassableHere(a, b, Q, q);
      ScalarReads(h0, h, a, b, Q, q);
    }
  }

  lemma PassableHere(a: View, b: View, Q: Path, q: (View, View))
    requires Passable(a, b) && PairAt(a, b, Q) == Some(q)
    ensures Mergeable(q.0, q.1)
  {
    hide ScalarsRead;
    PairIsSeen(a, b, Q);
  }

  lemma LoopStarts(h0: Heap, h: Heap, a: View, b: View, Q: Path, q: (View, View))
    requires PairAt(a, b, Q) == Some(q) && q.0.Node? && Mid(h0, h, a, b) && Changed(h0, h, Outside(a, b, Q))
    ensures Looping(h0, h, h, a, b, Q, q, {})
  {
    hide PairAt, Merge, Overridden, Pairs, Outside, Below;
    MidStill(h0, h, a, b);
  }

  lemma DeepHead(v: View, e: nat)
    requires Deep(v, e) && v.Node?
    ensures e > 0
  {
  }

  lemma LoopEnds(h0: Heap, h: Heap, g: Heap, a: View, b: View, Q: Path, q: (View, View), all: set<string>)
    requires PairAt(a, b, Q) == Some(q) && q.0.Node? && Looping(h0, h, g, a, b, Q, q, all) && q.1.kids.Keys <= all
    ensures Mid(h0, g, a, b) && Advance(h, g, a, b) && Changed(h, g, Overridden(q.0, q.1))
    ensures forall p :: p in Pairs(q.0, q.1) ==> PairDone(g, p)
    ensures Overridden(a, b) !! Dicts(b) ==> Mergeable(q.0, q.1)
  {
    hide PairAt, Overridden, Pairs, Mid, Advance, Merge, Below, SoFar, PairDone, KidMergeable;
    PairIsSeen(a, b, Q);
    BelowOverridden(q, all);
    KidsMergeable(q);
    forall p | p in Pairs(q.0, q.1)
      ensures PairDone(g, p)
    {
      PairEnds(h0, g, a, b, q, all, p);
    }
  }

  lemma KidsMergeable(q: (View, View))
    requires q.0.Node? && q.1.Node?
    ensures Mergeable(q.0, q.1) <==> forall k :: k in q.1.kids ==> KidMergeable(q.0, q.1, k)
  {
    hide KidMergeable;
  }

  lemma BelowOverridden(q: (View, View), all: set<string>)
    requires q.0.Node? && q.1.Node?
    ensures {q.0.dict} + Below(q, all) <= Overridden(q.0, q.1)
  {
  }

  lemma PairEnds(h0: Heap, g: Heap, a: View, b: View, q: (View, View), all: set<string>, p: (View, View))
    requires q in Pairs(a, b) && q.0.Node? && q.1.Node? && Mid(h0, g, a, b) && q.1.kids.Keys <= all && p in Pairs(q.0, q.1)
    requires forall k :: k in all ==> KeyDone(g, q, k)
    ensures PairDone(g, p)
  {
    if p == q {
      hide Pairs, PairMid, KeyDone;
      assert PairMid(g, q);
      HeadDone(g, q, all);
    } else {
      hide Mid, PairDone;
      var k :| k in q.0.kids && k in q.1.kids && p in Pairs(q.0.kids[k], q.1.kids[k]);
      assert KeyDone(g, q, k);
    }
  }

  lemma HeadDone(g: Heap, q: (View, View), all: set<string>)
    requires q.0.Node? && q.1.Node? && PairMid(g, q) && q.1.kids.Keys <= all && forall k :: k in all ==> KeyDone(g, q, k)
    ensures PairDone(g, q)
  {
    var w := Merge(q.0, q.1);
    forall k | k in w.kids
      ensures k in g[q.0.dict] && g[q.0.dict][k] == ItemOf(w.kids[k])
    {
      MergedAt(q.0, q.1, k);
      if k in q.1.kids { assert KeyDone(g, q, k); }
    }
    assert g[q.0.dict] == EntriesOf(w);
  }

  /** The entry of a merged pair under a key of the settings. */
  lemma EntryMidHere(h: Heap, q: (View, View), k: string)
    requires PairMid(h, q) && q.1.Node? && k in q.1.kids
    requires k in Merge(q.0, q.1).kids && Merge(q.0, q.1).kids[k] == MergedKid(q.0, q.1, k)
    ensures q.1.kids[k].Leaf? || k !in q.0.kids ==> Merge(q.0, q.1).kids[k] == q.1.kids[k]
    ensures k !in q.0.kids && k in h[q.0.dict] ==> h[q.0.dict][k] == ItemOf(q.1.kids[k])
    ensures k in q.0.kids ==> k in h[q.0.dict]
    ensures k in q.0.kids && q.1.kids[k].Node? ==>
      h[q.0.dict][k] == ItemOf(q.0.kids[k]) && ItemOf(Merge(q.0, q.1).kids[k]) == ItemOf(q.0.kids[k])
  {
    if k in q.0.kids && q.1.kids[k].Node? {
      MergedItem(q.0.kids[k], q.1.kids[k]);
    }
    hide Merge;
  }

  lemma LeafPairs(q: (View, View), k: string)
    requires q.0.Node? && q.1.Node? && k in q.1.kids && q.1.kids[k].Leaf?
    ensures KidMergeable(q.0, q.1, k) && (k in q.0.kids ==> Pairs(q.0.kids[k], q.1.kids[k]) == {})
  {
  }

  lemma OnlyKept(x: View, y: View, k: string)
    requires x.Node? && y.Node?
    ensures k in x.kids && k !in y.kids ==> Subs(x.kids[k]) <= Kept(x, y)
    ensures k in y.kids && k !in x.kids ==> Subs(y.kids[k]) <= Kept(x, y)
  {
    if k in x.kids && k !in y.kids {
      assert Subs(x.kids[k]) <= OnlyIn(x, y);
    }
    if k in y.kids && k !in x.kids {
      assert Subs(y.kids[k]) <= OnlyIn(y, x);
    }
  }

  lemma KidSeen(v: View, k: string)
    requires v.Node? && k in v.kids
    ensures Subs(v.kids[k]) <= Subs(v) && (v.kids[k].Node? ==> v.kids[k] in Subs(v))
  {
    if v.kids[k].Node? {
      assert v.kids[k] in Subs(v.kids[k]);
    }
  }

  /** Settings that the defaults do not have stay what they are. */
  lemma NewSettings(a: View, b: View, Q: Path, q: (View, View), n: nat, k: string)
    requires PairAt(a, b, Q) == Some(q) && q.0.Node? && Deep(b, n) && k in q.1.kids && k !in q.0.kids
    ensures Subs(q.1.kids[k]) <= Kept(a, b) && Deep(q.1.kids[k], n)
  {
    hide PairAt, Merge, Pairs, Kept, Subs, Deep;
    PairIsSeen(a, b, Q);
    OnlyKept(q.0, q.1, k);
    KidSeen(q.1, k);
    if q.1.kids[k].Node? {
      SubsWithin(b, q.1);
      DeepPart(b, q.1.kids[k], n);
    } else {
      DeepLeaf(q.1.kids[k], n);
    }
  }

  lemma DeepLeaf(v: View, n: nat)
    requires v.Leaf?
    ensures Deep(v, n)
  {
  }

  lemma {:induction false} SubsWithin(v: View, s: View)
    requires s in Subs(v)
    ensures Subs(s) <= Subs(v)
    decreases v
  {
    if s != v {
      var k :| k in v.kids && s in Subs(v.kids[k]);
      SubsWithin(v.kids[k], s);
    }
  }

  lemma {:induction false} Visit(h0: Heap, h: Heap, order: Order, a: View, b: View, n: nat, Q: Path, q: (View, View), e: nat,
                                 depth: nat)
    requires Setting(h0, a, b) && Orderly(order) && PairAt(a, b, Q) == Some(q)
    requires Mid(h0, h, a, b) && Changed(h0, h, Outside(a, b, Q)) && Told(h0, h, a, b, Q) && Entered(h, a, b, Q)
    requires Deep(b, n) && Deep(q.1, e) && depth >= e + n
    ensures Closed(h) && h.Keys == h0.Keys && Within(h, ItemOf(q.0)) && q.1.dict in h
    ensures Comes(h0, h, Run(h, order, ItemOf(q.0), q.1.dict, depth), a, b, q)
    decreases depth, 1, 0
  {
    hide *;
    VisitSeen(h0, h, a, b, Q, q);
    DeepHead(q.1, e);
    if q.0.Leaf? {
      VisitScalar(h0, h, order, a, b, Q, q, depth);
    } else {
      var all := h[q.1.dict].Keys;
      OrderLists(order, q.1.dict, all);
      LoopStarts(h0, h, a, b, Q, q);
      assert all - {} == all;
      Rounds(h0, h, h, order, a, b, n, Q, q, e, depth, {}, Listed(order, q.1.dict, all));
      RunIsLoop(h, order, q.0, q.1.dict, depth);
      var r := Run(h, order, ItemOf(q.0), q.1.dict, depth);
      if r.1 {
        LoopEnds(h0, h, r.0, a, b, Q, q, all);
      }
      ComesOut(h0, h, r, a, b, q);
    }
  }

  lemma ComesOut(h0: Heap, h: Heap, r: (Heap, bool), a: View, b: View, q: (View, View))
    requires r.1 ==> Mid(h0, r.0, a, b) && Advance(h, r.0, a, b) && Changed(h, r.0, Overridden(q.0, q.1))
    requires r.1 ==> forall p :: p in Pairs(q.0, q.1) ==> PairDone(r.0, p)
    requires r.1 && Overridden(a, b) !! Dicts(b) ==> Mergeable(q.0, q.1)
    requires Passable(a, b) ==> r.1
    ensures Comes(h0, h, r, a, b, q)
  {
    hide Mid, Advance, Changed, Pairs, Overridden, Mergeable, PairDone, Passable;
  }

  lemma {:induction false} Rounds(h0: Heap, hs: Heap, h: Heap, order: Order, a: View, b: View, n: nat, Q: Path, q: (View, View),
                                  e: nat, depth: nat, done: set<string>, keys: seq<string>)
    requires Setting(h0, a, b) && Orderly(order) && PairAt(a, b, Q) == Some(q) && q.0.Node? && q.1.Node?
    requires Told(h0, hs, a, b, Q)
    requires q.1.dict in hs && q.0.dict in h0 && Mid(h0, hs, a, b) && Looping(h0, hs, h, a, b, Q, q, done)
    requires Lists(keys, hs[q.1.dict].Keys - done) && done <= hs[q.1.dict].Keys
    requires Deep(b, n) && Deep(q.1, e) && e > 0 && depth >= e + n
    ensures Closed(h) && h.Keys == h0.Keys == hs.Keys && forall i :: 0 <= i < |keys| ==> keys[i] in hs[q.1.dict].Keys
    ensures
      var r := RunKeys(h, order, q.0.dict, q.1.dict, keys, hs[q.1.dict].Keys, depth);
      (r.1 ==> Looping(h0, hs, r.0, a, b, Q, q, hs[q.1.dict].Keys)) && (Passable(a, b) ==> r.1)
    decreases depth, 0, |keys|
  {
    hide *;
    var all := hs[q.1.dict].Keys;
    ListsIn(keys, all, done);
    LoopFacts(h0, hs, h, a, b, Q, q, done);
    SameSize(h0, hs, h, a, b, Q, q, done);
    if keys == [] {
      NoMoreKeys(h, order, q.0.dict, q.1.dict, all, depth);
    } else {
      var k := keys[0];
      TakeFirst(keys, all, done);
      MakeTurn(h0, hs, h, order, a, b, n, Q, q, e, depth, done, k);
      OneMoreKey(h, order, q.0.dict, q.1.dict, keys, all, depth);
      Round(h0, hs, h, order, a, b, n, Q, q, e, depth, done, k);
      var r := RunKey(h, order, q.0.dict, q.1.dict, k, depth);
      if r.1 {
        Rounds(h0, hs, r.0, order, a, b, n, Q, q, e, depth, done + {k}, keys[1..]);
      }
    }
  }

  lemma LoopFacts(h0: Heap, hs: Heap, h: Heap, a: View, b: View, Q: Path, q: (View, View), done: set<string>)
    requires PairAt(a, b, Q) == Some(q) && q.0.Node? && Looping(h0, hs, h, a, b, Q, q, done)
    ensures Mid(h0, h, a, b) && Closed(h) && h.Keys == h0.Keys == hs.Keys
    ensures Changed(h0, h, SoFar(a, b, Q, q, done)) && Changed(hs, h, {q.0.dict} + Below(q, done))
  {
    hide PairAt, Merge, Overridden, Pairs, SoFar, Below;
  }

  lemma ListsIn(keys: seq<string>, all: set<string>, done: set<string>)
    requires Lists(keys, all - done) && done <= all
    ensures (forall i :: 0 <= i < |keys| ==> keys[i] in all) && (keys == [] ==> done == all)
  {
    if keys == [] {
      forall k | k in all
        ensures k in done
      {
        assert k in all - done ==> k in keys;
      }
    }
  }

  lemma MakeTurn(h0: Heap, hs: Heap, h: Heap, order: Order, a: View, b: View, n: nat, Q: Path, q: (View, View), e: nat,
                 depth: nat, done: set<string>, k: string)
    requires Setting(h0, a, b) && Orderly(order) && PairAt(a, b, Q) == Some(q) && q.0.Node?
    requires Looping(h0, hs, h, a, b, Q, q, done) && k !in done && Told(h0, hs, a, b, Q)
    requires q.0.dict in h && q.1.dict in h && k in h[q.1.dict]
    requires Deep(b, n) && Deep(q.1, e) && e > 0 && depth >= e + n
    ensures Turn(h0, hs, h, order, a, b, n, Q, q, e, depth, done, k)
  {
    hide Setting, Orderly, PairAt, Looping, Deep, Told;
  }

  lemma TakeFirst(keys: seq<string>, all: set<string>, done: set<string>)
    requires Lists(keys, all - done) && keys != []
    ensures keys[0] in all && keys[0] !in done && Lists(keys[1..], all - (done + {keys[0]}))
  {
    assert forall i :: 0 <= i < |keys[1..]| ==> keys[1..][i] == keys[i + 1];
    forall k | k in all - (done + {keys[0]})
      ensures k in keys[1..]
    {
      assert k in keys;
      var i :| 0 <= i < |keys| && keys[i] == k;
      assert keys[1..][i - 1] == k;
    }
  }

  /** No dictionary grows while its keys are gone through. */
  lemma SameSize(h0: Heap, hs: Heap, h: Heap, a: View, b: View, Q: Path, q: (View, View), done: set<string>)
    requires Setting(h0, a, b) && PairAt(a, b, Q) == Some(q) && q.0.Node?
    requires Mid(h0, hs, a, b) && Mid(h0, h, a, b) && Changed(hs, h, {q.0.dict} + Below(q, done))
    requires q.1.dict in hs && q.1.dict in h
    ensures h[q.1.dict].Keys == hs[q.1.dict].Keys
  {
    hide Harmless, Between, Merge, Overridden, Pairs, Below, PairAt;
    if h[q.1.dict] != hs[q.1.dict] {
      PairIsSeen(a, b, Q);
      var P, p := Q, q;
      if q.1.dict in Below(q, done) {
        P := BelowHasPath(a, b, Q, q, done, q.1.dict);
        p := PairAt(a, b, P).value;
        PairIsSeen(a, b, P);
      }
      OneInSetting(h0, a, b, p.0, q.1);
      MidAt(h0, hs, a, b, p);
      MidAt(h0, h, a, b, p);
      ChangesIff(p);
      if P == Q {
        MergeSelf(q.0);
      }
      if Merge(p.0, p.1) == p.0 {
        Unchanging(hs, p);
        Unchanging(h, p);
      } else {
        assert ReadsWellAt(P, p, Q, q);
        MidKeys(hs, p);
        MidKeys(h, p);
      }
    }
  }

  lemma MidKeys(h: Heap, p: (View, View))
    requires PairMid(h, p)
    ensures p.0.kids.Keys <= h[p.0.dict].Keys <= Merge(p.0, p.1).kids.Keys
  {
    hide Merge;
  }

  lemma {:induction false} Round(h0: Heap, hs: Heap, h: Heap, order: Order, a: View, b: View, n: nat, Q: Path, q: (View, View),
                                 e: nat, depth: nat, done: set<string>, k: string)
    requires Turn(h0, hs, h, order, a, b, n, Q, q, e, depth, done, k)
    ensures Orderly(order) && Closed(h) && h.Keys == h0.Keys
    ensures
      var r := RunKey(h, order, q.0.dict, q.1.dict, k, depth);
      (r.1 ==> Looping(h0, hs, r.0, a, b, Q, q, done + {k})) && (Passable(a, b) ==> r.1)
    decreases depth, 0, 0
  {
    TurnFacts(h0, hs, h, order, a, b, n, Q, q, e, depth, done, k);
    TurnIs(h0, hs, h, order, a, b, n, Q, q, e, depth, done, k);
    hide Setting, PairAt, Merge, Overridden, Pairs, Mid, Looping, Below, KidMergeable, Kept, Subs, Deep, RunKey, Turn, SoFar;
    if k in q.1.kids && h[q.1.dict][k] == ItemOf(q.1.kids[k]) {
      var y := q.1.kids[k];
      EntryMidHere(h, q, k);
      if y.Leaf? {
        LeafPairs(q, k);
        RoundWrites(h0, hs, h, order, a, b, n, Q, q, e, depth, done, k);
      } else if k !in h[q.0.dict] {
        FreshKey(q, k);
        RoundWrites(h0, hs, h, order, a, b, n, Q, q, e, depth, done, k);
      } else if k !in q.0.kids {
        MergeSelf(y);
        NewSettings(a, b, Q, q, n, k);
        RoundQuiet(h0, hs, h, order, a, b, n, Q, q, e, depth, done, k, y, y);
      } else {
        RoundMerges(h0, hs, h, order, a, b, n, Q, q, e, depth, done, k);
      }
    } else {
      var p := EntryRead(h0, h, a, b, Q, q, done, k);
      RoundOther(h0, hs, h, order, a, b, n, Q, q, e, depth, done, k, p);
    }
  }

  /** A round in which a default and a setting are merged. */
  lemma {:induction false} RoundMerges(h0: Heap, hs: Heap, h: Heap, order: Order, a: View, b: View, n: nat, Q: Path,
                                       q: (View, View), e: nat, depth: nat, done: set<string>, k: string)
    requires Turn(h0, hs, h, order, a, b, n, Q, q, e, depth, done, k)
    requires k in q.1.kids && h[q.1.dict][k] == ItemOf(q.1.kids[k]) && q.1.kids[k].Node? && k in q.0.kids
    ensures Orderly(order) && Closed(h) && h.Keys == h0.Keys
    ensures
      var r := RunKey(h, order, q.0.dict, q.1.dict, k, depth);
      (r.1 ==> Looping(h0, hs, r.0, a, b, Q, q, done + {k})) && (Passable(a, b) ==> r.1)
    decreases depth - 1, 2, 0
  {
    hide *;
    TurnFacts(h0, hs, h, order, a, b, n, Q, q, e, depth, done, k);
    TurnIs(h0, hs, h, order, a, b, n, Q, q, e, depth, done, k);
    ChildMerges(h0, hs, h, order, a, b, n, Q, q, e, depth, done, k);
    var r := RunKey(h, order, q.0.dict, q.1.dict, k, depth);
    if r.1 {
      ChildDone(h0, h, r, a, b, q, k);
      RoundOver(h0, hs, h, r.0, a, b, Q, q, done, k);
    }
    ComesTrue(h0, h, r, a, b, (q.0.kids[k], q.1.kids[k]));
  }

  lemma {:induction false} ChildMerges(h0: Heap, hs: Heap, h: Heap, order: Order, a: View, b: View, n: nat, Q: Path,
                                       q: (View, View), e: nat, depth: nat, done: set<string>, k: string)
    requires Turn(h0, hs, h, order, a, b, n, Q, q, e, depth, done, k)
    requires q.0.Node? && q.1.Node? && q.0.dict in h && q.1.dict in h && k in h[q.1.dict]
    requires k in q.1.kids && h[q.1.dict][k] == ItemOf(q.1.kids[k]) && q.1.kids[k].Node? && k in q.0.kids
    ensures Orderly(order) && Closed(h) && depth > 0
    ensures Comes(h0, h, RunKey(h, order, q.0.dict, q.1.dict, k, depth), a, b, (q.0.kids[k], q.1.kids[k]))
    decreases depth - 1, 1, 1
  {
    hide *;
    var x, y := q.0.kids[k], q.1.kids[k];
    assert ItemOf(y) == Table(y.dict) by { ItemIsTable(y); }
    TurnIs(h0, hs, h, order, a, b, n, Q, q, e, depth, done, k);
    assert k in h[q.0.dict] && h[q.0.dict][k] == ItemOf(x) && Mid(h0, h, a, b) && h.Keys == h0.Keys
      && Changed(h0, h, SoFar(a, b, Q, q, done)) by {
      TurnFacts(h0, hs, h, order, a, b, n, Q, q, e, depth, done, k);
      EntryMidHere(h, q, k);
    }
    DeepKid(q.1, e, k);
    PairBelow(a, b, Q, k);
    ChildOutside(h0, h, a, b, Q, q, done, k);
    ChildTold(h0, hs, h, a, b, Q, q, done, k);
    ChildEntered(h, a, b, Q, q, k);
    Visit(h0, h, order, a, b, n, Q + [k], (x, y), e - 1, depth - 1);
    KeyMerges(h, order, q.0.dict, q.1.dict, k, depth);
  }

  lemma ComesTrue(h0: Heap, h: Heap, r: (Heap, bool), a: View, b: View, q: (View, View))
    requires Comes(h0, h, r, a, b, q)
    ensures Passable(a, b) ==> r.1
  {
    hide Mid, Advance, Changed, Pairs, Overridden, Mergeable, PairDone, Passable;
  }

  lemma DeepKid(v: View, e: nat, k: string)
    requires v.Node? && Deep(v, e) && k in v.kids
    ensures e > 0 && Deep(v.kids[k], e - 1)
  {
  }

  lemma ChildOutside(h0: Heap, h: Heap, a: View, b: View, Q: Path, q: (View, View), done: set<string>, k: string)
    requires PairAt(a, b, Q) == Some(q) && q.0.Node? && PairAt(a, b, Q + [k]).Some? && k !in done
    requires Changed(h0, h, SoFar(a, b, Q, q, done))
    ensures Changed(h0, h, Outside(a, b, Q + [k]))
  {
    OutsideBelow(a, b, Q, k);
    hide PairAt, Overridden, Outside;
    assert Below(q, done) <= Below(q, (q.0.kids.Keys * q.1.kids.Keys) - {k});
  }

  lemma ChildTold(h0: Heap, hs: Heap, h: Heap, a: View, b: View, Q: Path, q: (View, View), done: set<string>, k: string)
    requires PairAt(a, b, Q) == Some(q) && q.0.Node? && Told(h0, hs, a, b, Q) && Looping(h0, hs, h, a, b, Q, q, done)
    requires k !in done && h.Keys == h0.Keys
    ensures Told(h0, h, a, b, Q + [k])
  {
    hide PairAt, Overridden, Pairs, Merge, Between, Passed;
    forall d | d in h && h[d] != h0[d]
      ensures Passed(h, a, b, Q + [k], d)
    {
      if h[d] == hs[d] {
        PassedStays(h0, hs, h, a, b, Q, d, k);
      } else {
        PassedHere(h0, hs, h, a, b, Q, q, done, k, d);
      }
    }
  }

  lemma PassedHere(h0: Heap, hs: Heap, h: Heap, a: View, b: View, Q: Path, q: (View, View), done: set<string>, k: string, d: Dict)
    requires PairAt(a, b, Q) == Some(q) && q.0.Node? && Looping(h0, hs, h, a, b, Q, q, done) && k !in done
    requires d in h && d in hs && h[d] != hs[d]
    ensures Passed(h, a, b, Q + [k], d)
  {
    hide PairAt, Overridden, Pairs, Merge, Between;
    if d == q.0.dict {
      assert Q < Q + [k] && IsHead(a, b, Q, d);
    } else {
      assert d in Below(q, done);
      var j :| j in done && j in q.0.kids && j in q.1.kids && d in Overridden(q.0.kids[j], q.1.kids[j]);
      assert KeyDone(h, q, j);
      OverriddenNodes(q.0.kids[j], q.1.kids[j], d);
      PairBelow(a, b, Q, j);
      LeavesHere(Q, j, k);
      assert MergedBelow(h, a, b, Q + [j], d);
    }
  }

  lemma OverriddenNodes(x: View, y: View, d: Dict)
    requires d in Overridden(x, y)
    ensures x.Node? && y.Node?
  {
  }

  lemma ChildEntered(h: Heap, a: View, b: View, Q: Path, q: (View, View), k: string)
    requires PairAt(a, b, Q) == Some(q) && q.1.dict in h && k in h[q.1.dict] && h[q.1.dict][k].Table?
    ensures Entered(h, a, b, Q + [k])
  {
    assert (Q + [k])[..|Q + [k]| - 1] == Q;
  }

  lemma ChildDone(h0: Heap, h: Heap, r: (Heap, bool), a: View, b: View, q: (View, View), k: string)
    requires q.0.Node? && q.1.Node? && k in q.0.kids && k in q.1.kids && q.1.kids[k].Node? && q in Pairs(a, b)
    requires r.1 && Comes(h0, h, r, a, b, (q.0.kids[k], q.1.kids[k]))
    requires PairMid(h, q) && k in Merge(q.0, q.1).kids && Merge(q.0, q.1).kids[k] == MergedKid(q.0, q.1, k)
    ensures Mid(h0, r.0, a, b) && Advance(h, r.0, a, b) && Changed(h, r.0, {q.0.dict} + Below(q, {k})) && KeyDone(r.0, q, k)
    ensures Overridden(a, b) !! Dicts(b) ==> KidMergeable(q.0, q.1, k)
  {
    assert Overridden(q.0.kids[k], q.1.kids[k]) <= Below(q, {k});
    hide Pairs, Overridden, Mergeable, Merge, MergedKid, Below;
    var g := r.0;
    assert PairMid(g, q) && PairAdvance(h, g, q);
    EntryMidHere(g, q, k);
  }

  /** A round that reads an entry somebody changed. */
  lemma RoundOther(h0: Heap, hs: Heap, h: Heap, order: Order, a: View, b: View, n: nat, Q: Path, q: (View, View),
                   e: nat, depth: nat, done: set<string>, k: string, p: (View, View))
    requires Turn(h0, hs, h, order, a, b, n, Q, q, e, depth, done, k)
    requires p in Pairs(a, b) && p.0 == q.1 && Merge(p.0, p.1).Node? && k in Merge(p.0, p.1).kids
    requires h[q.1.dict][k] == ItemOf(Merge(p.0, p.1).kids[k]) && SameAt(q, Merge(p.0, p.1), k)
    requires k in q.1.kids ==> h[q.1.dict][k] != ItemOf(q.1.kids[k])
    ensures Orderly(order) && Closed(h) && h.Keys == h0.Keys
    ensures
      var r := RunKey(h, order, q.0.dict, q.1.dict, k, depth);
      r.1 && Looping(h0, hs, r.0, a, b, Q, q, done + {k})
  {
    TurnFacts(h0, hs, h, order, a, b, n, Q, q, e, depth, done, k);
    TurnIs(h0, hs, h, order, a, b, n, Q, q, e, depth, done, k);
    hide Setting, PairAt, Overridden, Pairs, Mid, Looping, Below, Kept, Subs, Deep, RunKey, Turn, SoFar, Merge, Mergeable;
    hide KidMergeable;
    SharedRead(a, b, Q, q, p);
    var m, w := Merge(p.0, p.1), Merge(q.0, q.1);
    if m.kids[k].Leaf? {
      LeafRead(q, m, k);
      RoundWrites(h0, hs, h, order, a, b, n, Q, q, e, depth, done, k);
    } else {
      TableRead(h, q, p, k);
      NewKept(a, b, Q, q, p, n, k);
      RoundQuiet(h0, hs, h, order, a, b, n, Q, q, e, depth, done, k, q.0.kids[k], p.1.kids[k]);
    }
  }

  /** Settings that are changed are settings and defaults. */
  lemma SharedRead(a: View, b: View, Q: Path, q: (View, View), p: (View, View))
    requires PairAt(a, b, Q) == Some(q) && p in Pairs(a, b) && p.0 == q.1
    ensures !(Overridden(a, b) !! Dicts(b))
  {
    hide PairAt, Merge, Pairs, Kept, Subs, Overridden, Dicts;
    PairIsSeen(a, b, Q);
    PairIsOverridden(a, b, p);
    SubDicts(b, q.1);
  }

  lemma LeafRead(q: (View, View), m: View, k: string)
    requires q.0.Node? && q.1.Node? && m.Node? && k in m.kids && m.kids[k].Leaf? && SameAt(q, m, k)
    requires forall j :: j in q.0.kids || j in q.1.kids ==> j in Merge(q.0, q.1).kids && Merge(q.0, q.1).kids[j] == MergedKid(q.0, q.1, j)
    ensures k in Merge(q.0, q.1).kids && Merge(q.0, q.1).kids[k] == m.kids[k]
    ensures k in q.0.kids && k in q.1.kids ==> Pairs(q.0.kids[k], q.1.kids[k]) == {}
  {
    var w := Merge(q.0, q.1);
    assert MergedKid(w, m, k) == m.kids[k];
    if k in q.0.kids && k in q.1.kids && q.1.kids[k].Node? {
      MergedItem(q.0.kids[k], q.1.kids[k]);
    }
  }

  lemma TableRead(h: Heap, q: (View, View), p: (View, View), k: string)
    requires q.0.Node? && q.1.Node? && p.0 == q.1 && Merge(p.0, p.1).Node? && k in Merge(p.0, p.1).kids
    requires Merge(p.0, p.1).kids[k].Node? && SameAt(q, Merge(p.0, p.1), k) && PairMid(h, q)
    requires k in q.1.kids ==> ItemOf(Merge(p.0, p.1).kids[k]) != ItemOf(q.1.kids[k])
    ensures p.1.Node? && k in p.1.kids && k !in q.1.kids && k in q.0.kids && p.1.kids[k] == Merge(p.0, p.1).kids[k]
    ensures k in h[q.0.dict] && h[q.0.dict][k] == ItemOf(q.0.kids[k])
    ensures Merge(q.0.kids[k], p.1.kids[k]) == q.0.kids[k] && Mergeable(q.0.kids[k], p.1.kids[k])
  {
    var m, w := Merge(p.0, p.1), Merge(q.0, q.1);
    assert p.1.Node? && m.kids[k] == MergedKid(p.0, p.1, k);
    if k in q.1.kids {
      if k in p.1.kids { MergedItem(p.0.kids[k], p.1.kids[k]); }
      assert false;
    }
    assert w.kids[k] == MergedKid(q.0, q.1, k) == q.0.kids[k];
    assert MergedKid(w, m, k) == Merge(w.kids[k], m.kids[k]);
    assert KidMergeable(w, m, k);
  }

  lemma NewKept(a: View, b: View, Q: Path, q: (View, View), p: (View, View), n: nat, k: string)
    requires PairAt(a, b, Q) == Some(q) && q.0.Node? && p in Pairs(a, b) && p.0 == q.1 && p.1.Node? && Deep(b, n)
    requires k in p.1.kids && k !in q.1.kids && k in q.0.kids
    ensures Subs(q.0.kids[k]) <= Kept(a, b) && Subs(p.1.kids[k]) <= Kept(a, b) && Deep(p.1.kids[k], n)
  {
    hide PairAt, Merge, Pairs, Kept, Subs, Deep;
    PairIsSeen(a, b, Q);
    OnlyKept(q.0, q.1, k);
    var P := PairHasPath(a, b, p);
    NewSettings(a, b, P, p, n, k);
  }

  lemma FirstVisit(h0: Heap, a: View, b: View)
    requires Setting(h0, a, b)
    ensures PairAt(a, b, []) == Some((a, b)) && Outside(a, b, []) == {} && Mid(h0, h0, a, b) && Changed(h0, h0, {})
    ensures Told(h0, h0, a, b, []) && Entered(h0, a, b, [])
  {
    forall p | p in Pairs(a, b)
      ensures PairMid(h0, p)
    {
      FirstMid(h0, a, b, p);
    }
    hide Pairs, Overridden, Merge;
  }

  lemma FirstMid(h0: Heap, a: View, b: View, p: (View, View))
    requires Setting(h0, a, b) && p in Pairs(a, b)
    ensures PairMid(h0, p)
  {
    assert ShowsIn(h0, a);
    hide Setting, Pairs;
    PairsSeen(a, b, p);
    PairIsOverridden(a, b, p);
    SubsShownIn(h0, a, p.0);
    forall k | k in p.0.kids { MergedAt(p.0, p.1, k); }
    assert EntriesOf(p.0).Keys == p.0.kids.Keys;
    assert p.0.kids.Keys <= Merge(p.0, p.1).kids.Keys;
  }

  lemma DoneShows(h0: Heap, g: Heap, a: View, b: View)
    requires Setting(h0, a, b) && Mid(h0, g, a, b) && forall p :: p in Pairs(a, b) ==> PairDone(g, p)
    ensures ShowsIn(g, Merge(a, b))
  {
    forall s | s in Subs(Merge(a, b))
      ensures s.Node? && s.dict in g && g[s.dict] == EntriesOf(s)
    {
      SubsOfMerge(a, b, s);
      if s in Kept(a, b) {
        KeptEntries(h0, g, a, b, s);
      } else {
        var p :| p in Pairs(a, b) && s == Merge(p.0, p.1);
        assert PairDone(g, p);
        MergedItem(p.0, p.1);
      }
    }
    EachShown(g, Merge(a, b));
  }

  /** Where the condition holds, the merge succeeds in whatever order it visits the keys, leaves the merged configuration
      behind, and writes into nothing but the defaults it meets. */
  lemma SafeMerge(h0: Heap, order: Order, a: View, b: View, n: nat, depth: nat)
    requires Closed(h0) && Orderly(order) && a.Node? && b.Node? && ShowsIn(h0, a) && ShowsIn(h0, b)
    requires Safe(a, b) && Deep(b, n) && depth >= 2 * n
    ensures
      var r := Run(h0, order, ItemOf(a), b.dict, depth);
      r.1 && ShowsIn(r.0, Merge(a, b)) && forall d :: d in h0 && r.0[d] != h0[d] ==> d in Overridden(a, b)
  {
    assert Setting(h0, a, b) && Passable(a, b) by { hide PairAt, Merge, Pairs, Mergeable; }
    hide Setting, PairAt, Outside, Merge, Overridden, Pairs, Mergeable, Passable, Told, Entered;
    FirstVisit(h0, a, b);
    Visit(h0, h0, order, a, b, n, [], (a, b), n, depth);
    DoneShows(h0, Run(h0, order, ItemOf(a), b.dict, depth).0, a, b);
  }

  /** If no settings are changed while they are read, the merge also fails exactly where a scalar stands in the way. */
  lemma UnreadMerge(h0: Heap, order: Order, a: View, b: View, n: nat, depth: nat)
    requires Closed(h0) && Orderly(order) && a.Node? && b.Node? && ShowsIn(h0, a) && ShowsIn(h0, b)
    requires Harmless(a, b) && ReadsWell(a, b) && ScalarsRead(a, b)
    requires Overridden(a, b) !! Dicts(b) && Deep(b, n) && depth >= 2 * n
    ensures Run(h0, order, ItemOf(a), b.dict, depth).1 <==> Mergeable(a, b)
  {
    assert Setting(h0, a, b) && (Mergeable(a, b) ==> Passable(a, b));
    hide Setting, PairAt, Outside, Merge, Overridden, Pairs, Mergeable, Passable, Told, Entered;
    FirstVisit(h0, a, b);
    Visit(h0, h0, order, a, b, n, [], (a, b), n, depth);
  }
}
