/**
 * Which views a heap can show at all, and when the merged configuration is one of them: definitions may be shared as
 * long as nothing that is really overridden is seen from a second place.
 */
module RetryConfigSharing {
  import opened RetryConfigs

  // ----- The views a heap can show

  /** The dictionaries of a view, each as it is seen in its place. */
  ghost function Subs(v: View): set<View> {
    match v
    case Leaf(_) => {}
    case Node(_, kids) => {v} + (set k, s | k in kids && s in Subs(kids[k]) :: s)
  }

  /** No dictionary is seen in two ways. */
  ghost predicate Agree(s: set<View>, t: set<View>) {
    forall x, y :: x in s && y in t && ItemOf(x) == ItemOf(y) ==> x == y
  }

  ghost predicate Consistent(v: View) {
    Agree(Subs(v), Subs(v))
  }

  lemma {:induction false} SubsShown(v: View, s: View)
    requires Shows(v) && s in Subs(v)
    ensures s.Node? && Shows(s)
    decreases v
  {
    if s != v {
      var k :| k in v.kids && s in Subs(v.kids[k]);
      SubsShown(v.kids[k], s);
    }
  }

  /** Views shown by one heap agree. */
  lemma ShownAgree(v: View, w: View)
    requires Shows(v) && Shows(w)
    ensures Agree(Subs(v), Subs(w))
  {
    forall x, y | x in Subs(v) && y in Subs(w) && ItemOf(x) == ItemOf(y)
      ensures x == y
    {
      SubsShown(v, x);
      SubsShown(w, y);
      OneView(x, y);
    }
  }

  function EntriesOf(v: View): map<string, Item>
    requires v.Node?
  {
    map k | k in v.kids :: ItemOf(v.kids[k])
  }

  ghost predicate Laid(s: set<View>)
    reads set v | v in s && v.Node? :: v.dict
  {
    forall v :: v in s && v.Node? ==> v.dict.entries == EntriesOf(v)
  }

  lemma {:induction false} LaidShows(v: View)
    requires Laid(Subs(v))
    ensures Shows(v)
    decreases v
  {
    if v.Node? {
      assert v in Subs(v) && v.dict.entries == EntriesOf(v);
      forall k | k in v.kids
        ensures Shows(v.kids[k])
      {
        assert Subs(v.kids[k]) <= Subs(v);
        LaidShows(v.kids[k]);
      }
    }
  }

  lemma {:induction false} SubDicts(v: View, s: View)
    requires s in Subs(v)
    ensures s.Node? && s.dict in Dicts(v)
    decreases v
  {
    if s != v {
      var k :| k in v.kids && s in Subs(v.kids[k]);
      SubDicts(v.kids[k], s);
    }
  }

  /** Writes a part of a consistent view into its dictionaries; dictionaries that were right stay right. */
  method Lay(v: View, ghost all: set<View>)
    requires Subs(v) <= all && Agree(all, all)
    modifies Dicts(v)
    ensures Laid(Subs(v))
    ensures forall t :: t in all && t.Node? ==>
      t.dict.entries == old(t.dict.entries) || t.dict.entries == EntriesOf(t)
    decreases v
  {
    if v.Node? {
      var rest := v.kids.Keys;
      ghost var done: set<string> := {};
      while rest != {}
        invariant rest + done == v.kids.Keys && rest !! done
        invariant forall k :: k in done ==> Laid(Subs(v.kids[k]))
        invariant forall t :: t in all && t.Node? ==>
          t.dict.entries == old(t.dict.entries) || t.dict.entries == EntriesOf(t)
        decreases rest
      {
        var key :| key in rest;
        assert Subs(v.kids[key]) <= Subs(v) && Dicts(v.kids[key]) <= Dicts(v);
        assert forall k :: k in done ==> Subs(v.kids[k]) <= all;
        Lay(v.kids[key], all);
        rest := rest - {key};
        done := done + {key};
      }
      assert v in all;
      label Before:
      v.dict.entries := EntriesOf(v);
      forall t | t in Subs(v) && t.Node?
        ensures t.dict.entries == EntriesOf(t)
      {
        if t != v {
          var k :| k in v.kids && t in Subs(v.kids[k]);
          assert old@Before(Laid(Subs(v.kids[k])));
          assert ItemOf(t) == ItemOf(v) ==> t == v;
        }
      }
      assert forall t :: t in all && t.Node? && t.dict == v.dict ==> ItemOf(t) == ItemOf(v);
    }
  }

  /** A consistent view can be written down: some heap shows it, and then it is consistent. */
  method Show(v: View)
    requires Consistent(v)
    modifies Dicts(v)
    ensures Shows(v)
  {
    Lay(v, Subs(v));
    LaidShows(v);
  }

  // ----- Merging

  /** The pairs of dictionaries that the merge goes through: the second is laid over the first. */
  ghost function Pairs(a: View, b: View): set<(View, View)>
    decreases b
  {
    if a.Leaf? || b.Leaf? then {}
    else {(a, b)} + (set k, p | k in a.kids && k in b.kids && p in Pairs(a.kids[k], b.kids[k]) :: p)
  }

  /** What is seen under keys that only the first of two dictionaries has. */
  ghost function OnlyIn(a: View, b: View): set<View>
    requires a.Node? && b.Node?
  {
    set k, s | k in a.kids && k !in b.kids && s in Subs(a.kids[k]) :: s
  }

  /** What is seen in the result in places that the merge leaves alone: the rest of the defaults, and whole new
      settings. */
  ghost function Kept(a: View, b: View): set<View>
    decreases b
  {
    if a.Leaf? || b.Leaf? then {}
    else OnlyIn(a, b) + OnlyIn(b, a) + (set k, s | k in a.kids && k in b.kids && s in Kept(a.kids[k], b.kids[k]) :: s)
  }

  /** The merge really changes the first dictionary of the pair. */
  predicate Changes(p: (View, View)) {
    Merge(p.0, p.1) != p.0
  }

  /** A dictionary that the merge meets twice gets the same settings twice, and one that it really changes is not seen
      in any place that it leaves alone. */
  ghost predicate Harmless(a: View, b: View) {
    && (forall p, q :: p in Pairs(a, b) && q in Pairs(a, b) && ItemOf(p.0) == ItemOf(q.0) ==> Merge(p.0, p.1) == Merge(q.0, q.1))
    && forall p :: p in Pairs(a, b) && Changes(p) ==> p.0 !in Kept(a, b)
  }

  lemma {:induction false} PairsSeen(a: View, b: View, p: (View, View))
    requires p in Pairs(a, b)
    ensures p.0 in Subs(a) && p.1 in Subs(b) && Merge(p.0, p.1) in Subs(Merge(a, b))
    decreases b
  {
    var w := Merge(a, b);
    assert w in Subs(w);
    if p != (a, b) {
      var k :| k in a.kids && k in b.kids && p in Pairs(a.kids[k], b.kids[k]);
      PairsSeen(a.kids[k], b.kids[k], p);
      MergedAt(a, b, k);
    }
  }

  lemma MergedAt(a: View, b: View, k: string)
    requires a.Node? && b.Node? && (k in a.kids || k in b.kids)
    ensures k in Merge(a, b).kids && Merge(a, b).kids[k] == MergedKid(a, b, k)
    ensures Subs(MergedKid(a, b, k)) <= Subs(Merge(a, b))
  {
    var w := Merge(a, b);
    assert k in w.kids && w.kids[k] == MergedKid(a, b, k);
  }

  lemma {:induction false} KeptSeen(a: View, b: View, s: View)
    requires s in Kept(a, b)
    ensures s in Subs(a) + Subs(b) && s in Subs(Merge(a, b))
    decreases b
  {
    if k :| k in a.kids && k !in b.kids && s in Subs(a.kids[k]) {
      MergedAt(a, b, k);
    } else if k :| k in b.kids && k !in a.kids && s in Subs(b.kids[k]) {
      MergedAt(a, b, k);
    } else {
      var k :| k in a.kids && k in b.kids && s in Kept(a.kids[k], b.kids[k]);
      KeptSeen(a.kids[k], b.kids[k], s);
      MergedAt(a, b, k);
    }
  }

  /** Everything seen in the result is a merged pair or was left alone. */
  lemma {:induction false} SubsOfMerge(a: View, b: View, s: View)
    requires a.Node? && b.Node? && s in Subs(Merge(a, b))
    ensures s in Kept(a, b) || exists p :: p in Pairs(a, b) && s == Merge(p.0, p.1)
    decreases b
  {
    if s == Merge(a, b) {
      assert (a, b) in Pairs(a, b);
    } else {
      var k :| k in Merge(a, b).kids && s in Subs(Merge(a, b).kids[k]);
      MergedAt(a, b, k);
      if k in a.kids && k in b.kids && b.kids[k].Node? {
        var x, y := a.kids[k], b.kids[k];
        SubsOfMerge(x, y, s);
        if s !in Kept(x, y) {
          var p :| p in Pairs(x, y) && s == Merge(p.0, p.1);
          assert p in Pairs(a, b);
        }
      }
    }
  }

  /** Some heap shows the merged configuration exactly when the sharing is harmless: at whatever depth, and among the
      service's own settings too. */
  lemma MergedShowsIff(a: View, b: View)
    requires a.Node? && b.Node? && Shows(a) && Shows(b)
    ensures Consistent(Merge(a, b)) <==> Harmless(a, b)
  {
    ShownAgree(a, a);
    ShownAgree(a, b);
    ShownAgree(b, b);
    if Harmless(a, b) {
      HarmlessIsConsistent(a, b);
    }
    if Consistent(Merge(a, b)) {
      ConsistentIsHarmless(a, b);
    }
  }

  lemma ConsistentIsHarmless(a: View, b: View)
    requires a.Node? && b.Node? && Consistent(Merge(a, b))
    ensures Harmless(a, b)
  {
    forall p, q | p in Pairs(a, b) && q in Pairs(a, b) && ItemOf(p.0) == ItemOf(q.0)
      ensures Merge(p.0, p.1) == Merge(q.0, q.1)
    {
      PairsSeen(a, b, p);
      PairsSeen(a, b, q);
      MergedItem(p.0, p.1);
      MergedItem(q.0, q.1);
    }
    forall p | p in Pairs(a, b) && p.0 in Kept(a, b)
      ensures !Changes(p)
    {
      PairsSeen(a, b, p);
      KeptSeen(a, b, p.0);
      MergedItem(p.0, p.1);
    }
  }

  lemma HarmlessIsConsistent(a: View, b: View)
    requires a.Node? && b.Node? && Harmless(a, b)
    requires Agree(Subs(a), Subs(a)) && Agree(Subs(a), Subs(b)) && Agree(Subs(b), Subs(b))
    ensures Consistent(Merge(a, b))
  {
    var w := Merge(a, b);
    forall s, t | s in Subs(w) && t in Subs(w) && ItemOf(s) == ItemOf(t)
      ensures s == t
    {
      SubsOfMerge(a, b, s);
      SubsOfMerge(a, b, t);
      if s in Kept(a, b) && t in Kept(a, b) {
        KeptSeen(a, b, s);
        KeptSeen(a, b, t);
      } else if s in Kept(a, b) {
        KeptAgrees(a, b, s, t);
      } else if t in Kept(a, b) {
        KeptAgrees(a, b, t, s);
      } else {
        var p :| p in Pairs(a, b) && s == Merge(p.0, p.1);
        var q :| q in Pairs(a, b) && t == Merge(q.0, q.1);
        MergedItem(p.0, p.1);
        MergedItem(q.0, q.1);
      }
    }
  }

  lemma KeptAgrees(a: View, b: View, s: View, t: View)
    requires a.Node? && b.Node? && Harmless(a, b) && s in Kept(a, b) && ItemOf(s) == ItemOf(t)
    requires Agree(Subs(a), Subs(a)) && Agree(Subs(a), Subs(b))
    requires exists p :: p in Pairs(a, b) && t == Merge(p.0, p.1)
    ensures s == t
  {
    var p :| p in Pairs(a, b) && t == Merge(p.0, p.1);
    KeptSeen(a, b, s);
    PairsSeen(a, b, p);
    MergedItem(p.0, p.1);
    assert s == p.0;
  }
}
