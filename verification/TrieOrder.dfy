/** The order in which a search finds the live registrations. */
module TrieOrder {
  import opened TrieSpec

  /** Of two patterns the one with a star at the first difference comes first, or the longer one if there is none. */
  ghost predicate Earlier(a: Path, b: Path) {
    exists n: nat :: n <= |a| && n <= |b| && Parting(a, b, n)
  }

  /** The patterns agree up to n, where b ends or only a has a star. */
  predicate Parting(a: Path, b: Path, n: nat)
    requires n <= |a| && n <= |b|
  {
    a[..n] == b[..n] && n < |a| && (n == |b| || (a[n] == "*" && b[n] != "*"))
  }

  predicate SectionBefore(s: Section, t: Section) {
    (s.First? && !t.First?) || (s.Middle? && t.Last?)
  }

  /** Whether registration i is heard before registration j. */
  ghost predicate Before(regs: seq<Registration>, i: nat, j: nat)
    requires i < |regs| && j < |regs|
  {
    var a, b := regs[i], regs[j];
    if a.path != b.path then Earlier(a.path, b.path)
    else if a.section != b.section then SectionBefore(a.section, b.section)
    else i < j
  }

  predicate Positions(regs: seq<Registration>, order: seq<nat>) {
    forall k :: 0 <= k < |order| ==> order[k] < |regs|
  }

  ghost predicate Ordered(regs: seq<Registration>, order: seq<nat>)
    requires Positions(regs, order)
  {
    forall x, y :: 0 <= x < y < |order| ==> Before(regs, order[x], order[y])
  }

  function HandlersAt(regs: seq<Registration>, order: seq<nat>): (hs: seq<Handler>)
    requires Positions(regs, order)
    ensures |hs| == |order|
    ensures forall k :: 0 <= k < |order| ==> hs[k] == regs[order[k]].handler
  {
    seq(|order|, k requires 0 <= k < |order| => regs[order[k]].handler)
  }

  /** The matching registrations, each once and in order. */
  ghost predicate MatchingInOrder(regs: seq<Registration>, key: seq<string>, order: seq<nat>) {
    && Positions(regs, order)
    && (forall i :: 0 <= i < |regs| ==> (i in order <==> Matches(regs[i].path, key)))
    && Ordered(regs, order)
  }

  /** The handlers of the matching registrations, one for each registration and in order. */
  ghost predicate HeardInOrder(regs: seq<Registration>, key: seq<string>, hs: seq<Handler>) {
    exists order :: MatchingInOrder(regs, key, order) && hs == HandlersAt(regs, order)
  }

  // ----- There is only one such order

  lemma EarlierOneWay(a: Path, b: Path)
    requires Earlier(a, b)
    ensures !Earlier(b, a)
  {
    var n: nat :| n <= |a| && n <= |b| && Parting(a, b, n);
    forall k: nat | k <= |a| && k <= |b|
      ensures !Parting(b, a, k)
    {
      if k < n {
        assert a[..n][k] == a[k] && b[..n][k] == b[k];
      } else if n < k {
        assert a[..k][n] == a[n];
        if n < |b| {
          assert b[..k][n] == b[n];
        }
      }
    }
  }

  lemma BeforeOneWay(regs: seq<Registration>, i: nat, j: nat)
    requires i < |regs| && j < |regs| && Before(regs, i, j)
    ensures !Before(regs, j, i)
  {
    if regs[i].path != regs[j].path {
      EarlierOneWay(regs[i].path, regs[j].path);
    }
  }

  lemma {:induction false} OneOrder(regs: seq<Registration>, a: seq<nat>, b: seq<nat>)
    requires Positions(regs, a) && Positions(regs, b) && Ordered(regs, a) && Ordered(regs, b)
    requires forall i :: i in a <==> i in b
    ensures a == b
    decreases |a|
  {
    hide Before;
    BothEmpty(a, b);
    if a != [] {
      SameFirst(regs, a, b);
      RestOf(regs, a);
      RestOf(regs, b);
      OneOrder(regs, a[1..], b[1..]);
      assert a == [a[0]] + a[1..] && b == [b[0]] + b[1..];
    }
  }

  lemma BothEmpty(a: seq<nat>, b: seq<nat>)
    requires forall i :: i in a <==> i in b
    ensures a == [] <==> b == []
  {
    if a != [] {
      assert a[0] in a;
    }
    if b != [] {
      assert b[0] in b;
    }
  }

  lemma SameFirst(regs: seq<Registration>, a: seq<nat>, b: seq<nat>)
    requires Positions(regs, a) && Positions(regs, b) && Ordered(regs, a) && Ordered(regs, b)
    requires a != [] && b != [] && forall i :: i in a <==> i in b
    ensures a[0] == b[0]
  {
    hide Before;
    assert a[0] in a && b[0] in b;
    var x :| 0 <= x < |b| && b[x] == a[0];
    var y :| 0 <= y < |a| && a[y] == b[0];
    if a[0] != b[0] {
      assert Before(regs, b[0], b[x]) && Before(regs, a[0], a[y]);
      BeforeOneWay(regs, a[0], b[0]);
    }
  }

  /** What follows the first place of an order. */
  lemma RestOf(regs: seq<Registration>, a: seq<nat>)
    requires Positions(regs, a) && Ordered(regs, a) && a != []
    ensures Positions(regs, a[1..]) && Ordered(regs, a[1..])
    ensures forall i :: i in a[1..] <==> i in a && i != a[0]
  {
    hide Before;
    forall i | i in a[1..]
      ensures i in a && i != a[0]
    {
      var k :| 0 <= k < |a[1..]| && a[1..][k] == i;
      assert a[k + 1] == i;
      assert Before(regs, a[0], a[k + 1]);
      NotBeforeItself(regs, a[0]);
    }
    assert forall k :: 0 <= k < |a[1..]| ==> a[1..][k] == a[k + 1];
    assert forall i :: i in a ==> i == a[0] || i in a[1..] by {
      assert a == [a[0]] + a[1..];
    }
  }

  lemma NotBeforeItself(regs: seq<Registration>, i: nat)
    requires i < |regs|
    ensures !Before(regs, i, i)
  {
  }

  // ----- The order of a search

  /** The places of the registrations of one list. */
  function Places(regs: seq<Registration>, p: Path, s: Section): seq<nat> {
    if regs == [] then []
    else
      var n: nat := |regs| - 1;
      Places(regs[..n], p, s) + if regs[n].path == p && regs[n].section == s then [n] else []
  }

  ghost predicate PlacesOf(regs: seq<Registration>, p: Path, s: Section, order: seq<nat>) {
    && Positions(regs, order) && Ordered(regs, order) && HandlersAt(regs, order) == Live(regs, p, s)
    && forall i :: i in order <==> 0 <= i < |regs| && regs[i].path == p && regs[i].section == s
  }

  lemma {:induction false} PlacesAre(regs: seq<Registration>, p: Path, s: Section)
    ensures PlacesOf(regs, p, s, Places(regs, p, s))
    decreases |regs|
  {
    if regs != [] {
      var init, last := regs[..|regs| - 1], regs[|regs| - 1];
      PlacesAre(init, p, s);
      assert regs == init + [last];
      hide Places, PlacesOf;
      PlacesSnoc(regs, p, s);
      OnePlaceMore(init, last, p, s, Places(init, p, s));
    }
  }

  lemma OnePlaceMore(init: seq<Registration>, last: Registration, p: Path, s: Section, places: seq<nat>)
    requires PlacesOf(init, p, s, places)
    ensures PlacesOf(init + [last], p, s, places + if last.path == p && last.section == s then [|init|] else [])
  {
    hide Live, Earlier;
    var regs := init + [last];
    LiveAppend(init, [last], p, s);
    LiveOne(last, p, s);
    SamePlaces(regs, init, places);
    if last.path == p && last.section == s {
      assert HandlersAt(regs, places + [|init|]) == HandlersAt(regs, places) + [last.handler];
      forall x | 0 <= x < |places|
        ensures Before(regs, places[x], |init|)
      {
        assert places[x] in places;
      }
    } else {
      assert places + [] == places && Live(init, p, s) + [] == Live(init, p, s);
    }
  }

  lemma PlacesSnoc(regs: seq<Registration>, p: Path, s: Section)
    requires regs != []
    ensures Places(regs, p, s) == Places(regs[..|regs| - 1], p, s)
              + if regs[|regs| - 1].path == p && regs[|regs| - 1].section == s then [|regs| - 1] else []
  {
  }

  lemma SamePlaces(regs: seq<Registration>, init: seq<Registration>, order: seq<nat>)
    requires init <= regs && Positions(init, order)
    ensures Positions(regs, order) && HandlersAt(regs, order) == HandlersAt(init, order)
    ensures Ordered(regs, order) <==> Ordered(init, order)
  {
  }

  /** Two orders one after the other. */
  lemma JoinOrders(regs: seq<Registration>, a: seq<nat>, b: seq<nat>)
    requires Positions(regs, a) && Positions(regs, b) && Ordered(regs, a) && Ordered(regs, b)
    requires forall i, j :: i in a && j in b ==> Before(regs, i, j)
    ensures Positions(regs, a + b) && Ordered(regs, a + b)
    ensures HandlersAt(regs, a + b) == HandlersAt(regs, a) + HandlersAt(regs, b)
    ensures forall i :: i in a + b <==> i in a || i in b
  {
    hide Before;
    forall x, y | 0 <= x < y < |a + b|
      ensures Before(regs, (a + b)[x], (a + b)[y])
    {
      if x < |a| <= y {
        assert (a + b)[x] in a && (a + b)[y] in b;
      } else if y < |a| {
        assert (a + b)[x] == a[x] && (a + b)[y] == a[y];
      } else {
        assert (a + b)[x] == b[x - |a|] && (a + b)[y] == b[y - |a|];
      }
    }
  }

  ghost predicate OrderUnder(regs: seq<Registration>, p: Path, rest: seq<string>, order: seq<nat>, hs: seq<Handler>) {
    && Positions(regs, order) && Ordered(regs, order) && hs == HandlersAt(regs, order)
    && forall i :: i in order <==> 0 <= i < |regs| && Under(regs[i].path, p, rest)
  }

  /** The registrations of one pattern. */
  lemma OwnOrder(vals: Values, regs: seq<Registration>, p: Path) returns (order: seq<nat>)
    requires Holds(vals, regs)
    ensures Positions(regs, order) && Ordered(regs, order) && At(vals, p).Complete() == HandlersAt(regs, order)
    ensures forall i :: i in order <==> 0 <= i < |regs| && regs[i].path == p
  {
    var first, middle, last := Places(regs, p, First), Places(regs, p, Middle), Places(regs, p, Last);
    PlacesAre(regs, p, First);
    PlacesAre(regs, p, Middle);
    PlacesAre(regs, p, Last);
    assert At(vals, p).Section(First) == Live(regs, p, First);
    assert At(vals, p).Section(Middle) == Live(regs, p, Middle);
    assert At(vals, p).Section(Last) == Live(regs, p, Last);
    hide Live, Places, Earlier, Holds;
    JoinOrders(regs, first, middle);
    JoinOrders(regs, first + middle, last);
    order := first + middle + last;
  }

  lemma StarFirst(a: Path, b: Path, p: Path, rest: seq<string>)
    requires rest != [] && rest[0] != "*"
    requires Under(a, p + ["*"], rest[1..]) && Under(b, p + [rest[0]], rest[1..])
    ensures a != b && Earlier(a, b)
  {
    assert a[..|p| + 1] == p + ["*"] && b[..|p| + 1] == p + [rest[0]];
    assert a[|p|] == a[..|p| + 1][|p|] && b[|p|] == b[..|p| + 1][|p|];
    assert a[..|p|] == a[..|p| + 1][..|p|] && b[..|p|] == b[..|p| + 1][..|p|];
    assert Parting(a, b, |p|);
  }

  lemma LongerFirst(a: Path, p: Path, part: string, rest: seq<string>)
    requires Under(a, p + [part], rest)
    ensures a != p && Earlier(a, p)
  {
    assert a[..|p|] == a[..|p| + 1][..|p|];
    assert Parting(a, p, |p|);
  }

  lemma {:induction false} CollectInOrder(vals: Values, regs: seq<Registration>, p: Path, rest: seq<string>)
    returns (order: seq<nat>)
    requires Holds(vals, regs) && "*" !in rest
    ensures OrderUnder(regs, p, rest, order, Collect(vals, p, rest))
    decreases |rest|
  {
    hide Earlier, Holds, At, Before;
    var own := OwnOrder(vals, regs, p);
    if rest == [] {
      order := own;
      assert forall q :: Under(q, p, []) <==> q == p;
    } else {
      assert rest[0] in rest;
      var stars := CollectInOrder(vals, regs, p + ["*"], rest[1..]);
      var directs := CollectInOrder(vals, regs, p + [rest[0]], rest[1..]);
      order := JoinThree(regs, p, rest, stars, directs, own,
        Collect(vals, p + ["*"], rest[1..]), Collect(vals, p + [rest[0]], rest[1..]), At(vals, p).Complete());
    }
  }

  lemma JoinThree(regs: seq<Registration>, p: Path, rest: seq<string>, stars: seq<nat>, directs: seq<nat>, own: seq<nat>,
                  hs: seq<Handler>, hd: seq<Handler>, ho: seq<Handler>) returns (order: seq<nat>)
    requires rest != [] && rest[0] != "*"
    requires OrderUnder(regs, p + ["*"], rest[1..], stars, hs)
    requires OrderUnder(regs, p + [rest[0]], rest[1..], directs, hd)
    requires Positions(regs, own) && Ordered(regs, own) && ho == HandlersAt(regs, own)
    requires forall i :: i in own <==> 0 <= i < |regs| && regs[i].path == p
    ensures OrderUnder(regs, p, rest, order, hs + hd + ho)
  {
    hide Earlier, Under, Ordered;
    forall i, j | i in stars && j in directs
      ensures Before(regs, i, j)
    {
      StarFirst(regs[i].path, regs[j].path, p, rest);
    }
    JoinOrders(regs, stars, directs);
    forall i, j | i in stars + directs && j in own
      ensures Before(regs, i, j)
    {
      if i in stars {
        LongerFirst(regs[i].path, p, "*", rest[1..]);
      } else {
        LongerFirst(regs[i].path, p, rest[0], rest[1..]);
      }
    }
    JoinOrders(regs, stars + directs, own);
    order := stars + directs + own;
    forall i | 0 <= i < |regs|
      ensures i in order <==> Under(regs[i].path, p, rest)
    {
      UnderSplits(regs[i].path, p, rest);
    }
  }

  lemma UnderRoot(q: Path, key: seq<string>)
    ensures Under(q, [], key) <==> Matches(q, key)
  {
    assert q[..0] == [];
  }

  /** After any run, a search for a plain event name finds exactly the matching live registrations, in this order. */
  lemma SearchInOrder(ops: seq<Op>, key: seq<string>, hs: seq<Handler>)
    requires "*" !in key
    ensures Search(RunTrie(ops), key) == hs <==> HeardInOrder(RunFlat(ops), key, hs)
  {
    TrieHoldsLiveRegistrations(ops);
    var regs := RunFlat(ops);
    var order := CollectInOrder(RunTrie(ops), regs, [], key);
    hide RunTrie, RunFlat, Collect, Before, Under, Matches;
    forall i | 0 <= i < |regs|
      ensures i in order <==> Matches(regs[i].path, key)
    {
      UnderRoot(regs[i].path, key);
    }
    assert MatchingInOrder(regs, key, order);
    if HeardInOrder(regs, key, hs) {
      var other :| MatchingInOrder(regs, key, other) && hs == HandlersAt(regs, other);
      OneOrder(regs, order, other);
    }
  }

  lemma FlatAppend(ops: seq<Op>, p: Path, h: Handler, s: Section)
    ensures RunFlat(ops + [AppendItem(p, h, s)]) == RunFlat(ops) + [Registration(p, s, h)]
  {
    assert (ops + [AppendItem(p, h, s)])[..|ops|] == ops;
  }

  /** A shorter pattern is heard before a longer one if it has a star where they first differ. */
  lemma ShorterStarFirst(a: string, b: string, h: Handler, k: Handler)
    requires a != "*" && b != "*"
    ensures
      var ops := [AppendItem([a, b], h, Middle), AppendItem(["*"], k, Middle)];
      Search(RunTrie(ops), [a, b]) == [k, h]
  {
    var ops := [AppendItem([a, b], h, Middle), AppendItem(["*"], k, Middle)];
    var regs := [Registration([a, b], Middle, h), Registration(["*"], Middle, k)];
    FlatAppend([], [a, b], h, Middle);
    FlatAppend([AppendItem([a, b], h, Middle)], ["*"], k, Middle);
    assert [] + [ops[0]] == [ops[0]] && [ops[0]] + [ops[1]] == ops;
    assert [] + [regs[0]] == [regs[0]] && [regs[0]] + [regs[1]] == regs;
    hide RunFlat, RunTrie, Search;
    var order := [1, 0];
    assert Parting(["*"], [a, b], 0);
    assert MatchingInOrder(regs, [a, b], order);
    assert HandlersAt(regs, order) == [k, h];
    SearchInOrder(ops, [a, b], [k, h]);
  }
}
