/** Two runs joined by a resume token: nothing is lost and nothing is repeated. */
module PaginationResume {
  import opened Results
  import opened Numerals
  import opened Pagination

  /** The items of a run from page i to the end of the chain. */
  function From<T>(svc: Service<T>, tokens: seq<Option<string>>, start: Option<int>, i: nat): seq<T>
    requires i <= |tokens|
    decreases |tokens| - i
  {
    if i == |tokens| then [] else PageItems(svc, tokens, start, i) + From(svc, tokens, start, i + 1)
  }

  /** The service hands out tokens that can be joined with an index. */
  ghost predicate GoodNames<T>(svc: Service<T>, checkMore: bool, tokens: seq<Option<string>>) {
    && |tokens| >= 1 && GoodToken(tokens[0])
    && forall i :: 0 <= i < |tokens| ==> GoodToken(Next(checkMore, svc(tokens[i])))
  }

  function Min(a: nat, b: nat): nat {
    if a < b then a else b
  }

  /** The last page yielded holds less than the page received. */
  predicate Truncated<T>(svc: Service<T>, tokens: seq<Option<string>>, start: Option<int>, i: nat, pages: seq<seq<T>>)
    requires i + |pages| <= |tokens|
  {
    pages != [] && |pages[|pages| - 1]| < |PageItems(svc, tokens, start, i + |pages| - 1)|
  }

  lemma {:induction false} UnboundedWalk<T>(svc: Service<T>, checkMore: bool, start: Option<int>,
                                            tokens: seq<Option<string>>, i: nat, total: nat)
    requires Complete(svc, checkMore, tokens) && i < |tokens|
    ensures
      var w := Walk(svc, checkMore, None, start, tokens, i, total);
      Flat(w.pages) == From(svc, tokens, start, i) && w.resume == None && w.error == None
    decreases |tokens| - i
  {
    var items := PageItems(svc, tokens, start, i);
    VisitUnbounded(svc, checkMore, start, tokens, i, total);
    OnePage(items);
    if i < |tokens| - 1 {
      hide Complete, Chain, Visit;
      UnboundedWalk(svc, checkMore, start, tokens, i + 1, total + |items|);
      MorePages(items, Walk(svc, checkMore, None, start, tokens, i + 1, total + |items|).pages);
    } else {
      assert From(svc, tokens, start, i) == items + [] == items;
    }
  }

  lemma VisitUnbounded<T>(svc: Service<T>, checkMore: bool, start: Option<int>, tokens: seq<Option<string>>, i: nat, total: nat)
    requires Complete(svc, checkMore, tokens) && i < |tokens|
    ensures Visit(svc, checkMore, None, start, tokens, i, total) ==
            if i < |tokens| - 1 then None else Some(Outcome([PageItems(svc, tokens, start, i)], None, None))
  {
    if i < |tokens| - 1 { assert Link(svc, checkMore, tokens, i); }
  }

  /** The ways in which a bounded run leaves a page of a complete chain. */
  lemma WalkBounded<T>(svc: Service<T>, checkMore: bool, m: nat, start: Option<int>,
                       tokens: seq<Option<string>>, i: nat, total: nat)
    requires Complete(svc, checkMore, tokens) && i < |tokens| && total <= m
    ensures From(svc, tokens, start, i) == PageItems(svc, tokens, start, i) + From(svc, tokens, start, i + 1)
    ensures i == |tokens| - 1 ==> From(svc, tokens, start, i + 1) == []
    ensures
      var items, n := PageItems(svc, tokens, start, i), m - total;
      var w := Walk(svc, checkMore, Some(m), start, tokens, i, total);
      if n < |items| then
        w == Outcome([items[..n]],
          Some(WithIndex(Named(svc, checkMore, tokens, i), n + if start.Some? then start.value else 0)), None)
      else if i == |tokens| - 1 then w == Outcome([items], None, None)
      else if n == |items| then w == Outcome([items], Some(TokenText(Named(svc, checkMore, tokens, i + 1))), None)
      else
        var rest := Walk(svc, checkMore, Some(m), start, tokens, i + 1, total + |items|);
        w == Outcome([items] + rest.pages, rest.resume, rest.error)
  {
    VisitBounded(svc, checkMore, m, start, tokens, i, total);
    hide Chain, WithIndex, TokenText, PageItems, Visit, Named, Next, Link;
  }

  lemma VisitBounded<T>(svc: Service<T>, checkMore: bool, m: nat, start: Option<int>,
                        tokens: seq<Option<string>>, i: nat, total: nat)
    requires Complete(svc, checkMore, tokens) && i < |tokens| && total <= m
    ensures
      var items, n := PageItems(svc, tokens, start, i), m - total;
      Visit(svc, checkMore, Some(m), start, tokens, i, total) ==
      if n < |items| then
        Some(Outcome([items[..n]],
          Some(WithIndex(Named(svc, checkMore, tokens, i), n + if start.Some? then start.value else 0)), None))
      else if i == |tokens| - 1 then Some(Outcome([items], None, None))
      else if n == |items| then Some(Outcome([items], Some(TokenText(Named(svc, checkMore, tokens, i + 1))), None))
      else None
  {
    if i < |tokens| - 1 { assert Link(svc, checkMore, tokens, i); }
    hide Chain, WithIndex, TokenText, PageItems;
  }

  lemma OnePage<T>(items: seq<T>)
    ensures Flat([items]) == items
  {
    assert [items][1..] == [];
  }

  lemma MorePages<T>(items: seq<T>, pages: seq<seq<T>>)
    ensures Flat([items] + pages) == items + Flat(pages)
  {
    assert ([items] + pages)[1..] == pages;
  }

  /** The pages hold the first n items; a token is left only if there are n of them, and none only if no more. */
  ghost predicate TakesFirst<T>(all: seq<T>, n: nat, w: Outcome<T>) {
    && w.error == None
    && Flat(w.pages) == all[..Min(n, |all|)]
    && (w.resume.None? ==> |all| <= n)
    && (w.resume.Some? ==> n <= |all|)
  }

  lemma TakesPart<T>(items: seq<T>, tail: seq<T>, n: nat, w: Outcome<T>)
    requires n <= |items| && w.pages == [items[..n]] && w.resume.Some? && w.error == None
    ensures TakesFirst(items + tail, n, w)
    ensures (items + tail)[n..] == items[n..] + tail
  {
    OnePage(items[..n]);
    assert (items + tail)[..n] == items[..n];
  }

  lemma TakesWhole<T>(items: seq<T>, tail: seq<T>, w: Outcome<T>)
    requires w.pages == [items] && w.resume.Some? && w.error == None
    ensures TakesFirst(items + tail, |items|, w)
    ensures (items + tail)[|items|..] == tail
  {
    assert items[..|items|] == items && items[|items|..] + tail == tail;
    TakesPart(items, tail, |items|, w);
  }

  lemma TakesLast<T>(items: seq<T>, n: nat, w: Outcome<T>)
    requires |items| <= n && w.pages == [items] && w.resume.None? && w.error == None
    ensures TakesFirst(items + [], n, w)
  {
    OnePage(items);
    assert items + [] == items && items[..|items|] == items;
  }

  lemma TakesMore<T>(items: seq<T>, tail: seq<T>, n: nat, w: Outcome<T>)
    requires |items| <= n && TakesFirst(tail, n - |items|, w)
    ensures TakesFirst(items + tail, n, Outcome([items] + w.pages, w.resume, w.error))
    ensures n <= |items + tail| ==> (items + tail)[n..] == tail[n - |items|..]
  {
    MorePages(items, w.pages);
    assert (items + tail)[..Min(n, |items + tail|)] == items + tail[..Min(n - |items|, |tail|)];
  }

  /** What a bounded loop yields. */
  lemma {:induction false} BoundedItems<T>(svc: Service<T>, checkMore: bool, m: nat, start: Option<int>,
                                           tokens: seq<Option<string>>, i: nat, total: nat)
    requires Complete(svc, checkMore, tokens) && i < |tokens| && total <= m
    ensures TakesFirst(From(svc, tokens, start, i), m - total, Walk(svc, checkMore, Some(m), start, tokens, i, total))
    ensures 1 <= |Walk(svc, checkMore, Some(m), start, tokens, i, total).pages| <= |tokens| - i
    decreases |tokens| - i
  {
    var items := PageItems(svc, tokens, start, i);
    var tail, n := From(svc, tokens, start, i + 1), m - total;
    var w := Walk(svc, checkMore, Some(m), start, tokens, i, total);
    WalkBounded(svc, checkMore, m, start, tokens, i, total);
    hide Walk, From, Chain, WithIndex, TokenText, PageItems, TakesFirst, Named;
    if |items| > n {
      TakesPart(items, tail, n, w);
    } else if i == |tokens| - 1 {
      TakesLast(items, n, w);
    } else if |items| == n {
      TakesWhole(items, tail, w);
    } else {
      BoundedItems(svc, checkMore, m, start, tokens, i + 1, total + |items|);
      TakesMore(items, tail, n, Walk(svc, checkMore, Some(m), start, tokens, i + 1, total + |items|));
    }
  }

  /** What a bounded loop leaves, when it cuts a page. */
  ghost predicate CutAt<T>(svc: Service<T>, checkMore: bool, tokens: seq<Option<string>>, start: Option<int>,
                           left: seq<T>, j: nat, kept: nat, resume: Option<string>)
  {
    && j < |tokens| && kept <= |PageItems(svc, tokens, start, j)|
    && left == PageItems(svc, tokens, start, j)[kept..] + From(svc, tokens, start, j + 1)
    && resume == Some(WithIndex(Named(svc, checkMore, tokens, j), kept + if start.Some? then start.value else 0))
  }

  /** What a bounded loop leaves, when it stops between pages. */
  ghost predicate BoundaryAt<T>(svc: Service<T>, checkMore: bool, tokens: seq<Option<string>>, start: Option<int>,
                                left: seq<T>, j: nat, resume: Option<string>)
  {
    && 0 < j < |tokens|
    && left == From(svc, tokens, start, j)
    && resume == Some(TokenText(Named(svc, checkMore, tokens, j)))
  }

  /** Where a bounded loop from page i leaves off, `left` being the items after those it yielded. */
  ghost predicate StopsAt<T>(svc: Service<T>, checkMore: bool, tokens: seq<Option<string>>, start: Option<int>,
                             left: seq<T>, i: nat, w: Outcome<T>)
  {
    var k := |w.pages|;
    && 1 <= k && i + k <= |tokens|
    && if Truncated(svc, tokens, start, i, w.pages)
       then CutAt(svc, checkMore, tokens, start, left, i + k - 1, |w.pages[k - 1]|, w.resume)
       else BoundaryAt(svc, checkMore, tokens, start, left, i + k, w.resume)
  }

  lemma StopsInPage<T>(svc: Service<T>, checkMore: bool, m: nat, start: Option<int>, tokens: seq<Option<string>>,
                       i: nat, n: nat, w: Outcome<T>)
    requires i < |tokens| && n < |PageItems(svc, tokens, start, i)|
    requires w == Outcome([PageItems(svc, tokens, start, i)[..n]],
               Some(WithIndex(Named(svc, checkMore, tokens, i), n + if start.Some? then start.value else 0)), None)
    ensures StopsAt(svc, checkMore, tokens, start,
              PageItems(svc, tokens, start, i)[n..] + From(svc, tokens, start, i + 1), i, w)
  {
    hide PageItems, From, WithIndex, Named;
  }

  lemma StopsAfterPage<T>(svc: Service<T>, checkMore: bool, start: Option<int>, tokens: seq<Option<string>>,
                          i: nat, w: Outcome<T>)
    requires i + 1 < |tokens|
    requires w == Outcome([PageItems(svc, tokens, start, i)], Some(TokenText(Named(svc, checkMore, tokens, i + 1))), None)
    ensures StopsAt(svc, checkMore, tokens, start, From(svc, tokens, start, i + 1), i, w)
  {
  }

  lemma StopsLater<T>(svc: Service<T>, checkMore: bool, tokens: seq<Option<string>>, start: Option<int>,
                      left: seq<T>, i: nat, items: seq<T>, w: Outcome<T>)
    requires StopsAt(svc, checkMore, tokens, start, left, i + 1, w)
    ensures StopsAt(svc, checkMore, tokens, start, left, i, Outcome([items] + w.pages, w.resume, w.error))
  {
    hide CutAt, BoundaryAt;
    assert ([items] + w.pages)[|w.pages|] == w.pages[|w.pages| - 1];
  }

  lemma BoundedLeaves<T>(svc: Service<T>, checkMore: bool, m: nat, start: Option<int>,
                         tokens: seq<Option<string>>, i: nat, total: nat)
    requires Complete(svc, checkMore, tokens) && i < |tokens| && total <= m
    requires Walk(svc, checkMore, Some(m), start, tokens, i, total).resume.Some?
    ensures m - total <= |From(svc, tokens, start, i)|
  {
    hide Walk, From, Chain;
    BoundedItems(svc, checkMore, m, start, tokens, i, total);
  }

  lemma {:induction false} BoundedStop<T>(svc: Service<T>, checkMore: bool, m: nat, start: Option<int>,
                                          tokens: seq<Option<string>>, i: nat, total: nat)
    requires Complete(svc, checkMore, tokens) && i < |tokens| && total <= m
    requires Walk(svc, checkMore, Some(m), start, tokens, i, total).resume.Some?
    ensures m - total <= |From(svc, tokens, start, i)|
    ensures StopsAt(svc, checkMore, tokens, start, From(svc, tokens, start, i)[m - total..], i,
              Walk(svc, checkMore, Some(m), start, tokens, i, total))
    decreases |tokens| - i
  {
    hide Walk, From, Chain, WithIndex, TokenText, PageItems, TakesFirst, Named, CutAt, BoundaryAt, StopsAt;
    var items := PageItems(svc, tokens, start, i);
    var tail, n := From(svc, tokens, start, i + 1), m - total;
    var w := Walk(svc, checkMore, Some(m), start, tokens, i, total);
    BoundedLeaves(svc, checkMore, m, start, tokens, i, total);
    WalkBounded(svc, checkMore, m, start, tokens, i, total);
    if |items| > n {
      TakesPart(items, tail, n, w);
      StopsInPage(svc, checkMore, m, start, tokens, i, n, w);
    } else if |items| == n {
      TakesWhole(items, tail, w);
      StopsAfterPage(svc, checkMore, start, tokens, i, w);
    } else {
      var rest := Walk(svc, checkMore, Some(m), start, tokens, i + 1, total + |items|);
      BoundedStop(svc, checkMore, m, start, tokens, i + 1, total + |items|);
      BoundedItems(svc, checkMore, m, start, tokens, i + 1, total + |items|);
      TakesMore(items, tail, n, rest);
      StopsLater(svc, checkMore, tokens, start, tail[n - |items|..], i, items, rest);
    }
  }

  /** Sent and named tokens agree when the service avoids the text 'None'. */
  lemma NamedIsSent<T>(svc: Service<T>, checkMore: bool, tokens: seq<Option<string>>, i: nat)
    requires Chain(svc, checkMore, tokens) && GoodNames(svc, checkMore, tokens) && 1 <= i < |tokens|
    ensures tokens[i] == Named(svc, checkMore, tokens, i) && GoodToken(tokens[i])
  {
    assert Link(svc, checkMore, tokens, i - 1);
    assert GoodToken(Next(checkMore, svc(tokens[i - 1])));
  }

  lemma {:induction false} FromShift<T>(svc: Service<T>, tokens: seq<Option<string>>, s1: Option<int>, s2: Option<int>, j: nat, i: nat)
    requires 1 <= i <= |tokens| - j && j <= |tokens|
    ensures From(svc, tokens[j..], s1, i) == From(svc, tokens, s2, i + j)
    decreases |tokens| - i
  {
    if i < |tokens| - j {
      FromShift(svc, tokens, s1, s2, j, i + 1);
      assert PageItems(svc, tokens[j..], s1, i) == PageItems(svc, tokens, s2, i + j);
      hide PageItems;
    }
  }

  lemma SuffixComplete<T>(svc: Service<T>, checkMore: bool, tokens: seq<Option<string>>, j: nat)
    requires Complete(svc, checkMore, tokens) && j < |tokens|
    ensures Complete(svc, checkMore, tokens[j..])
  {
    var rest := tokens[j..];
    assert forall i :: 0 <= i < |rest| ==> rest[i] == tokens[i + j];
    forall i | 0 <= i < |rest| - 1
      ensures Link(svc, checkMore, rest, i)
    {
      assert Link(svc, checkMore, tokens, i + j);
    }
  }

  /** A position in the chain: a page and an index into its list. */
  function Remaining<T>(svc: Service<T>, tokens: seq<Option<string>>, j: nat, index: nat): seq<T>
    requires j < |tokens|
  {
    SliceFrom(OrEmpty(svc(tokens[j]).items), index) + From(svc, tokens, None, j + 1)
  }

  /** An unbounded run from a token that names a position yields the rest from there, or fails on a missing list. */
  lemma UnboundedResume<T>(svc: Service<T>, checkMore: bool, tokens: seq<Option<string>>, j: nat, index: nat, token: string)
    requires Complete(svc, checkMore, tokens) && j < |tokens|
    requires ParseStart(token) == Some(Start(tokens[j], index))
    ensures Chain(svc, checkMore, tokens[j..])
    ensures
      var run := Run(svc, checkMore, None, Some(token), tokens[j..]);
      if svc(tokens[j]).items.None? then run == Outcome([], None, Some(NoPrimaryList))
      else run.error == None && run.resume == None && Flat(run.pages) == Remaining(svc, tokens, j, index)
  {
    var rest := tokens[j..];
    SuffixComplete(svc, checkMore, tokens, j);
    assert rest[0] == tokens[j];
    if svc(tokens[j]).items.Some? {
      UnboundedWalk(svc, checkMore, Some(index), rest, 0, 0);
      FromShift(svc, tokens, Some(index), None, j, 1);
    }
  }

  /** The page at which the next run must start after a bounded run. */
  function StopPage<T>(svc: Service<T>, tokens: seq<Option<string>>, start: Option<int>, pages: seq<seq<T>>): (j: nat)
    requires 1 <= |pages| <= |tokens|
  {
    if Truncated(svc, tokens, start, 0, pages) then |pages| - 1 else |pages|
  }

  /** The index into that page, counted in the service's own list. */
  function StopIndex<T>(svc: Service<T>, tokens: seq<Option<string>>, start: Option<int>, pages: seq<seq<T>>): int
    requires 1 <= |pages| <= |tokens|
  {
    if !Truncated(svc, tokens, start, 0, pages) then 0
    else |pages[|pages| - 1]| + if |pages| == 1 && start.Some? then start.value else 0
  }

  /** When a bounded run can name its position: at a page boundary, or if what it forgets is empty. */
  predicate CanName<T>(svc: Service<T>, tokens: seq<Option<string>>, start: Option<int>, pages: seq<seq<T>>)
    requires 1 <= |pages| <= |tokens|
  {
    Truncated(svc, tokens, start, 0, pages) ==>
      if |pages| == 1 then tokens[0].None? else start.None? || start.value == 0
  }

  /** The parameters of a run that may itself be a resumed one. */
  ghost predicate ValidRun<T>(svc: Service<T>, checkMore: bool, tokens: seq<Option<string>>, startingToken: Option<string>) {
    && Complete(svc, checkMore, tokens) && GoodNames(svc, checkMore, tokens)
    && StartOf(startingToken).Some?
    && StartOf(startingToken).value.token == tokens[0] && StartOf(startingToken).value.index >= 0
    && (startingToken.Some? ==> svc(tokens[0]).items.Some?)
  }

  lemma RunIsWalk<T>(svc: Service<T>, checkMore: bool, tokens: seq<Option<string>>, startingToken: Option<string>, max: Option<nat>)
    requires ValidRun(svc, checkMore, tokens, startingToken)
    ensures Complete(svc, checkMore, tokens) && Chain(svc, checkMore, tokens) && |tokens| >= 1
    ensures Run(svc, checkMore, max, startingToken, tokens) == Walk(svc, checkMore, max, Cut(startingToken), tokens, 0, 0)
    ensures Cut(startingToken).Some? ==> Cut(startingToken).value >= 0
  {
    hide Walk, GoodNames;
  }

  /** A bounded run yields exactly the first m items, and says whether any can be left. */
  lemma BoundedRun<T>(svc: Service<T>, checkMore: bool, tokens: seq<Option<string>>, startingToken: Option<string>, m: nat)
    requires ValidRun(svc, checkMore, tokens, startingToken)
    ensures
      var run := Run(svc, checkMore, Some(m), startingToken, tokens);
      var all := From(svc, tokens, Cut(startingToken), 0);
      && run.error == None && 1 <= |run.pages| <= |tokens|
      && Flat(run.pages) == all[..Min(m, |all|)]
      && (run.resume.None? ==> |all| <= m)
      && (run.resume.Some? ==> m <= |all| && StopPage(svc, tokens, Cut(startingToken), run.pages) < |tokens|)
  {
    hide Walk, From, CutAt;
    var start := Cut(startingToken);
    BoundedItems(svc, checkMore, m, start, tokens, 0, 0);
    if Walk(svc, checkMore, Some(m), start, tokens, 0, 0).resume.Some? {
      BoundedStop(svc, checkMore, m, start, tokens, 0, 0);
    }
  }

  /** The resume token names the right position exactly when the run can name it. */
  lemma ResumeTokenIsRight<T>(svc: Service<T>, checkMore: bool, tokens: seq<Option<string>>, startingToken: Option<string>, m: nat)
    requires ValidRun(svc, checkMore, tokens, startingToken)
    requires Run(svc, checkMore, Some(m), startingToken, tokens).resume.Some?
    ensures
      var run := Run(svc, checkMore, Some(m), startingToken, tokens);
      var start := Cut(startingToken);
      && 1 <= |run.pages| <= |tokens| && StopPage(svc, tokens, start, run.pages) < |tokens|
      && (ParseStart(run.resume.value) ==
            Some(Start(tokens[StopPage(svc, tokens, start, run.pages)], StopIndex(svc, tokens, start, run.pages)))
          <==> CanName(svc, tokens, start, run.pages))
  {
    hide *;
    var start := Cut(startingToken);
    RunIsWalk(svc, checkMore, tokens, startingToken, Some(m));
    BoundedStop(svc, checkMore, m, start, tokens, 0, 0);
    TokenNamesStop(svc, checkMore, tokens, startingToken, From(svc, tokens, start, 0)[m..],
      Walk(svc, checkMore, Some(m), start, tokens, 0, 0));
  }

  lemma TokenNamesStop<T>(svc: Service<T>, checkMore: bool, tokens: seq<Option<string>>, startingToken: Option<string>,
                          left: seq<T>, w: Outcome<T>)
    requires ValidRun(svc, checkMore, tokens, startingToken) && w.resume.Some?
    requires StopsAt(svc, checkMore, tokens, Cut(startingToken), left, 0, w)
    ensures
      var start := Cut(startingToken);
      && 1 <= |w.pages| <= |tokens| && StopPage(svc, tokens, start, w.pages) < |tokens|
      && (ParseStart(w.resume.value) ==
            Some(Start(tokens[StopPage(svc, tokens, start, w.pages)], StopIndex(svc, tokens, start, w.pages)))
          <==> CanName(svc, tokens, start, w.pages))
  {
    hide From, ParseStart, WithIndex, TokenText, PageItems;
    var start := Cut(startingToken);
    var j := StopPage(svc, tokens, start, w.pages);
    var named := Named(svc, checkMore, tokens, j);
    if j > 0 { LaterNamed(svc, checkMore, tokens, j); }
    if Truncated(svc, tokens, start, 0, w.pages) {
      StartOfIndexedToken(named, |w.pages[j]| + if start.Some? then start.value else 0);
    } else {
      StartOfBareToken(named);
    }
  }

  lemma LaterNamed<T>(svc: Service<T>, checkMore: bool, tokens: seq<Option<string>>, j: nat)
    requires Complete(svc, checkMore, tokens) && GoodNames(svc, checkMore, tokens) && 1 <= j < |tokens|
    ensures tokens[j] == Named(svc, checkMore, tokens, j) && GoodToken(tokens[j])
  {
    NamedIsSent(svc, checkMore, tokens, j);
  }

  /** The items after the first m are those from the stop position on. */
  lemma RestAfterStop<T>(svc: Service<T>, checkMore: bool, tokens: seq<Option<string>>, startingToken: Option<string>, m: nat)
    requires ValidRun(svc, checkMore, tokens, startingToken)
    requires Run(svc, checkMore, Some(m), startingToken, tokens).resume.Some?
    ensures
      var run := Run(svc, checkMore, Some(m), startingToken, tokens);
      var start := Cut(startingToken);
      var all := From(svc, tokens, start, 0);
      && 1 <= |run.pages| <= |tokens| && m <= |all| && StopPage(svc, tokens, start, run.pages) < |tokens|
      && StopIndex(svc, tokens, start, run.pages) >= 0
      && all[m..] == Remaining(svc, tokens, StopPage(svc, tokens, start, run.pages), StopIndex(svc, tokens, start, run.pages))
  {
    hide *;
    var start := Cut(startingToken);
    RunIsWalk(svc, checkMore, tokens, startingToken, Some(m));
    BoundedStop(svc, checkMore, m, start, tokens, 0, 0);
    LeftBehind(svc, checkMore, tokens, start, From(svc, tokens, start, 0)[m..],
      Walk(svc, checkMore, Some(m), start, tokens, 0, 0));
  }

  lemma LeftBehind<T>(svc: Service<T>, checkMore: bool, tokens: seq<Option<string>>, start: Option<int>, left: seq<T>, w: Outcome<T>)
    requires StopsAt(svc, checkMore, tokens, start, left, 0, w)
    requires start.Some? ==> start.value >= 0
    ensures 1 <= |w.pages| <= |tokens|
    ensures
      var j, index := StopPage(svc, tokens, start, w.pages), StopIndex(svc, tokens, start, w.pages);
      j < |tokens| && index >= 0 && left == Remaining(svc, tokens, j, index)
  {
    hide From, CutAt, BoundaryAt, Remaining;
    var j := StopPage(svc, tokens, start, w.pages);
    if Truncated(svc, tokens, start, 0, w.pages) {
      LeftInPage(svc, checkMore, tokens, start, left, j, |w.pages[j]|, w.resume);
    } else {
      LeftAfterPage(svc, checkMore, tokens, start, left, j, w.resume);
    }
  }

  lemma LeftInPage<T>(svc: Service<T>, checkMore: bool, tokens: seq<Option<string>>, start: Option<int>,
                      left: seq<T>, j: nat, kept: nat, resume: Option<string>)
    requires CutAt(svc, checkMore, tokens, start, left, j, kept, resume) && kept < |PageItems(svc, tokens, start, j)|
    requires start.Some? ==> start.value >= 0
    ensures j < |tokens| && left == Remaining(svc, tokens, j, kept + if j == 0 && start.Some? then start.value else 0)
  {
    hide From, PageItems, OrEmpty, SliceFrom, WithIndex, Named;
    FromIgnoresStart(svc, tokens, start, j + 1);
    var k := if j == 0 && start.Some? then start.value else 0;
    PageIsSlice(svc, tokens, start, j);
    SliceTwice(OrEmpty(svc(tokens[j]).items), k, kept);
  }

  lemma PageIsSlice<T>(svc: Service<T>, tokens: seq<Option<string>>, start: Option<int>, j: nat)
    requires j < |tokens|
    ensures PageItems(svc, tokens, start, j) ==
            SliceFrom(OrEmpty(svc(tokens[j]).items), if j == 0 && start.Some? then start.value else 0)
  {
    var items := OrEmpty(svc(tokens[j]).items);
    hide OrEmpty;
    if !(j == 0 && start.Some?) { assert SliceFrom(items, 0) == items; }
  }

  lemma LeftAfterPage<T>(svc: Service<T>, checkMore: bool, tokens: seq<Option<string>>, start: Option<int>,
                         left: seq<T>, j: nat, resume: Option<string>)
    requires BoundaryAt(svc, checkMore, tokens, start, left, j, resume)
    ensures j < |tokens| && left == Remaining(svc, tokens, j, 0)
  {
    WholePage(svc, tokens, start, j);
  }

  lemma SliceTwice<T>(xs: seq<T>, k: nat, o: nat)
    requires o < |SliceFrom(xs, k)|
    ensures SliceFrom(xs, k)[o..] == SliceFrom(xs, k + o)
    ensures SliceFrom(xs, 0) == xs
  {
  }

  lemma WholePage<T>(svc: Service<T>, tokens: seq<Option<string>>, start: Option<int>, j: nat)
    requires 1 <= j < |tokens|
    ensures From(svc, tokens, start, j) == SliceFrom(OrEmpty(svc(tokens[j]).items), 0) + From(svc, tokens, None, j + 1)
  {
    FromIgnoresStart(svc, tokens, start, j + 1);
    var raw := OrEmpty(svc(tokens[j]).items);
    assert SliceFrom(raw, 0) == raw;
  }

  lemma {:induction false} FromIgnoresStart<T>(svc: Service<T>, tokens: seq<Option<string>>, start: Option<int>, i: nat)
    requires 1 <= i <= |tokens|
    ensures From(svc, tokens, start, i) == From(svc, tokens, None, i)
    decreases |tokens| - i
  {
    if i < |tokens| { FromIgnoresStart(svc, tokens, start, i + 1); }
  }

  /** Two runs joined by the token: the first m items, then exactly the others, unless the page has no list. */
  lemma ResumeLosesNothing<T>(svc: Service<T>, checkMore: bool, tokens: seq<Option<string>>, startingToken: Option<string>, m: nat)
    requires ValidRun(svc, checkMore, tokens, startingToken)
    ensures
      var run := Run(svc, checkMore, Some(m), startingToken, tokens);
      var start := Cut(startingToken);
      var all := From(svc, tokens, start, 0);
      && run.error == None && 1 <= |run.pages| <= |tokens|
      && Flat(run.pages) == all[..Min(m, |all|)]
      && (run.resume.None? ==> Flat(run.pages) == all)
      && (run.resume.Some? && CanName(svc, tokens, start, run.pages) ==>
           var j := StopPage(svc, tokens, start, run.pages);
           && j < |tokens| && m <= |all| && Chain(svc, checkMore, tokens[j..])
           && StartOf(run.resume).Some? && StartOf(run.resume).value.token == tokens[j]
           && var second := Run(svc, checkMore, None, run.resume, tokens[j..]);
              if svc(tokens[j]).items.None? then second.error == Some(NoPrimaryList)
              else second.error == None && second.resume == None && Flat(second.pages) == all[m..])
  {
    BoundedRun(svc, checkMore, tokens, startingToken, m);
    var run := Run(svc, checkMore, Some(m), startingToken, tokens);
    var start := Cut(startingToken);
    if run.resume.Some? && CanName(svc, tokens, start, run.pages) {
      ResumeTokenIsRight(svc, checkMore, tokens, startingToken, m);
      RestAfterStop(svc, checkMore, tokens, startingToken, m);
      UnboundedResume(svc, checkMore, tokens, StopPage(svc, tokens, start, run.pages),
        StopIndex(svc, tokens, start, run.pages), run.resume.value);
    }
  }

  /** Where a run bounded by n stops, told from the lengths of the pages: the page, and whether it is cut. */
  function StopAt<T>(svc: Service<T>, tokens: seq<Option<string>>, start: Option<int>, i: nat, n: nat): (stop: (nat, bool))
    requires i < |tokens|
    ensures i <= stop.0 < |tokens|
    decreases |tokens| - i
  {
    var length := |PageItems(svc, tokens, start, i)|;
    if n < length then (i, true)
    else if i == |tokens| - 1 || n == length then (i, false)
    else StopAt(svc, tokens, start, i + 1, n - length)
  }

  lemma {:induction false} StopsThere<T>(svc: Service<T>, checkMore: bool, m: nat, start: Option<int>,
                                         tokens: seq<Option<string>>, i: nat, total: nat)
    requires Complete(svc, checkMore, tokens) && i < |tokens| && total <= m
    ensures
      var pages, stop := Walk(svc, checkMore, Some(m), start, tokens, i, total).pages, StopAt(svc, tokens, start, i, m - total);
      i + |pages| == stop.0 + 1 && (Truncated(svc, tokens, start, i, pages) <==> stop.1)
    decreases |tokens| - i
  {
    hide Walk, PageItems, From, WithIndex, TokenText, Named;
    WalkBounded(svc, checkMore, m, start, tokens, i, total);
    var items := PageItems(svc, tokens, start, i);
    if m - total > |items| && i < |tokens| - 1 {
      StopsThere(svc, checkMore, m, start, tokens, i + 1, total + |items|);
      LastPage(svc, tokens, start, i, items, Walk(svc, checkMore, Some(m), start, tokens, i + 1, total + |items|).pages);
    }
  }

  lemma LastPage<T>(svc: Service<T>, tokens: seq<Option<string>>, start: Option<int>, i: nat, first: seq<T>, rest: seq<seq<T>>)
    requires rest != [] && i + 1 + |rest| <= |tokens|
    ensures Truncated(svc, tokens, start, i, [first] + rest) <==> Truncated(svc, tokens, start, i + 1, rest)
  {
    hide PageItems;
    assert ([first] + rest)[|rest|] == rest[|rest| - 1];
  }

  /** Whether the token can be right is known before the run: from the bound, the lengths of the pages and the start. */
  lemma CanNameFromLengths<T>(svc: Service<T>, checkMore: bool, tokens: seq<Option<string>>, startingToken: Option<string>, m: nat)
    requires ValidRun(svc, checkMore, tokens, startingToken)
    ensures
      var run, start := Run(svc, checkMore, Some(m), startingToken, tokens), Cut(startingToken);
      var stop := StopAt(svc, tokens, start, 0, m);
      && 1 <= |run.pages| <= |tokens|
      && (CanName(svc, tokens, start, run.pages) <==>
           (stop.1 ==> if stop.0 == 0 then tokens[0].None? else start.None? || start.value == 0))
  {
    StopsThere(svc, checkMore, m, Cut(startingToken), tokens, 0, 0);
  }

  /** A run that was not itself resumed can always name its position. */
  lemma FreshRunCanName<T>(svc: Service<T>, checkMore: bool, tokens: seq<Option<string>>, m: nat)
    requires ValidRun(svc, checkMore, tokens, None)
    ensures var run := Run(svc, checkMore, Some(m), None, tokens);
      1 <= |run.pages| <= |tokens| && CanName(svc, tokens, None, run.pages)
  {
    BoundedRun(svc, checkMore, tokens, None, m);
  }

  /** Two pages; the second is reached by token "t". */
  function TwoPages(sent: Option<string>): Page<int> {
    if sent == Some("t") then Page(Some([2, 3, 4]), None, false) else Page(Some([0, 1]), Some("t"), true)
  }

  /** A resumed run cut on its first page forgets its token and points back at the first page. */
  lemma ResumedRunForgetsItsToken()
    ensures ParseStart("t___1") == Some(Start(Some("t"), 1))
    ensures Chain(TwoPages, false, [Some("t")])
    ensures Run(TwoPages, false, Some(1), Some("t___1"), [Some("t")]) == Outcome([[3]], Some("None___2"), None)
  {
    var t := Some("t");
    assert NatText(1) == "1" && NatText(2) == "2";
    assert WithIndex(t, 1) == "t___1" && WithIndex(None, 2) == "None___2";
    StartOfIndexedToken(t, 1);
    assert SliceFrom([2, 3, 4], 1) == [3, 4] && [3, 4][..1] == [3];
  }
}
