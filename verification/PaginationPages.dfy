/** What a run of the page iterator does, told from the pages of the service alone. */
module PaginationPages {
  import opened Results
  import opened Numerals
  import opened Pagination

  /** The page names a next token, and the more_results marker, where there is one, says that there is more. */
  predicate LeadsOn<T>(checkMore: bool, page: Page<T>) {
    page.token.Some? && (checkMore ==> page.more)
  }

  /** A page that leads on to another token than the page before is not the last; its token is sent next. */
  predicate Requested<T>(svc: Service<T>, checkMore: bool, tokens: seq<Option<string>>, i: nat)
    requires i < |tokens|
  {
    && (i + 1 < |tokens| <==> LeadsOn(checkMore, svc(tokens[i])) && (i > 0 ==> svc(tokens[i]).token != svc(tokens[i - 1]).token))
    && (i + 1 < |tokens| ==>
          tokens[i + 1] == if svc(tokens[i]).token == Some("None") then tokens[i] else svc(tokens[i]).token)
  }

  /** The tokens of the requests that the pages call for. */
  ghost predicate Requests<T>(svc: Service<T>, checkMore: bool, tokens: seq<Option<string>>) {
    |tokens| >= 1 && forall i :: 0 <= i < |tokens| ==> Requested(svc, checkMore, tokens, i)
  }

  /** How many items Python's xs[k:] leaves out at the front. */
  function Skipped(n: nat, k: int): (r: nat)
    ensures r <= n
  {
    if k + n < 0 then 0 else if k < 0 then n + k else if k < n then k else n
  }

  /** The items of a page, from the starting index on if there is one. */
  function Listed<T>(page: Page<T>, cut: Option<int>): seq<T> {
    match page.items
    case None => []
    case Some(items) => if cut.None? then items else items[Skipped(|items|, cut.value)..]
  }

  function CutOf(start: Option<int>, i: nat): Option<int> {
    if i == 0 then start else None
  }

  /** The pages yielded before the last one: all their items, fewer than asked for, each leading on to a new token. */
  ghost predicate PagesBefore<T>(svc: Service<T>, checkMore: bool, max: Option<nat>, start: Option<int>,
                                 tokens: seq<Option<string>>, pages: seq<seq<T>>) {
    && |pages| < |tokens|
    && (forall i :: 0 <= i < |pages| ==>
          && LeadsOn(checkMore, svc(tokens[i]))
          && (i > 0 ==> svc(tokens[i]).token != svc(tokens[i - 1]).token)
          && pages[i] == Listed(svc(tokens[i]), CutOf(start, i)))
    && (max.Some? ==> |Flat(pages)| < max.value || pages == [])
  }

  /** The last page yielded, page i of the listing, and what the run leaves. */
  ghost predicate LastPage<T>(svc: Service<T>, checkMore: bool, max: Option<nat>, start: Option<int>, tokens: seq<Option<string>>,
                              i: nat, before: nat, last: seq<T>, resume: Option<string>, error: Option<Error>)
    requires i < |tokens|
  {
    var page := svc(tokens[i]);
    var items := Listed(page, CutOf(start, i));
    if max.Some? && before + |items| > max.value then
      && before <= max.value && last == items[..max.value - before] && error == None
      && (i > 0 ==> svc(tokens[i - 1]).token.Some?)
      && var name := if i == 0 then "None" else svc(tokens[i - 1]).token.value;
      resume == Some(name + "___" + IntText(max.value - before + if start.Some? then start.value else 0))
    else
      && last == items
      && if !LeadsOn(checkMore, page) then resume == None && error == None
         else if max == Some(before + |items|) then resume == page.token && error == None
         else i > 0 && page.token == svc(tokens[i - 1]).token && resume == None && error == Some(SameTokenTwice)
  }

  /** A run that got as far as yielding a page. */
  ghost predicate Iterated<T>(svc: Service<T>, checkMore: bool, max: Option<nat>, start: Option<int>,
                              tokens: seq<Option<string>>, o: Outcome<T>) {
    var n := |o.pages|;
    && 0 < n <= |tokens|
    && PagesBefore(svc, checkMore, max, start, tokens, o.pages[..n - 1])
    && LastPage(svc, checkMore, max, start, tokens, n - 1, |Flat(o.pages[..n - 1])|, o.pages[n - 1], o.resume, o.error)
  }

  // ----- Requests

  lemma LeadsOnIsNext<T>(checkMore: bool, page: Page<T>)
    ensures Next(checkMore, page).Some? <==> LeadsOn(checkMore, page)
    ensures LeadsOn(checkMore, page) ==> Next(checkMore, page) == page.token
  {
  }

  lemma RepeatsIs<T>(svc: Service<T>, checkMore: bool, tokens: seq<Option<string>>, i: nat)
    requires i < |tokens| && LeadsOn(checkMore, svc(tokens[i]))
    requires i > 0 ==> LeadsOn(checkMore, svc(tokens[i - 1]))
    ensures Repeats(svc, checkMore, tokens, i) <==> i > 0 && svc(tokens[i]).token == svc(tokens[i - 1]).token
  {
  }

  /** A chain is the run of requests that the pages call for. */
  lemma ChainIsRequests<T>(svc: Service<T>, checkMore: bool, tokens: seq<Option<string>>)
    ensures Chain(svc, checkMore, tokens) <==> Requests(svc, checkMore, tokens)
  {
    if Chain(svc, checkMore, tokens) {
      ChainRequests(svc, checkMore, tokens);
    }
    if Requests(svc, checkMore, tokens) {
      RequestsChain(svc, checkMore, tokens);
    }
  }

  lemma ChainLeads<T>(svc: Service<T>, checkMore: bool, tokens: seq<Option<string>>, i: nat)
    requires Chain(svc, checkMore, tokens) && i < |tokens|
    ensures i > 0 ==> LeadsOn(checkMore, svc(tokens[i - 1]))
    ensures Requested(svc, checkMore, tokens, i)
  {
    LeadsOnIsNext(checkMore, svc(tokens[i]));
    if i > 0 {
      assert Link(svc, checkMore, tokens, i - 1);
      LeadsOnIsNext(checkMore, svc(tokens[i - 1]));
    }
    if LeadsOn(checkMore, svc(tokens[i])) {
      RepeatsIs(svc, checkMore, tokens, i);
    }
    if i + 1 < |tokens| {
      assert Link(svc, checkMore, tokens, i);
    } else {
      assert tokens[i] == tokens[|tokens| - 1];
    }
  }

  lemma ChainRequests<T>(svc: Service<T>, checkMore: bool, tokens: seq<Option<string>>)
    requires Chain(svc, checkMore, tokens)
    ensures Requests(svc, checkMore, tokens)
  {
    forall i: nat | i < |tokens|
      ensures Requested(svc, checkMore, tokens, i)
    {
      ChainLeads(svc, checkMore, tokens, i);
    }
    hide Requested, Chain;
  }

  lemma RequestsLink<T>(svc: Service<T>, checkMore: bool, tokens: seq<Option<string>>, i: nat)
    requires Requests(svc, checkMore, tokens) && i < |tokens|
    ensures i + 1 < |tokens| ==> Link(svc, checkMore, tokens, i)
    ensures i + 1 == |tokens| ==> Next(checkMore, svc(tokens[i])).None? || Repeats(svc, checkMore, tokens, i)
  {
    assert Requested(svc, checkMore, tokens, i);
    LeadsOnIsNext(checkMore, svc(tokens[i]));
    if i > 0 {
      assert Requested(svc, checkMore, tokens, i - 1);
      LeadsOnIsNext(checkMore, svc(tokens[i - 1]));
    }
    if LeadsOn(checkMore, svc(tokens[i])) {
      RepeatsIs(svc, checkMore, tokens, i);
    }
  }

  lemma RequestsChain<T>(svc: Service<T>, checkMore: bool, tokens: seq<Option<string>>)
    requires Requests(svc, checkMore, tokens)
    ensures Chain(svc, checkMore, tokens)
  {
    forall i: nat | i < |tokens| - 1
      ensures Link(svc, checkMore, tokens, i)
    {
      RequestsLink(svc, checkMore, tokens, i);
    }
    RequestsLink(svc, checkMore, tokens, |tokens| - 1);
  }

  // ----- The loop

  lemma ItemsAreListed<T>(svc: Service<T>, tokens: seq<Option<string>>, start: Option<int>, i: nat)
    requires i < |tokens|
    ensures PageItems(svc, tokens, start, i) == Listed(svc(tokens[i]), CutOf(start, i))
  {
  }

  /** How the loop leaves a page. */
  lemma VisitIsLast<T>(svc: Service<T>, checkMore: bool, max: Option<nat>, start: Option<int>,
                       tokens: seq<Option<string>>, i: nat, total: nat)
    requires i < |tokens| && (i > 0 ==> LeadsOn(checkMore, svc(tokens[i - 1])))
    requires max.Some? ==> total <= max.value
    ensures
      var items := Listed(svc(tokens[i]), CutOf(start, i));
      match Visit(svc, checkMore, max, start, tokens, i, total)
      case Some(o) => |o.pages| == 1 && LastPage(svc, checkMore, max, start, tokens, i, total, o.pages[0], o.resume, o.error)
      case None =>
        && LeadsOn(checkMore, svc(tokens[i]))
        && (i > 0 ==> svc(tokens[i]).token != svc(tokens[i - 1]).token)
        && (max.Some? ==> total + |items| < max.value)
  {
    ItemsAreListed(svc, tokens, start, i);
    LeadsOnIsNext(checkMore, svc(tokens[i]));
    if i > 0 {
      LeadsOnIsNext(checkMore, svc(tokens[i - 1]));
    }
    if LeadsOn(checkMore, svc(tokens[i])) {
      RepeatsIs(svc, checkMore, tokens, i);
    }
    hide PageItems, Listed, Next, LeadsOn, Repeats, CutOf;
  }

  lemma {:induction false} FlatSnoc<T>(pages: seq<seq<T>>, page: seq<T>)
    ensures Flat(pages + [page]) == Flat(pages) + page
    decreases |pages|
  {
    if pages == [] {
      assert [page][1..] == [];
    } else {
      assert (pages + [page])[1..] == pages[1..] + [page];
      FlatSnoc(pages[1..], page);
    }
  }

  lemma OnePageMore<T>(svc: Service<T>, checkMore: bool, max: Option<nat>, start: Option<int>,
                       tokens: seq<Option<string>>, pages: seq<seq<T>>, page: seq<T>)
    requires PagesBefore(svc, checkMore, max, start, tokens, pages) && |pages| + 1 < |tokens|
    requires page == Listed(svc(tokens[|pages|]), CutOf(start, |pages|))
    requires LeadsOn(checkMore, svc(tokens[|pages|]))
    requires |pages| > 0 ==> svc(tokens[|pages|]).token != svc(tokens[|pages| - 1]).token
    requires max.Some? ==> |Flat(pages)| + |page| < max.value
    ensures PagesBefore(svc, checkMore, max, start, tokens, pages + [page])
  {
    FlatSnoc(pages, page);
    hide LeadsOn, Listed, Flat, CutOf;
  }

  lemma IteratedHere<T>(svc: Service<T>, checkMore: bool, max: Option<nat>, start: Option<int>, tokens: seq<Option<string>>,
                        pages: seq<seq<T>>, o: Outcome<T>)
    requires PagesBefore(svc, checkMore, max, start, tokens, pages) && |o.pages| == 1
    requires LastPage(svc, checkMore, max, start, tokens, |pages|, |Flat(pages)|, o.pages[0], o.resume, o.error)
    ensures Iterated(svc, checkMore, max, start, tokens, Prepend(pages, o))
  {
    hide PagesBefore, LastPage;
    LengthOfBefore(svc, checkMore, max, start, tokens, pages);
    var r := Prepend(pages, o);
    assert r.pages[..|pages|] == pages && r.pages[|pages|] == o.pages[0];
  }

  lemma LengthOfBefore<T>(svc: Service<T>, checkMore: bool, max: Option<nat>, start: Option<int>, tokens: seq<Option<string>>,
                          pages: seq<seq<T>>)
    requires PagesBefore(svc, checkMore, max, start, tokens, pages)
    ensures |pages| < |tokens|
    ensures pages != [] ==> LeadsOn(checkMore, svc(tokens[|pages| - 1]))
    ensures max.Some? ==> |Flat(pages)| <= max.value
  {
    hide LeadsOn, Listed;
    if pages != [] {
      assert pages[|pages| - 1] == Listed(svc(tokens[|pages| - 1]), CutOf(start, |pages| - 1));
    }
  }

  lemma {:induction false} WalkIterates<T>(svc: Service<T>, checkMore: bool, max: Option<nat>, start: Option<int>,
                                           tokens: seq<Option<string>>, pages: seq<seq<T>>)
    requires Chain(svc, checkMore, tokens) && PagesBefore(svc, checkMore, max, start, tokens, pages)
    ensures |pages| < |tokens| && (max.Some? ==> |Flat(pages)| <= max.value)
    ensures Iterated(svc, checkMore, max, start, tokens, Prepend(pages, Walk(svc, checkMore, max, start, tokens, |pages|, |Flat(pages)|)))
    decreases |tokens| - |pages|
  {
    hide *;
    LengthOfBefore(svc, checkMore, max, start, tokens, pages);
    var i, total := |pages|, |Flat(pages)|;
    var items := PageItems(svc, tokens, start, i);
    VisitIsLast(svc, checkMore, max, start, tokens, i, total);
    WalkVisits(svc, checkMore, max, start, tokens, i, total, pages);
    ItemsAreListed(svc, tokens, start, i);
    match Visit(svc, checkMore, max, start, tokens, i, total)
    case Some(o) =>
      IteratedHere(svc, checkMore, max, start, tokens, pages, o);
    case None =>
      OnePageMore(svc, checkMore, max, start, tokens, pages, items);
      FlatSnoc(pages, items);
      WalkIterates(svc, checkMore, max, start, tokens, pages + [items]);
  }

  // ----- There is only one such outcome

  lemma SameBefore<T>(svc: Service<T>, checkMore: bool, max: Option<nat>, start: Option<int>, tokens: seq<Option<string>>,
                      a: seq<seq<T>>, b: seq<seq<T>>)
    requires PagesBefore(svc, checkMore, max, start, tokens, a) && PagesBefore(svc, checkMore, max, start, tokens, b)
    requires |a| <= |b|
    ensures a == b[..|a|]
  {
    hide LeadsOn, Listed;
  }

  lemma {:induction false} FlatPrefix<T>(pages: seq<seq<T>>, n: nat)
    requires n <= |pages|
    ensures |Flat(pages[..n])| <= |Flat(pages)|
    decreases |pages|
  {
    if n > 0 {
      assert pages[..n][1..] == pages[1..][..n - 1];
      FlatPrefix(pages[1..], n - 1);
    }
  }

  /** A run that goes on after a page does not end with it. */
  lemma NotLast<T>(svc: Service<T>, checkMore: bool, max: Option<nat>, start: Option<int>, tokens: seq<Option<string>>,
                   pages: seq<seq<T>>, n: nat)
    requires PagesBefore(svc, checkMore, max, start, tokens, pages) && n < |pages|
    ensures forall last, resume, error ::
      !LastPage(svc, checkMore, max, start, tokens, n, |Flat(pages[..n])|, last, resume, error)
  {
    hide LeadsOn, Listed, Flat, CutOf;
    FlatSnoc(pages[..n], pages[n]);
    assert pages[..n + 1] == pages[..n] + [pages[n]];
    FlatPrefix(pages, n + 1);
    assert pages[n] == Listed(svc(tokens[n]), CutOf(start, n));
  }

  /** The run stops at the first page it can. */
  lemma NotEarlier<T>(svc: Service<T>, checkMore: bool, max: Option<nat>, start: Option<int>, tokens: seq<Option<string>>,
                      a: Outcome<T>, b: seq<seq<T>>)
    requires Iterated(svc, checkMore, max, start, tokens, a)
    requires PagesBefore(svc, checkMore, max, start, tokens, b)
    ensures |b| < |a.pages|
  {
    hide PagesBefore, LastPage, Flat;
    if |a.pages| <= |b| {
      SameBefore(svc, checkMore, max, start, tokens, a.pages[..|a.pages| - 1], b);
      NotLast(svc, checkMore, max, start, tokens, b, |a.pages| - 1);
    }
  }

  lemma OneLast<T>(svc: Service<T>, checkMore: bool, max: Option<nat>, start: Option<int>, tokens: seq<Option<string>>,
                   i: nat, before: nat, a: Outcome<T>, b: Outcome<T>, x: seq<T>, y: seq<T>)
    requires i < |tokens|
    requires LastPage(svc, checkMore, max, start, tokens, i, before, x, a.resume, a.error)
    requires LastPage(svc, checkMore, max, start, tokens, i, before, y, b.resume, b.error)
    ensures x == y && a.resume == b.resume && a.error == b.error
  {
    hide LeadsOn, Listed, CutOf;
  }

  lemma OnlyOne<T>(svc: Service<T>, checkMore: bool, max: Option<nat>, start: Option<int>, tokens: seq<Option<string>>,
                   a: Outcome<T>, b: Outcome<T>)
    requires Iterated(svc, checkMore, max, start, tokens, a) && Iterated(svc, checkMore, max, start, tokens, b)
    ensures a == b
  {
    hide PagesBefore, LastPage, Flat;
    var n := |a.pages| - 1;
    NotEarlier(svc, checkMore, max, start, tokens, a, b.pages[..|b.pages| - 1]);
    NotEarlier(svc, checkMore, max, start, tokens, b, a.pages[..n]);
    SameBefore(svc, checkMore, max, start, tokens, a.pages[..n], b.pages[..n]);
    assert |b.pages| == n + 1 && a.pages[..n] == b.pages[..n];
    OneLast(svc, checkMore, max, start, tokens, n, |Flat(a.pages[..n])|, a, b, a.pages[n], b.pages[n]);
    assert a.pages == a.pages[..n] + [a.pages[n]] && b.pages == b.pages[..n] + [b.pages[n]];
  }

  // ----- Starting tokens

  /** The starting token as it is read: "None" stands for no token. */
  predicate Reads(text: string, token: Option<string>) {
    if text == "None" then token == None else token == Some(text)
  }

  ghost predicate Unseparated(s: string) {
    forall i :: !SepAt(s, i)
  }

  /** A token text without a separator starts at index 0. */
  lemma StartOfPlainText(s: string)
    requires Unseparated(s)
    ensures ParseStart(s).Some? && Reads(s, ParseStart(s).value.token) && ParseStart(s).value.index == 0
  {
    FindSepIs(s, 0, None);
  }

  /** With one separator the index is behind it; with more of them only the first part counts. */
  lemma StartOfSeparatedText(s: string, at: nat)
    requires SepAt(s, at) && forall i :: 0 <= i < at ==> !SepAt(s, i)
    ensures
      var head, tail := s[..at], s[at + 3..];
      if Unseparated(tail) then
        match ReadInt(tail)
        case Some(index) => ParseStart(s).Some? && Reads(head, ParseStart(s).value.token) && ParseStart(s).value.index == index
        case None => ParseStart(s) == None
      else ParseStart(s).Some? && Reads(head, ParseStart(s).value.token) && ParseStart(s).value.index == 0
  {
    hide ReadInt;
    FindSepIs(s, 0, Some(at));
    var tail := s[at + 3..];
    if Unseparated(tail) {
      FindSepIs(tail, 0, None);
    } else {
      assert FindSep(tail, 0).Some?;
      assert |SplitSep(tail)| >= 2;
    }
  }

  // ----- Whole runs

  lemma NothingBefore<T>(svc: Service<T>, checkMore: bool, max: Option<nat>, start: Option<int>, tokens: seq<Option<string>>)
    requires |tokens| >= 1
    ensures PagesBefore(svc, checkMore, max, start, tokens, []) && Flat<T>([]) == []
  {
  }

  /** A run without a starting token, or whose starting token is read as this token and this index. */
  predicate StartsWith(startingToken: Option<string>, token: Option<string>, cut: Option<int>) {
    match startingToken
    case None => token == None && cut == None
    case Some(text) => ParseStart(text).Some? && token == ParseStart(text).value.token && cut == Some(ParseStart(text).value.index)
  }

  /** Exactly what a run yields, which token it leaves and how it fails, from the pages of the service. */
  lemma RunIterates<T>(svc: Service<T>, checkMore: bool, max: Option<nat>, startingToken: Option<string>, cut: Option<int>,
                       tokens: seq<Option<string>>, o: Outcome<T>)
    requires Requests(svc, checkMore, tokens) && StartsWith(startingToken, tokens[0], cut)
    ensures Chain(svc, checkMore, tokens) && StartOf(startingToken).Some? && tokens[0] == StartOf(startingToken).value.token
    ensures Run(svc, checkMore, max, startingToken, tokens) == o <==>
            if cut.Some? && svc(tokens[0]).items.None? then o == Outcome([], None, Some(NoPrimaryList))
            else Iterated(svc, checkMore, max, cut, tokens, o)
  {
    RequestsChain(svc, checkMore, tokens);
    hide Requests, Chain, Iterated, PagesBefore, Walk, Flat;
    NothingBefore(svc, checkMore, max, cut, tokens);
    WalkIterates(svc, checkMore, max, cut, tokens, []);
    var walk := Walk(svc, checkMore, max, cut, tokens, 0, 0);
    PrependNone(walk);
    if Iterated(svc, checkMore, max, cut, tokens, o) {
      OnlyOne(svc, checkMore, max, cut, tokens, o, walk);
    }
  }

  /** The page where the service says that the listing is finished is the last one, and leaves a token only if it was truncated. */
  lemma FinishedListing<T>(svc: Service<T>, checkMore: bool, max: Option<nat>, startingToken: Option<string>,
                           tokens: seq<Option<string>>, i: nat)
    requires Chain(svc, checkMore, tokens)
    requires StartOf(startingToken).Some? && tokens[0] == StartOf(startingToken).value.token
    requires i < |Run(svc, checkMore, max, startingToken, tokens).pages|
    ensures i < |tokens|
    ensures
      var page := svc(tokens[i]);
      var o := Run(svc, checkMore, max, startingToken, tokens);
      page.token.None? || (checkMore && !page.more) ==>
        && i == |o.pages| - 1 && i == |tokens| - 1 && o.error == None
        && (o.pages[i] == Listed(page, CutOf(Cut(startingToken), i)) ==> o.resume == None)
  {
    hide *;
    ChainRequests(svc, checkMore, tokens);
    var o := Run(svc, checkMore, max, startingToken, tokens);
    var cut := Cut(startingToken);
    StartIs(startingToken);
    RunIterates(svc, checkMore, max, startingToken, cut, tokens, o);
    FinishedAt(svc, checkMore, max, cut, tokens, o, i);
  }

  lemma StartIs(startingToken: Option<string>)
    requires StartOf(startingToken).Some?
    ensures StartsWith(startingToken, StartOf(startingToken).value.token, Cut(startingToken))
  {
  }

  lemma FinishedAt<T>(svc: Service<T>, checkMore: bool, max: Option<nat>, start: Option<int>, tokens: seq<Option<string>>,
                      o: Outcome<T>, i: nat)
    requires Requests(svc, checkMore, tokens)
    requires (o == Outcome([], None, Some(NoPrimaryList))) || Iterated(svc, checkMore, max, start, tokens, o)
    requires i < |o.pages|
    ensures i < |tokens|
    ensures
      var page := svc(tokens[i]);
      page.token.None? || (checkMore && !page.more) ==>
        && i == |o.pages| - 1 && i == |tokens| - 1 && o.error == None
        && (o.pages[i] == Listed(page, CutOf(start, i)) ==> o.resume == None)
  {
    hide PagesBefore, Listed, Flat, CutOf;
    var n := |o.pages| - 1;
    assert i < n ==> LeadsOn(checkMore, svc(tokens[i])) by {
      if i < n {
        LedOn(svc, checkMore, max, start, tokens, o.pages[..n], i);
      }
    }
    assert Requested(svc, checkMore, tokens, i);
  }

  lemma LedOn<T>(svc: Service<T>, checkMore: bool, max: Option<nat>, start: Option<int>, tokens: seq<Option<string>>,
                 pages: seq<seq<T>>, i: nat)
    requires PagesBefore(svc, checkMore, max, start, tokens, pages) && i < |pages|
    ensures LeadsOn(checkMore, svc(tokens[i]))
  {
    hide LeadsOn, Listed, Flat;
    assert pages[i] == Listed(svc(tokens[i]), CutOf(start, i));
  }
}
