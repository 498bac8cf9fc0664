/** PageIterator of botocore/paginate.py with one input token: pages, truncation and resume tokens. */
module Pagination {
  import opened Results
  import opened Numerals

  /** A page: the primary result list, if the key is present, and the markers of the next page. */
  datatype Page<+T> = Page(items: Option<seq<T>>, token: Option<string>, more: bool)

  /** The service call; no token is sent for the first page. */
  type Service<T> = Option<string> -> Page<T>

  datatype Error = BadStartingToken | SameTokenTwice | NoPrimaryList

  /** What an iteration did: the primary list of every page it yielded, its resume token, its exception. */
  datatype Outcome<T> = Outcome(pages: seq<seq<T>>, resume: Option<string>, error: Option<Error>)

  // ----- Tokens as text

  predicate SepAt(s: string, i: int) {
    0 <= i && i + 3 <= |s| && s[i] == '_' && s[i + 1] == '_' && s[i + 2] == '_'
  }

  function FindSep(s: string, from: nat): (r: Option<nat>)
    requires from <= |s|
    ensures r.Some? ==> from <= r.value && SepAt(s, r.value) && forall i :: from <= i < r.value ==> !SepAt(s, i)
    ensures r.None? ==> forall i :: from <= i ==> !SepAt(s, i)
    decreases |s| - from
  {
    if from == |s| then None
    else if SepAt(s, from) then Some(from)
    else FindSep(s, from + 1)
  }

  /** s.split('___') */
  function SplitSep(s: string): (r: seq<string>)
    ensures |r| >= 1
    decreases |s|
  {
    match FindSep(s, 0)
    case None => [s]
    case Some(i) => [s[..i]] + SplitSep(s[i + 3..])
  }

  function TokenText(t: Option<string>): string {
    if t.None? then "None" else t.value
  }

  function ReadToken(s: string): Option<string> {
    if s == "None" then None else Some(s)
  }

  datatype Start = Start(token: Option<string>, index: int)

  /** _parse_starting_token for one input token. */
  function ParseStart(s: string): Option<Start> {
    var parts := SplitSep(s);
    if |parts| == 2 then
      var index := ReadInt(parts[1]);
      if index.None? then None else Some(Start(ReadToken(parts[0]), index.value))
    else Some(Start(ReadToken(parts[0]), 0))
  }

  /** Tokens that survive being joined with an index. */
  ghost predicate GoodToken(t: Option<string>) {
    t.Some? ==>
      && t.value != "None"
      && (forall i :: !SepAt(t.value, i))
      && (t.value != "" ==> t.value[|t.value| - 1] != '_')
  }

  function WithIndex(t: Option<string>, index: int): string {
    TokenText(t) + "___" + IntText(index)
  }

  lemma FindSepIs(s: string, from: nat, at: Option<nat>)
    requires from <= |s|
    requires at.Some? ==> from <= at.value && SepAt(s, at.value) && forall i :: from <= i < at.value ==> !SepAt(s, i)
    requires at.None? ==> forall i :: from <= i ==> !SepAt(s, i)
    ensures FindSep(s, from) == at
  {
  }

  lemma NoUnderscore(i: int)
    ensures forall k :: !SepAt(IntText(i), k)
  {
    if i < 0 {
      var d := NatText(-i);
      assert forall k :: 0 < k < |IntText(i)| ==> IntText(i)[k] == d[k - 1];
    }
    assert forall k :: 0 <= k < |IntText(i)| ==> IntText(i)[k] != '_';
  }

  lemma GoodTokenText(t: Option<string>)
    requires GoodToken(t)
    ensures forall i :: !SepAt(TokenText(t), i)
    ensures TokenText(t) != "" ==> TokenText(t)[|TokenText(t)| - 1] != '_'
    ensures ReadToken(TokenText(t)) == t
  {
  }

  lemma StartOfBareToken(t: Option<string>)
    requires GoodToken(t)
    ensures ParseStart(TokenText(t)) == Some(Start(t, 0))
  {
    GoodTokenText(t);
    FindSepIs(TokenText(t), 0, None);
  }

  /** Reading a token with an index gives both back. */
  lemma StartOfIndexedToken(t: Option<string>, index: int)
    requires GoodToken(t)
    ensures ParseStart(WithIndex(t, index)) == Some(Start(t, index))
  {
    var a, d := TokenText(t), IntText(index);
    var s := a + "___" + d;
    GoodTokenText(t);
    assert forall i :: 0 <= i < |a| ==> s[i] == a[i];
    assert s[|a|] == '_' && s[|a| + 1] == '_' && s[|a| + 2] == '_';
    assert |a| > 0 ==> s[|a| - 1] != '_';
    forall i | 0 <= i < |a| ensures !SepAt(s, i) {
      if i + 3 <= |a| {
        assert !SepAt(a, i);
      }
    }
    FindSepIs(s, 0, Some(|a|));
    assert s[..|a|] == a && s[|a| + 3..] == d;
    NoUnderscore(index);
    FindSepIs(d, 0, None);
    ReadIntOfText(index);
    assert SplitSep(s) == [a, d];
  }

  lemma WithIndexInjective(s: Option<string>, i: int, t: Option<string>, j: int)
    requires GoodToken(s) && GoodToken(t) && WithIndex(s, i) == WithIndex(t, j)
    ensures s == t && i == j
  {
    StartOfIndexedToken(s, i);
    StartOfIndexedToken(t, j);
  }

  // ----- Runs

  function Flat<T>(pages: seq<seq<T>>): seq<T> {
    if pages == [] then [] else pages[0] + Flat(pages[1..])
  }

  /** Python's xs[k:]. */
  function SliceFrom<T>(xs: seq<T>, k: int): seq<T> {
    if k < 0 then (if -k < |xs| then xs[|xs| + k..] else xs)
    else if k < |xs| then xs[k..] else []
  }

  function OrEmpty<T>(items: Option<seq<T>>): seq<T> {
    if items.None? then [] else items.value
  }

  /** _get_next_token: a false more_results marker hides the token. */
  function Next<T>(checkMore: bool, page: Page<T>): Option<string> {
    if checkMore && !page.more then None else page.token
  }

  /** Whether a token replaces the one in the arguments: the text 'None' does not. */
  function Send(sent: Option<string>, next: Option<string>): Option<string> {
    if next.None? || next.value == "None" then sent else next
  }

  /** The token that page i was named by. */
  function Named<T>(svc: Service<T>, checkMore: bool, tokens: seq<Option<string>>, i: nat): Option<string>
    requires i < |tokens|
  {
    if i == 0 then None else Next(checkMore, svc(tokens[i - 1]))
  }

  predicate Repeats<T>(svc: Service<T>, checkMore: bool, tokens: seq<Option<string>>, i: nat)
    requires i < |tokens|
  {
    i >= 1 && Next(checkMore, svc(tokens[i])) == Named(svc, checkMore, tokens, i)
  }

  /** Page i names a next token that it was not itself named by, and the next request sends it. */
  predicate Link<T>(svc: Service<T>, checkMore: bool, tokens: seq<Option<string>>, i: nat)
    requires i + 1 < |tokens|
  {
    var next := Next(checkMore, svc(tokens[i]));
    next.Some? && tokens[i + 1] == Send(tokens[i], next) && !Repeats(svc, checkMore, tokens, i)
  }

  /** The tokens that successive requests send, until a page names no next one or names its own again. */
  predicate Chain<T>(svc: Service<T>, checkMore: bool, tokens: seq<Option<string>>) {
    && |tokens| >= 1
    && (forall i :: 0 <= i < |tokens| - 1 ==> Link(svc, checkMore, tokens, i))
    && (Next(checkMore, svc(tokens[|tokens| - 1])).None? || Repeats(svc, checkMore, tokens, |tokens| - 1))
  }

  /** A chain that ends with a page without a next token. */
  predicate Complete<T>(svc: Service<T>, checkMore: bool, tokens: seq<Option<string>>) {
    Chain(svc, checkMore, tokens) && Next(checkMore, svc(tokens[|tokens| - 1])).None?
  }

  /** The primary list of page i of a run; the first page is cut when the run was resumed. */
  function PageItems<T>(svc: Service<T>, tokens: seq<Option<string>>, start: Option<int>, i: nat): seq<T>
    requires i < |tokens|
  {
    var items := OrEmpty(svc(tokens[i]).items);
    if i == 0 && start.Some? then SliceFrom(items, start.value) else items
  }

  /** How the loop leaves page i, with `total` items yielded before it: yielding what, stopping or not. */
  function Visit<T>(svc: Service<T>, checkMore: bool, max: Option<nat>, start: Option<int>,
                    tokens: seq<Option<string>>, i: nat, total: nat): Option<Outcome<T>>
    requires i < |tokens|
    requires max.Some? ==> total <= max.value
  {
    var items := PageItems(svc, tokens, start, i);
    var next := Next(checkMore, svc(tokens[i]));
    if max.Some? && total + |items| > max.value then
      var keep := max.value - total;
      var cut := if start.Some? then start.value else 0;
      Some(Outcome([items[..keep]], Some(WithIndex(Named(svc, checkMore, tokens, i), keep + cut)), None))
    else if next.None? then Some(Outcome([items], None, None))
    else if max.Some? && total + |items| == max.value then Some(Outcome([items], Some(TokenText(next)), None))
    else if Repeats(svc, checkMore, tokens, i) then Some(Outcome([items], None, Some(SameTokenTwice)))
    else None
  }

  lemma VisitStopsAtTheEnd<T>(svc: Service<T>, checkMore: bool, max: Option<nat>, start: Option<int>,
                              tokens: seq<Option<string>>, i: nat, total: nat)
    requires Chain(svc, checkMore, tokens) && i < |tokens|
    requires max.Some? ==> total <= max.value
    requires Visit(svc, checkMore, max, start, tokens, i, total).None?
    ensures i + 1 < |tokens| && Link(svc, checkMore, tokens, i)
    ensures max.Some? ==> total + |PageItems(svc, tokens, start, i)| < max.value
  {
  }

  /** The loop from page i on. */
  function Walk<T>(svc: Service<T>, checkMore: bool, max: Option<nat>, start: Option<int>,
                   tokens: seq<Option<string>>, i: nat, total: nat): Outcome<T>
    requires Chain(svc, checkMore, tokens) && i < |tokens|
    requires max.Some? ==> total <= max.value
    decreases |tokens| - i
  {
    match Visit(svc, checkMore, max, start, tokens, i, total)
    case Some(outcome) => outcome
    case None =>
      VisitStopsAtTheEnd(svc, checkMore, max, start, tokens, i, total);
      var items := PageItems(svc, tokens, start, i);
      var rest := Walk(svc, checkMore, max, start, tokens, i + 1, total + |items|);
      Outcome([items] + rest.pages, rest.resume, rest.error)
  }

  /** Where a run starts: the token it sends first and the index its first page is cut at. */
  function StartOf(startingToken: Option<string>): Option<Start> {
    if startingToken.None? then Some(Start(None, 0)) else ParseStart(startingToken.value)
  }

  function Cut(startingToken: Option<string>): Option<int> {
    if startingToken.None? || StartOf(startingToken).None? then None else Some(StartOf(startingToken).value.index)
  }

  /** A whole iteration over the chain that begins at the starting token. */
  function Run<T>(svc: Service<T>, checkMore: bool, max: Option<nat>, startingToken: Option<string>,
                  tokens: seq<Option<string>>): Outcome<T>
    requires StartOf(startingToken).Some? ==>
               Chain(svc, checkMore, tokens) && tokens[0] == StartOf(startingToken).value.token
  {
    if StartOf(startingToken).None? then Outcome([], None, Some(BadStartingToken))
    else if startingToken.Some? && svc(tokens[0]).items.None? then Outcome([], None, Some(NoPrimaryList))
    else Walk(svc, checkMore, max, Cut(startingToken), tokens, 0, 0)
  }

  lemma ReadTokenIsSent(s: string)
    requires ParseStart(s).Some?
    ensures Send(None, ParseStart(s).value.token) == ParseStart(s).value.token
  {
  }

  lemma NextIsSent<T>(svc: Service<T>, checkMore: bool, tokens: seq<Option<string>>, i: nat)
    requires i + 1 < |tokens| && Link(svc, checkMore, tokens, i)
    ensures Named(svc, checkMore, tokens, i + 1) == Next(checkMore, svc(tokens[i])) && Named(svc, checkMore, tokens, i + 1).Some?
    ensures tokens[i + 1] == Send(tokens[i], Next(checkMore, svc(tokens[i])))
  {
  }

  function Prepend<T>(pages: seq<seq<T>>, rest: Outcome<T>): Outcome<T> {
    Outcome(pages + rest.pages, rest.resume, rest.error)
  }

  lemma PrependNone<T>(outcome: Outcome<T>)
    ensures Prepend([], outcome) == outcome
  {
    assert [] + outcome.pages == outcome.pages;
  }

  lemma PrependLast<T>(pages: seq<seq<T>>, page: seq<T>, resume: Option<string>, error: Option<Error>)
    ensures Prepend(pages, Outcome([page], resume, error)) == Outcome(pages + [page], resume, error)
  {
  }

  /** One pass of the loop. */
  lemma WalkVisits<T>(svc: Service<T>, checkMore: bool, max: Option<nat>, start: Option<int>,
                      tokens: seq<Option<string>>, i: nat, total: nat, pages: seq<seq<T>>)
    requires Chain(svc, checkMore, tokens) && i < |tokens|
    requires max.Some? ==> total <= max.value
    ensures
      var here := Prepend(pages, Walk(svc, checkMore, max, start, tokens, i, total));
      var items := PageItems(svc, tokens, start, i);
      match Visit(svc, checkMore, max, start, tokens, i, total)
      case Some(outcome) => here == Prepend(pages, outcome)
      case None =>
        && i + 1 < |tokens| && Link(svc, checkMore, tokens, i)
        && (max.Some? ==> total + |items| < max.value)
        && here == Prepend(pages + [items], Walk(svc, checkMore, max, start, tokens, i + 1, total + |items|))
  {
    if Visit(svc, checkMore, max, start, tokens, i, total).None? {
      VisitStopsAtTheEnd(svc, checkMore, max, start, tokens, i, total);
      var items := PageItems(svc, tokens, start, i);
      var rest := Walk(svc, checkMore, max, start, tokens, i + 1, total + |items|);
      assert pages + ([items] + rest.pages) == pages + [items] + rest.pages;
    }
  }

  class PageIterator<T(0)> {
    const method_: Service<T>
    const checkMore: bool
    const maxItems: Option<nat>
    const startingToken: Option<string>
    var opKwargs: Option<string>
    var resumeToken: Option<string>

    constructor (svc: Service<T>, checkMore: bool, maxItems: Option<nat>, startingToken: Option<string>)
      ensures method_ == svc && this.checkMore == checkMore && this.maxItems == maxItems
      ensures this.startingToken == startingToken && opKwargs == None && resumeToken == None
    {
      this.method_, this.checkMore, this.maxItems, this.startingToken := svc, checkMore, maxItems, startingToken;
      opKwargs, resumeToken := None, None;
    }

    /** resume_token's setter. */
    method SetResumeToken(values: seq<string>)
      requires |values| in {1, 2}
      modifies this`resumeToken
      ensures resumeToken == Some(if |values| == 1 then values[0] else values[0] + "___" + values[1])
    {
      resumeToken := Some(if |values| == 1 then values[0] else values[0] + "___" + values[1]);
    }

    method InjectToken(next: Option<string>)
      modifies this`opKwargs
      ensures opKwargs == Send(old(opKwargs), next)
    {
      if next.Some? && next.value != "None" {
        opKwargs := next;
      }
    }

    /** __iter__, consumed to its end; `tokens` is the chain of the service from the first token sent. */
    method Iterate(ghost tokens: seq<Option<string>>) returns (pages: seq<seq<T>>, error: Option<Error>)
      requires opKwargs == None && resumeToken == None
      requires StartOf(startingToken).Some? ==>
                 Chain(method_, checkMore, tokens) && tokens[0] == StartOf(startingToken).value.token
      modifies this
      ensures Outcome(pages, resumeToken, error) == Run(method_, checkMore, maxItems, startingToken, tokens)
    {
      hide Chain, Walk;
      var start: Option<int> := None;
      if startingToken.Some? {
        var parsed := ParseStart(startingToken.value);
        if parsed.None? { return [], Some(BadStartingToken); }
        ReadTokenIsSent(startingToken.value);
        InjectToken(parsed.value.token);
        start := Some(parsed.value.index);
      }
      pages, error := Request(start, tokens);
    }

    /** What the loop does with the primary list of a page: cut it, stop after it, or go on. */
    method TakePage(parsed: Page<T>, current: seq<T>, total: nat, cut: int, nextToken: Option<string>,
                    ghost start: Option<int>, ghost tokens: seq<Option<string>>, ghost i: nat)
      returns (page: seq<T>, next: Option<string>, stop: bool, error: Option<Error>)
      requires i < |tokens| && parsed == method_(tokens[i]) && current == PageItems(method_, tokens, start, i)
      requires nextToken == Named(method_, checkMore, tokens, i) && (i > 0 ==> nextToken.Some?)
      requires cut == (if start.Some? then start.value else 0) && resumeToken == None
      requires maxItems.Some? ==> total <= maxItems.value
      modifies this`resumeToken
      ensures next == Next(checkMore, parsed) || stop
      ensures
        match Visit(method_, checkMore, maxItems, start, tokens, i, total)
        case Some(outcome) => stop && Outcome([page], resumeToken, error) == outcome
        case None => !stop && page == current && resumeToken == None && error == None
    {
      hide PageItems, Flat;
      page, next, stop, error := current, None, true, None;
      var truncateAmount := 0;
      if maxItems.Some? {
        truncateAmount := total + |current| - maxItems.value;
      }
      if truncateAmount > 0 {
        var amountToKeep := |current| - truncateAmount;
        page := current[..amountToKeep];
        SetResumeToken([TokenText(nextToken), IntText(amountToKeep + cut)]);
        return;
      }
      next := Next(checkMore, parsed);
      if next.None? { return; }
      if maxItems.Some? && total + |current| == maxItems.value {
        SetResumeToken([TokenText(next)]);
        return;
      }
      if nextToken.Some? && nextToken == next {
        error := Some(SameTokenTwice);
        return;
      }
      stop := false;
    }

    /** One response and its primary list, which the first request of a resumed run cuts. */
    method ReadPage(start: Option<int>, firstRequest: bool, ghost tokens: seq<Option<string>>, ghost i: nat)
      returns (parsed: Page<T>, current: seq<T>, error: Option<Error>)
      requires i < |tokens| && opKwargs == tokens[i] && (firstRequest <==> i == 0)
      ensures parsed == method_(tokens[i])
      ensures error == if i == 0 && start.Some? && parsed.items.None? then Some(NoPrimaryList) else None
      ensures error.None? ==> current == PageItems(method_, tokens, start, i)
    {
      parsed, error := method_(opKwargs), None;
      current := OrEmpty(parsed.items);
      if firstRequest && start.Some? {
        if parsed.items.None? { return parsed, [], Some(NoPrimaryList); }
        current := SliceFrom(parsed.items.value, start.value);
      }
    }

    /** The request loop; `start` is the index of a starting token. */
    method Request(start: Option<int>, ghost tokens: seq<Option<string>>) returns (pages: seq<seq<T>>, error: Option<Error>)
      requires resumeToken == None && Chain(method_, checkMore, tokens) && opKwargs == tokens[0]
      modifies this
      ensures Outcome(pages, resumeToken, error) ==
              if start.Some? && method_(tokens[0]).items.None? then Outcome([], None, Some(NoPrimaryList))
              else Walk(method_, checkMore, maxItems, start, tokens, 0, 0)
    {
      pages, error := [], None;
      var nextToken: Option<string> := None;
      var totalItems: nat := 0;
      var firstRequest := true;
      var startingTruncation := 0;
      ghost var i := 0;
      ghost var spec := Walk(method_, checkMore, maxItems, start, tokens, 0, 0);
      PrependNone(spec);
      assert nextToken == Named(method_, checkMore, tokens, 0);
      hide *;
      while true
        invariant 0 <= i < |tokens| && opKwargs == tokens[i] && resumeToken == None && error == None
        invariant firstRequest <==> i == 0
        invariant nextToken == Named(method_, checkMore, tokens, i) && (i > 0 ==> nextToken.Some?)
        invariant startingTruncation == if i > 0 && start.Some? then start.value else 0
        invariant maxItems.Some? ==> totalItems <= maxItems.value
        invariant start.Some? && method_(tokens[0]).items.None? ==> i == 0
        invariant i == 0 ==> pages == []
        invariant spec == Prepend(pages, Walk(method_, checkMore, maxItems, start, tokens, i, totalItems))
        decreases |tokens| - i
      {
        WalkVisits(method_, checkMore, maxItems, start, tokens, i, totalItems, pages);
        var parsed, current;
        parsed, current, error := ReadPage(start, firstRequest, tokens, i);
        if error.Some? { return; }
        if start.Some? {
          startingTruncation := start.value;
        }
        firstRequest := false;
        var page, next, stop;
        page, next, stop, error :=
          TakePage(parsed, current, totalItems, startingTruncation, nextToken, start, tokens, i);
        PrependLast(pages, page, resumeToken, error);
        pages := pages + [page];
        if stop { return; }
        totalItems, nextToken := totalItems + |page|, next;
        NextIsSent(method_, checkMore, tokens, i);
        InjectToken(nextToken);
        i := i + 1;
      }
    }

    /** build_full_result for the primary key: the pages in one list, and the token to continue with. */
    method BuildFullResult(ghost tokens: seq<Option<string>>)
      returns (items: seq<T>, nextToken: Option<string>, error: Option<Error>)
      requires opKwargs == None && resumeToken == None
      requires StartOf(startingToken).Some? ==>
                 Chain(method_, checkMore, tokens) && tokens[0] == StartOf(startingToken).value.token
      modifies this
      ensures
        var run := Run(method_, checkMore, maxItems, startingToken, tokens);
        items == Flat(run.pages) && nextToken == run.resume && error == run.error
    {
      var pages;
      pages, error := Iterate(tokens);
      items := [];
      var i := 0;
      while i < |pages|
        invariant 0 <= i <= |pages|
        invariant Flat(pages) == items + Flat(pages[i..])
      {
        assert pages[i..][0] == pages[i] && pages[i..][1..] == pages[i + 1..];
        items := items + pages[i];
        i := i + 1;
      }
      nextToken := resumeToken;
    }
  }
}
