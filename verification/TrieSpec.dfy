/** What the prefix trie of botocore/hooks.py holds and finds, without its nodes. */
module TrieSpec {
  type Handler = nat
  type Path = seq<string>

  datatype Section = First | Middle | Last

  /** The three lists of a node. */
  datatype Handlers = Handlers(first: seq<Handler>, middle: seq<Handler>, last: seq<Handler>) {
    function Complete(): seq<Handler> { first + middle + last }

    function Section(s: Section): seq<Handler> {
      match s
      case First => first
      case Middle => middle
      case Last => last
    }
  }

  const NO_HANDLERS := Handlers([], [], [])

  /** The handler lists by path; a path without a node or without lists is absent. */
  type Values = map<Path, Handlers>

  function At(vals: Values, p: Path): Handlers {
    if p in vals then vals[p] else NO_HANDLERS
  }

  function Add(hs: Handlers, s: Section, h: Handler): Handlers {
    match s
    case First => hs.(first := hs.first + [h])
    case Middle => hs.(middle := hs.middle + [h])
    case Last => hs.(last := hs.last + [h])
  }

  /** list.remove: the first occurrence. */
  function RemoveFirst(hs: seq<Handler>, h: Handler): (r: seq<Handler>)
    ensures h in hs ==> multiset(r) == multiset(hs) - multiset{h}
    ensures h !in hs ==> r == hs
  {
    if hs == [] then []
    else
      assert hs == [hs[0]] + hs[1..];
      if hs[0] == h then hs[1..] else [hs[0]] + RemoveFirst(hs[1..], h)
  }

  function Drop(hs: Handlers, h: Handler): Handlers {
    if h in hs.first then hs.(first := RemoveFirst(hs.first, h))
    else if h in hs.middle then hs.(middle := RemoveFirst(hs.middle, h))
    else if h in hs.last then hs.(last := RemoveFirst(hs.last, h))
    else hs
  }

  function Append(vals: Values, p: Path, h: Handler, s: Section): Values {
    vals[p := Add(At(vals, p), s, h)]
  }

  /** How an operation ends. */
  datatype Outcome = Done | ValueError | AttributeError

  /** How remove_item ends. */
  datatype Removal = Removed(vals: Values) | KeyNotInTrie | NoLists

  function Remove(vals: Values, p: Path, h: Handler): Removal {
    if p in vals then Removed(vals[p := Drop(vals[p], h)])
    else if exists q :: q in vals && p <= q then NoLists
    else KeyNotInTrie
  }

  function AfterRemove(vals: Values, p: Path, h: Handler): Values {
    match Remove(vals, p, h)
    case Removed(v) => v
    case _ => vals
  }

  /** The handlers for what is left of a key below p: wildcard subtree, then direct subtree, then p itself. */
  function Collect(vals: Values, p: Path, rest: seq<string>): seq<Handler>
    decreases |rest|
  {
    if rest == [] then At(vals, p).Complete()
    else Collect(vals, p + ["*"], rest[1..]) + Collect(vals, p + [rest[0]], rest[1..]) + At(vals, p).Complete()
  }

  /** prefix_search on the parts of a key. */
  function Search(vals: Values, key: seq<string>): seq<Handler> {
    Collect(vals, [], key)
  }

  lemma LongerPrefix(p: Path, part: string, q: Path)
    ensures p + [part] <= q ==> p <= q
  {
    assert p <= p + [part];
  }

  lemma {:induction false} NothingBelow(vals: Values, p: Path, rest: seq<string>)
    requires forall q :: q in vals ==> !(p <= q)
    ensures Collect(vals, p, rest) == []
    decreases |rest|
  {
    if rest != [] {
      forall q | q in vals ensures !(p + ["*"] <= q) && !(p + [rest[0]] <= q) {
        LongerPrefix(p, "*", q);
        LongerPrefix(p, rest[0], q);
      }
      NothingBelow(vals, p + ["*"], rest[1..]);
      NothingBelow(vals, p + [rest[0]], rest[1..]);
    }
  }

  // ----- The flat list of live registrations

  datatype Registration = Registration(path: Path, section: Section, handler: Handler)

  datatype Op = AppendItem(path: Path, handler: Handler, section: Section) | RemoveItem(path: Path, handler: Handler)

  /** The handlers registered live under a path and section, in order. */
  function Live(regs: seq<Registration>, p: Path, s: Section): seq<Handler> {
    if regs == [] then []
    else (if regs[0].path == p && regs[0].section == s then [regs[0].handler] else []) + Live(regs[1..], p, s)
  }

  function DropReg(regs: seq<Registration>, r: Registration): seq<Registration> {
    if regs == [] then []
    else if regs[0] == r then regs[1..]
    else [regs[0]] + DropReg(regs[1..], r)
  }

  /** The flat list after an operation: removal takes the first entry of the lowest section that has one. */
  function Flat(regs: seq<Registration>, op: Op): seq<Registration> {
    match op
    case AppendItem(p, h, s) => regs + [Registration(p, s, h)]
    case RemoveItem(p, h) =>
      if Registration(p, First, h) in regs then DropReg(regs, Registration(p, First, h))
      else if Registration(p, Middle, h) in regs then DropReg(regs, Registration(p, Middle, h))
      else DropReg(regs, Registration(p, Last, h))
  }

  function Step(vals: Values, op: Op): Values {
    match op
    case AppendItem(p, h, s) => Append(vals, p, h, s)
    case RemoveItem(p, h) => AfterRemove(vals, p, h)
  }

  function RunTrie(ops: seq<Op>): Values {
    if ops == [] then map[] else Step(RunTrie(ops[..|ops| - 1]), ops[|ops| - 1])
  }

  function RunFlat(ops: seq<Op>): seq<Registration> {
    if ops == [] then [] else Flat(RunFlat(ops[..|ops| - 1]), ops[|ops| - 1])
  }

  /** Every list of every node holds exactly the live registrations of its path and section, in order. */
  ghost predicate Holds(vals: Values, regs: seq<Registration>) {
    forall p, s :: At(vals, p).Section(s) == Live(regs, p, s)
  }

  lemma {:induction false} LiveAppend(a: seq<Registration>, b: seq<Registration>, p: Path, s: Section)
    ensures Live(a + b, p, s) == Live(a, p, s) + Live(b, p, s)
    decreases |a|
  {
    if a == [] {
      assert a + b == b;
    } else {
      assert (a + b)[1..] == a[1..] + b;
      LiveAppend(a[1..], b, p, s);
    }
  }

  lemma {:induction false} LiveOne(r: Registration, p: Path, s: Section)
    ensures Live([r], p, s) == if r.path == p && r.section == s then [r.handler] else []
  {
    assert [r][1..] == [];
  }

  lemma {:induction false} LiveHas(regs: seq<Registration>, p: Path, s: Section, h: Handler)
    ensures h in Live(regs, p, s) <==> Registration(p, s, h) in regs
    decreases |regs|
  {
    if regs != [] {
      LiveHas(regs[1..], p, s, h);
      assert regs == [regs[0]] + regs[1..];
    }
  }

  lemma LiveCons(r: Registration, rest: seq<Registration>, p: Path, s: Section)
    ensures Live([r] + rest, p, s) ==
            (if r.path == p && r.section == s then [r.handler] else []) + Live(rest, p, s)
  {
    assert ([r] + rest)[1..] == rest;
  }

  lemma RemoveFirstCons(head: Handler, tail: seq<Handler>, h: Handler)
    ensures RemoveFirst([head] + tail, h) == if head == h then tail else [head] + RemoveFirst(tail, h)
  {
    assert ([head] + tail)[1..] == tail;
  }

  lemma {:induction false} LiveDrop(regs: seq<Registration>, r: Registration, p: Path, s: Section)
    ensures Live(DropReg(regs, r), p, s) ==
            if r.path == p && r.section == s then RemoveFirst(Live(regs, p, s), r.handler) else Live(regs, p, s)
    decreases |regs|
  {
    if regs != [] {
      hide DropReg, Live, RemoveFirst;
      var first, rest := regs[0], regs[1..];
      assert regs == [first] + rest;
      LiveDrop(rest, r, p, s);
      LiveCons(first, rest, p, s);
      LiveCons(first, DropReg(rest, r), p, s);
      DropCons(first, rest, r);
      RemoveFirstCons(first.handler, Live(rest, p, s), r.handler);
      assert [] + Live(rest, p, s) == Live(rest, p, s);
    }
  }

  lemma DropCons(first: Registration, rest: seq<Registration>, r: Registration)
    ensures DropReg([first] + rest, r) == if first == r then rest else [first] + DropReg(rest, r)
  {
    assert ([first] + rest)[1..] == rest;
  }

  lemma {:induction false} StepHolds(vals: Values, regs: seq<Registration>, op: Op)
    requires Holds(vals, regs)
    ensures Holds(Step(vals, op), Flat(regs, op))
  {
    hide Step, Flat, Live, At, Handlers.Section;
    forall p, s
      ensures At(Step(vals, op), p).Section(s) == Live(Flat(regs, op), p, s)
    {
      StepHoldsAt(vals, regs, op, p, s);
    }
  }

  lemma StepHoldsAt(vals: Values, regs: seq<Registration>, op: Op, p: Path, s: Section)
    requires Holds(vals, regs)
    ensures At(Step(vals, op), p).Section(s) == Live(Flat(regs, op), p, s)
  {
    match op
    case AppendItem(q, h, t) =>
      AppendHolds(vals, regs, q, h, t, p, s);
    case RemoveItem(q, h) =>
      hide Flat, Live, AfterRemove, Holds;
      RemoveHolds(vals, regs, q, h, p, s);
  }

  lemma AppendHolds(vals: Values, regs: seq<Registration>, q: Path, h: Handler, t: Section, p: Path, s: Section)
    requires Holds(vals, regs)
    ensures At(Append(vals, q, h, t), p).Section(s) == Live(regs + [Registration(q, t, h)], p, s)
  {
    assert At(vals, p).Section(s) == Live(regs, p, s);
    hide Live, Holds;
    LiveAppend(regs, [Registration(q, t, h)], p, s);
    LiveOne(Registration(q, t, h), p, s);
  }

  lemma {:induction false} RemoveHolds(vals: Values, regs: seq<Registration>, q: Path, h: Handler, p: Path, s: Section)
    requires Holds(vals, regs)
    ensures At(AfterRemove(vals, q, h), p).Section(s) == Live(Flat(regs, RemoveItem(q, h)), p, s)
  {
    var hs := At(vals, q);
    LiveLists(vals, regs, q, h);
    assert At(vals, p).Section(s) == Live(regs, p, s);
    hide Live, Holds, RemoveFirst, DropReg;
    var t := if h in hs.first then First else if h in hs.middle then Middle else Last;
    var r := Registration(q, t, h);
    LiveDrop(regs, r, p, s);
    assert Flat(regs, RemoveItem(q, h)) == DropReg(regs, r);
    assert At(AfterRemove(vals, q, h), p) == if p == q then Drop(hs, h) else At(vals, p);
    if p == q && s == t {
      assert Drop(hs, h).Section(t) == RemoveFirst(hs.Section(t), h);
    }
  }

  lemma LiveLists(vals: Values, regs: seq<Registration>, q: Path, h: Handler)
    requires Holds(vals, regs)
    ensures h in At(vals, q).first <==> Registration(q, First, h) in regs
    ensures h in At(vals, q).middle <==> Registration(q, Middle, h) in regs
    ensures h in At(vals, q).last <==> Registration(q, Last, h) in regs
  {
    var hs := At(vals, q);
    assert hs.Section(First) == Live(regs, q, First) && hs.Section(Middle) == Live(regs, q, Middle)
        && hs.Section(Last) == Live(regs, q, Last);
    LiveHas(regs, q, First, h);
    LiveHas(regs, q, Middle, h);
    LiveHas(regs, q, Last, h);
  }

  /** After any run of appends and removals the trie's lists are the live registrations. */
  lemma {:induction false} TrieHoldsLiveRegistrations(ops: seq<Op>)
    ensures Holds(RunTrie(ops), RunFlat(ops))
    decreases |ops|
  {
    if ops != [] {
      TrieHoldsLiveRegistrations(ops[..|ops| - 1]);
      StepHolds(RunTrie(ops[..|ops| - 1]), RunFlat(ops[..|ops| - 1]), ops[|ops| - 1]);
    }
  }

  // ----- Search by matching

  /** The pattern q lies below p, and its parts after p match the first parts of rest. */
  predicate Under(q: Path, p: Path, rest: seq<string>) {
    && |p| <= |q| <= |p| + |rest|
    && q[..|p|] == p
    && forall i :: |p| <= i < |q| ==> q[i] == rest[i - |p|] || q[i] == "*"
  }

  /** A pattern matches a prefix of the event name, part by part. */
  predicate Matches(pattern: Path, key: seq<string>) {
    && |pattern| <= |key|
    && forall i :: 0 <= i < |pattern| ==> pattern[i] == key[i] || pattern[i] == "*"
  }

  function Matching(regs: seq<Registration>, p: Path, rest: seq<string>): multiset<Handler> {
    if regs == [] then multiset{}
    else (if Under(regs[0].path, p, rest) then multiset{regs[0].handler} else multiset{}) + Matching(regs[1..], p, rest)
  }

  /** The handlers of all registrations whose pattern matches. */
  function MatchingHandlers(regs: seq<Registration>, key: seq<string>): multiset<Handler> {
    if regs == [] then multiset{}
    else (if Matches(regs[0].path, key) then multiset{regs[0].handler} else multiset{}) + MatchingHandlers(regs[1..], key)
  }

  lemma UnderSplits(q: Path, p: Path, rest: seq<string>)
    requires rest != [] && rest[0] != "*"
    ensures Under(q, p, rest) <==>
              q == p || Under(q, p + ["*"], rest[1..]) || Under(q, p + [rest[0]], rest[1..])
    ensures !(Under(q, p + ["*"], rest[1..]) && Under(q, p + [rest[0]], rest[1..]))
    ensures q == p ==> !Under(q, p + ["*"], rest[1..]) && !Under(q, p + [rest[0]], rest[1..])
  {
    if |q| > |p| && q[..|p|] == p {
      assert q[..|p| + 1] == p + [q[|p|]];
      assert forall i :: 0 <= i < |rest[1..]| ==> rest[1..][i] == rest[i + 1];
      if Under(q, p, rest) {
        assert q[|p|] == rest[0] || q[|p|] == "*";
      }
    }
    if Under(q, p + ["*"], rest[1..]) {
      assert q[..|p| + 1][..|p|] == q[..|p|] && q[|p|] == q[..|p| + 1][|p|] == "*";
    }
    if Under(q, p + [rest[0]], rest[1..]) {
      assert q[..|p| + 1][..|p|] == q[..|p|] && q[|p|] == q[..|p| + 1][|p|] == rest[0];
    }
  }

  function OwnHandlers(regs: seq<Registration>, p: Path): multiset<Handler> {
    if regs == [] then multiset{}
    else (if regs[0].path == p then multiset{regs[0].handler} else multiset{}) + OwnHandlers(regs[1..], p)
  }

  lemma {:induction false} MatchingSplits(regs: seq<Registration>, p: Path, rest: seq<string>)
    requires rest != [] && rest[0] != "*"
    ensures Matching(regs, p, rest) ==
            OwnHandlers(regs, p) + Matching(regs, p + ["*"], rest[1..]) + Matching(regs, p + [rest[0]], rest[1..])
    decreases |regs|
  {
    if regs != [] {
      MatchingSplits(regs[1..], p, rest);
      UnderSplits(regs[0].path, p, rest);
    }
  }

  lemma {:induction false} MatchingNothingLeft(regs: seq<Registration>, p: Path)
    ensures Matching(regs, p, []) == OwnHandlers(regs, p)
    decreases |regs|
  {
    if regs != [] {
      MatchingNothingLeft(regs[1..], p);
      assert Under(regs[0].path, p, []) <==> regs[0].path == p;
    }
  }

  lemma {:induction false} OwnIsLive(regs: seq<Registration>, p: Path)
    ensures OwnHandlers(regs, p) ==
            multiset(Live(regs, p, First)) + multiset(Live(regs, p, Middle)) + multiset(Live(regs, p, Last))
    decreases |regs|
  {
    if regs != [] {
      OwnIsLive(regs[1..], p);
    }
  }

  lemma {:induction false} CollectMatches(vals: Values, regs: seq<Registration>, p: Path, rest: seq<string>)
    requires Holds(vals, regs) && "*" !in rest
    ensures multiset(Collect(vals, p, rest)) == Matching(regs, p, rest)
    decreases |rest|
  {
    OwnIsLive(regs, p);
    assert At(vals, p).Section(First) == Live(regs, p, First);
    assert At(vals, p).Section(Middle) == Live(regs, p, Middle);
    assert At(vals, p).Section(Last) == Live(regs, p, Last);
    if rest == [] {
      MatchingNothingLeft(regs, p);
    } else {
      assert rest[0] in rest;
      CollectMatches(vals, regs, p + ["*"], rest[1..]);
      CollectMatches(vals, regs, p + [rest[0]], rest[1..]);
      MatchingSplits(regs, p, rest);
    }
  }

  lemma {:induction false} UnderTheRoot(regs: seq<Registration>, key: seq<string>)
    ensures Matching(regs, [], key) == MatchingHandlers(regs, key)
    decreases |regs|
  {
    if regs != [] {
      UnderTheRoot(regs[1..], key);
      var q := regs[0].path;
      assert q[..0] == [];
    }
  }

  /** After any run, a search for a plain event name finds exactly the live registrations that match it. */
  lemma SearchFindsMatching(ops: seq<Op>, key: seq<string>)
    requires "*" !in key
    ensures multiset(Search(RunTrie(ops), key)) == MatchingHandlers(RunFlat(ops), key)
  {
    TrieHoldsLiveRegistrations(ops);
    CollectMatches(RunTrie(ops), RunFlat(ops), [], key);
    UnderTheRoot(RunFlat(ops), key);
  }
}
