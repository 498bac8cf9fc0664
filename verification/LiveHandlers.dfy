/** What an emit reaches, in terms of the registrations that are live. */
module LiveHandlers {
  import opened Results
  import opened Dots
  import opened TrieSpec
  import opened TrieOrder
  import opened EmitterSpec
  import opened EmitterFamilies

  /** What a call asks of the trie. */
  function TrieOps(st: State, call: Call): seq<Op>
    requires Changes(call)
  {
    if call.RegisterCall? then
      if Inserts(st, call.uid) then [AppendItem(SplitDots(call.event), call.handler, call.section)] else []
    else
      match Removes(st, call.handler, call.uid, call.counts)
      case Some(h) => [RemoveItem(SplitDots(call.event), h)]
      case None => []
  }

  function Recorded(ops: seq<seq<Op>>, f: Family, call: Call): (after: seq<seq<Op>>)
    requires Rooted(f) && call.who < |f.members| == |ops|
    ensures |after| == |Play(f, call).members|
  {
    if Changes(call) then ops[call.who := ops[call.who] + TrieOps(View(f, call.who), call)]
    else if call.CopyCall? then ops + [ops[call.who]]
    else ops
  }

  /** The operations behind the trie of each emitter; a copy inherits those of its original. */
  function History(calls: seq<Call>, n: nat): (ops: seq<seq<Op>>)
    requires Playable(calls) && n <= |calls|
    ensures |ops| == Count(calls, n)
  {
    if n == 0 then [[]] else Recorded(History(calls, n - 1), RunFamily(calls, n - 1), calls[n - 1])
  }

  lemma RunTrieMore(ops: seq<Op>, more: seq<Op>)
    requires |more| <= 1
    ensures RunTrie(ops + more) == if more == [] then RunTrie(ops) else Step(RunTrie(ops), more[0])
  {
    if more == [] {
      assert ops + more == ops;
    } else {
      assert (ops + more)[..|ops|] == ops && (ops + more)[|ops|] == more[0];
    }
  }

  lemma ChangeIsTrieOps(st: State, call: Call, ops: seq<Op>)
    requires Changes(call) && st.vals == RunTrie(ops)
    ensures Changed(st, call).0.vals == RunTrie(ops + TrieOps(st, call))
  {
    RunTrieMore(ops, TrieOps(st, call));
    hide RunTrie, SplitDots;
  }

  ghost predicate Follow(f: Family, ops: seq<seq<Op>>) {
    |f.members| == |ops| && forall i :: 0 <= i < |ops| ==> f.members[i].vals == RunTrie(ops[i])
  }

  lemma CallFollows(f: Family, ops: seq<seq<Op>>, call: Call)
    requires Rooted(f) && call.who < |f.members| && Follow(f, ops)
    ensures Follow(Play(f, call), Recorded(ops, f, call))
  {
    hide RunTrie, TrieOps, Changed;
    if Changes(call) {
      ChangeIsTrieOps(View(f, call.who), call, ops[call.who]);
    }
  }

  lemma {:induction false} TriesFollowHistory(calls: seq<Call>, n: nat)
    requires Playable(calls) && n <= |calls|
    ensures Follow(RunFamily(calls, n), History(calls, n))
  {
    if n == 0 {
      assert RunTrie([]) == EMPTY.vals;
    } else {
      hide Follow, Play, Recorded;
      TriesFollowHistory(calls, n - 1);
      CallFollows(RunFamily(calls, n - 1), History(calls, n - 1), calls[n - 1]);
    }
  }

  /** An event without wildcards calls exactly the handlers of the live registrations whose pattern matches it, one call
      for each registration and in the order of their patterns, sections and registration. */
  lemma EmitReachesLiveRegistrations(calls: seq<Call>, n: nat, i: nat, event: string)
    requires Playable(calls) && n <= |calls| && i < Count(calls, n) && "*" !in SplitDots(event)
    ensures multiset(Heard(View(RunFamily(calls, n), i), event)) ==
            MatchingHandlers(RunFlat(History(calls, n)[i]), SplitDots(event))
    ensures HeardInOrder(RunFlat(History(calls, n)[i]), SplitDots(event), Heard(View(RunFamily(calls, n), i), event))
  {
    TriesFollowHistory(calls, n);
    var hs := Heard(View(RunFamily(calls, n), i), event);
    SearchInOrder(History(calls, n)[i], SplitDots(event), hs);
    hide HeardInOrder;
    SearchFindsMatching(History(calls, n)[i], SplitDots(event));
  }
}
