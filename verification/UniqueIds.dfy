/** Unique ids on one emitter: when a handler registered under an id is held, and how often. */
module UniqueIds {
  import opened Results
  import opened Dots
  import opened TrieSpec
  import opened EmitterSpec
  import opened EmitterFamilies

  /** What every call with an id agrees on. */
  datatype Use = Use(event: string, handler: Handler, counts: bool)

  type Plan = map<string, Use>

  predicate Given(call: Call, id: string) {
    Changes(call) && call.uid == Some(id)
  }

  /** Calls with an id follow the plan; calls without one leave the planned handlers of an event alone. */
  predicate Follows(call: Call, plan: Plan) {
    Changes(call) ==>
      match call.uid
      case Some(id) =>
        id in plan && call.event == plan[id].event && call.counts == plan[id].counts
        && (call.RegisterCall? ==> call.handler == plan[id].handler)
      case None =>
        forall id :: id in plan ==> (call.event, call.handler) != (plan[id].event, plan[id].handler)
  }

  ghost predicate OneEach(plan: Plan) {
    forall i, j :: i in plan && j in plan && i != j ==>
      (plan[i].event, plan[i].handler) != (plan[j].event, plan[j].handler)
  }

  /** One emitter, and every call as planned. */
  ghost predicate Disciplined(calls: seq<Call>, plan: Plan) {
    && OneEach(plan)
    && forall k :: 0 <= k < |calls| ==> calls[k].who == 0 && !calls[k].CopyCall? && Follows(calls[k], plan)
  }

  function Rebalance(b: nat, call: Call): nat
    requires Changes(call)
  {
    if call.RegisterCall? then if call.counts then b + 1 else 1
    else if call.counts && b > 0 then b - 1 else 0
  }

  /** Counted ids go up and down by one, never below zero; other ids are set and cleared. */
  function Balance(calls: seq<Call>, id: string, n: nat): nat
    requires n <= |calls|
  {
    if n == 0 then 0
    else if Given(calls[n - 1], id) then Rebalance(Balance(calls, id, n - 1), calls[n - 1])
    else Balance(calls, id, n - 1)
  }

  /** How often a handler is held under a path. */
  function Times(vals: Values, p: Path, h: Handler): nat {
    Among(At(vals, p), h)
  }

  function Among(hs: Handlers, h: Handler): nat {
    Occurs(hs.first, h) + Occurs(hs.middle, h) + Occurs(hs.last, h)
  }

  lemma AmongAll(hs: Handlers, h: Handler)
    ensures Among(hs, h) == multiset(hs.Complete())[h]
  {
  }

  lemma TimesAppended(vals: Values, p: Path, h: Handler, s: Section, q: Path, k: Handler)
    ensures Times(Append(vals, p, h, s), q, k) == Times(vals, q, k) + if (p, h) == (q, k) then 1 else 0
  {
  }

  function Occurs(hs: seq<Handler>, h: Handler): nat {
    multiset(hs)[h]
  }

  lemma OccursRemoved(hs: seq<Handler>, h: Handler, k: Handler)
    ensures h in hs <==> Occurs(hs, h) > 0
    ensures Occurs(RemoveFirst(hs, h), k) == if h == k && h in hs then Occurs(hs, k) - 1 else Occurs(hs, k)
  {
    hide RemoveFirst;
  }

  lemma AmongDropped(hs: Handlers, h: Handler, k: Handler)
    ensures Among(Drop(hs, h), k) == if h == k && Among(hs, k) > 0 then Among(hs, k) - 1 else Among(hs, k)
  {
    OccursRemoved(hs.first, h, k);
    OccursRemoved(hs.middle, h, k);
    OccursRemoved(hs.last, h, k);
    hide Occurs, RemoveFirst;
  }

  lemma TimesRemoved(vals: Values, p: Path, h: Handler, q: Path, k: Handler)
    ensures
      var t := Times(vals, q, k);
      Times(AfterRemove(vals, p, h), q, k) == if (p, h) == (q, k) && t > 0 then t - 1 else t
  {
    AmongDropped(At(vals, p), h, k);
    hide Drop;
  }

  /** An id is held, and its handler once, exactly while its balance is positive. */
  predicate Shows(st: State, id: string, use: Use, balance: nat) {
    && Times(st.vals, SplitDots(use.event), use.handler) == (if balance > 0 then 1 else 0)
    && (id in st.uids <==> balance > 0)
    && (id in st.uids ==> st.uids[id] == Uid(use.handler, if use.counts then Some(balance) else None))
  }

  lemma Present(vals: Values, p: Path, h: Handler)
    requires Times(vals, p, h) > 0
    ensures p in vals
  {
  }

  lemma StepOwn(st: State, call: Call, id: string, use: Use, b: nat)
    requires Given(call, id) && call.event == use.event && call.counts == use.counts
    requires call.RegisterCall? ==> call.handler == use.handler
    requires Shows(st, id, use, b)
    ensures Shows(Changed(st, call).0, id, use, Rebalance(b, call)) && Changed(st, call).1 == Done
  {
    var p := SplitDots(use.event);
    hide SplitDots, Times, Append, AfterRemove;
    if call.RegisterCall? {
      TimesAppended(st.vals, p, use.handler, call.section, p, use.handler);
    } else {
      TimesRemoved(st.vals, p, use.handler, p, use.handler);
      if b > 0 { Present(st.vals, p, use.handler); }
    }
  }

  /** Registering another handler, or for another event. */
  lemma RegisterOther(st: State, call: Call, id: string, use: Use, b: nat)
    requires call.RegisterCall? && !Given(call, id) && Shows(st, id, use, b)
    requires (call.event, call.handler) != (use.event, use.handler)
    ensures Shows(Changed(st, call).0, id, use, b)
  {
    var p, q := SplitDots(call.event), SplitDots(use.event);
    if p == q { SplitInjective(call.event, use.event); }
    hide SplitDots, Times, Append;
    TimesAppended(st.vals, p, call.handler, call.section, q, use.handler);
  }

  lemma UnregisterVals(st: State, call: Call)
    requires call.UnregisterCall?
    ensures Changed(st, call).0.vals ==
      match Removes(st, call.handler, call.uid, call.counts)
      case Some(h) => AfterRemove(st.vals, SplitDots(call.event), h)
      case None => st.vals
  {
    hide AfterRemove, Remove, SplitDots, Removes;
  }

  /** Removing another handler, or for another event. */
  lemma UnregisterOther(st: State, call: Call, id: string, use: Use, b: nat)
    requires call.UnregisterCall? && !Given(call, id) && Shows(st, id, use, b)
    requires
      match Removes(st, call.handler, call.uid, call.counts)
      case Some(h) => (call.event, h) != (use.event, use.handler)
      case None => true
    ensures Shows(Changed(st, call).0, id, use, b)
  {
    var p, q := SplitDots(call.event), SplitDots(use.event);
    if p == q { SplitInjective(call.event, use.event); }
    hide SplitDots, Times, AfterRemove, Changed, Removes;
    ChangedIds(st, call);
    UnregisterVals(st, call);
    match Removes(st, call.handler, call.uid, call.counts)
    case Some(h) => TimesRemoved(st.vals, p, h, q, use.handler);
    case None =>
  }

  /** The invariant of a disciplined run. */
  ghost predicate Kept(st: State, calls: seq<Call>, plan: Plan, n: nat)
    requires n <= |calls|
  {
    forall id {:trigger Balance(calls, id, n)} :: id in plan ==> Shows(st, id, plan[id], Balance(calls, id, n))
  }

  lemma Step(st: State, calls: seq<Call>, plan: Plan, n: nat, id: string)
    requires n < |calls| && Disciplined(calls, plan) && Changes(calls[n]) && Kept(st, calls, plan, n) && id in plan
    ensures Shows(Changed(st, calls[n]).0, id, plan[id], Balance(calls, id, n + 1))
  {
    var call := calls[n];
    var b := Balance(calls, id, n);
    assert Follows(call, plan);
    if Given(call, id) {
      StepOwn(st, call, id, plan[id], b);
    } else {
      if call.uid.Some? {
        var other := call.uid.value;
        assert Shows(st, other, plan[other], Balance(calls, other, n));
        assert (plan[other].event, plan[other].handler) != (plan[id].event, plan[id].handler);
      }
      if call.RegisterCall? {
        RegisterOther(st, call, id, plan[id], b);
      } else {
        UnregisterOther(st, call, id, plan[id], b);
      }
    }
  }

  lemma StepEnds(st: State, calls: seq<Call>, plan: Plan, n: nat)
    requires n < |calls| && Disciplined(calls, plan) && Changes(calls[n]) && Kept(st, calls, plan, n)
    ensures Changed(st, calls[n]).1 != ValueError && (calls[n].uid.Some? ==> Changed(st, calls[n]).1 == Done)
  {
    var call := calls[n];
    assert Follows(call, plan);
    if call.uid.Some? {
      var id := call.uid.value;
      StepOwn(st, call, id, plan[id], Balance(calls, id, n));
    }
  }

  lemma CallKeeps(f: Family, calls: seq<Call>, plan: Plan, n: nat)
    requires n < |calls| && Disciplined(calls, plan) && Rooted(f) && |f.members| == 1 && Kept(View(f, 0), calls, plan, n)
    ensures Kept(View(Play(f, calls[n]), 0), calls, plan, n + 1)
  {
    var st, next := View(f, 0), View(Play(f, calls[n]), 0);
    if Changes(calls[n]) {
      OwnView(f, calls[n]);
    }
    hide Shows, Changed, Play, View;
    forall id | id in plan ensures Shows(next, id, plan[id], Balance(calls, id, n + 1)) {
      assert Shows(st, id, plan[id], Balance(calls, id, n));
      if Changes(calls[n]) {
        Step(st, calls, plan, n, id);
      } else {
        assert next == st by { Idle(f, calls[n]); }
      }
    }
  }

  lemma Idle(f: Family, call: Call)
    requires Rooted(f) && call.who < |f.members| && !Changes(call)
    ensures View(Play(f, call), call.who) == View(f, call.who)
  {
  }

  lemma NothingHeld(calls: seq<Call>, plan: Plan)
    ensures Kept(View(FIRST, 0), calls, plan, 0)
  {
  }

  lemma {:induction false} RunKeeps(calls: seq<Call>, plan: Plan, n: nat)
    requires Disciplined(calls, plan) && Playable(calls) && n <= |calls|
    ensures Count(calls, n) == 1 && Kept(View(RunFamily(calls, n), 0), calls, plan, n)
  {
    NothingHeld(calls, plan);
    hide Play, Kept, Follows, OneEach, View;
    if n > 0 {
      RunKeeps(calls, plan, n - 1);
      CallKeeps(RunFamily(calls, n - 1), calls, plan, n - 1);
    }
  }

  /** In a disciplined run a planned handler is held under its event once while the balance of its id is positive, and
      not at all otherwise; its entry counts the balance; and no call with an id fails. */
  lemma HeldWhileBalanced(calls: seq<Call>, plan: Plan, n: nat, id: string)
    requires Disciplined(calls, plan) && Playable(calls) && n <= |calls| && id in plan
    ensures Count(calls, n) == 1
    ensures
      var st, use, b := View(RunFamily(calls, n), 0), plan[id], Balance(calls, id, n);
      && multiset(At(st.vals, SplitDots(use.event)).Complete())[use.handler] == (if b > 0 then 1 else 0)
      && (id in st.uids <==> b > 0)
      && (b > 0 && use.counts ==> st.uids[id].count == Some(b))
    ensures n < |calls| ==>
      var reply := ReplyTo<int>(View(RunFamily(calls, n), 0), calls[n], (_, _) => None);
      reply.outcome != ValueError && (Given(calls[n], id) ==> reply.outcome == Done)
  {
    RunKeeps(calls, plan, n);
    var st, use := View(RunFamily(calls, n), 0), plan[id];
    AmongAll(At(st.vals, SplitDots(use.event)), use.handler);
    if n < |calls| && Changes(calls[n]) {
      StepEnds(st, calls, plan, n);
    }
    assert Shows(st, id, use, Balance(calls, id, n));
  }

  /** While an id is held, a call that gives it in the other mode raises a ValueError and changes nothing; once it is no
      longer held, unregistering it does nothing. */
  lemma ModesMustAgree(calls: seq<Call>, plan: Plan, n: nat, id: string, call: Call)
    requires Disciplined(calls, plan) && Playable(calls) && n <= |calls| && id in plan
    requires Given(call, id)
    ensures Count(calls, n) == 1
    ensures
      var st, b := View(RunFamily(calls, n), 0), Balance(calls, id, n);
      && (b > 0 && call.counts != plan[id].counts ==> Changed(st, call) == (st, ValueError))
      && (b == 0 && call.UnregisterCall? ==> Changed(st, call) == (st, Done))
  {
    HeldWhileBalanced(calls, plan, n, id);
    RunKeeps(calls, plan, n);
    var st := View(RunFamily(calls, n), 0);
    assert Shows(st, id, plan[id], Balance(calls, id, n));
    hide RunFamily, Balance;
  }
}
