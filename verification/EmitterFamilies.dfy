/** Runs over a family of emitters that were copied from one another, with the unique-id entries they share. */
module EmitterFamilies {
  import opened Results
  import opened Dots
  import opened TrieSpec
  import opened EmitterSpec

  datatype Call =
    | RegisterCall(who: nat, event: string, handler: Handler, uid: Option<string>, counts: bool, section: Section)
    | UnregisterCall(who: nat, event: string, handler: Handler, uid: Option<string>, counts: bool)
    | EmitCall(who: nat, event: string, stop: bool)
    | CopyCall(who: nat)

  predicate Changes(call: Call) {
    call.RegisterCall? || call.UnregisterCall?
  }

  /** How many emitters there are after n calls. */
  function Count(calls: seq<Call>, n: nat): nat
    requires n <= |calls|
  {
    if n == 0 then 1 else Count(calls, n - 1) + if calls[n - 1].CopyCall? then 1 else 0
  }

  /** Every call is made on an emitter that exists by then. */
  predicate Playable(calls: seq<Call>) {
    forall k :: 0 <= k < |calls| ==> calls[k].who < Count(calls, k)
  }

  /** What a register or unregister call makes of the state of its emitter. */
  function Changed(st: State, call: Call): (State, Outcome)
    requires Changes(call)
  {
    match call
    case RegisterCall(_, event, h, uid, counts, s) => Register(st, event, h, uid, counts, s)
    case UnregisterCall(_, event, h, uid, counts) => Unregister(st, event, h, uid, counts)
  }

  // ----- Emitters that share their entries

  /** An emitter: its trie, and where the entries of its unique ids are. */
  datatype Member = Member(vals: Values, ids: map<string, nat>)

  /** An entry, under the id it was made for. */
  datatype Shared = Shared(id: string, held: Uid)

  /** The entries that were ever made, and the emitters that refer to them. */
  datatype Family = Family(entries: seq<Shared>, members: seq<Member>)

  ghost predicate Rooted(f: Family) {
    forall i, id :: 0 <= i < |f.members| && id in f.members[i].ids ==>
      var k := f.members[i].ids[id]; k < |f.entries| && f.entries[k].id == id
  }

  /** What an emitter of the family holds. */
  function View(f: Family, i: nat): State
    requires i < |f.members| && Rooted(f)
  {
    var m := f.members[i];
    State(m.vals, map id | id in m.ids :: f.entries[m.ids[id]].held)
  }

  const FIRST := Family([], [Member(map[], map[])])

  function Play(f: Family, call: Call): (after: Family)
    requires Rooted(f) && call.who < |f.members|
    ensures |after.members| == |f.members| + if call.CopyCall? then 1 else 0
    ensures Rooted(after)
  {
    if call.CopyCall? then f.(members := f.members + [f.members[call.who]])
    else if Changes(call) then Store(f, call.who, call.uid, Changed(View(f, call.who), call).0)
    else f
  }

  /** The trie is the emitter's own; the entry of an id is written in place, forgotten, or made anew. */
  function Store(f: Family, i: nat, uid: Option<string>, st: State): (after: Family)
    requires Rooted(f) && i < |f.members|
    ensures |after.members| == |f.members| && Rooted(after)
  {
    var ids := f.members[i].ids;
    if uid.None? || (uid.value !in ids && uid.value !in st.uids) then Put(f, f.entries, i, Member(st.vals, ids))
    else
      var id := uid.value;
      if id !in st.uids then Put(f, f.entries, i, Member(st.vals, ids - {id}))
      else
        var entry := Shared(id, st.uids[id]);
        if id in ids then Put(f, f.entries[ids[id] := entry], i, Member(st.vals, ids))
        else Put(f, f.entries + [entry], i, Member(st.vals, ids[id := |f.entries|]))
  }

  function Put(f: Family, entries: seq<Shared>, i: nat, m: Member): Family
    requires i < |f.members|
  {
    Family(entries, f.members[i := m])
  }

  /** What a call gives back: how it ended, and the responses of an emit. */
  datatype Reply<+R> = Reply(outcome: Outcome, responses: seq<Response<R>>)

  function Answers<R>(st: State, call: Call, respond: Responder<R>): seq<Response<R>>
    requires call.EmitCall?
  {
    var all := Responses(Heard(st, call.event), respond);
    if call.stop then Stopped(all) else all
  }

  function ReplyTo<R>(st: State, call: Call, respond: Responder<R>): Reply<R> {
    if Changes(call) then Reply(Changed(st, call).1, [])
    else Reply(Done, if call.EmitCall? then Answers(st, call, respond) else [])
  }

  /** The family after n calls. */
  function RunFamily(calls: seq<Call>, n: nat): (f: Family)
    requires Playable(calls) && n <= |calls|
    ensures |f.members| == Count(calls, n) && Rooted(f)
  {
    if n == 0 then FIRST else Play(RunFamily(calls, n - 1), calls[n - 1])
  }

  /** What the first n calls give back. */
  function Log<R>(calls: seq<Call>, respond: nat -> Responder<R>, n: nat): seq<Reply<R>>
    requires Playable(calls) && n <= |calls|
  {
    if n == 0 then []
    else
      var call := calls[n - 1];
      Log(calls, respond, n - 1) + [ReplyTo(View(RunFamily(calls, n - 1), call.who), call, respond(n - 1))]
  }

  // ----- What a call does to the views

  /** Only the id it names can be touched by a call. */
  ghost predicate SameBut(a: map<string, Uid>, b: map<string, Uid>, uid: Option<string>) {
    forall x :: uid != Some(x) ==> (x in a <==> x in b) && (x in a ==> a[x] == b[x])
  }

  lemma ChangedIds(st: State, call: Call)
    requires Changes(call)
    ensures SameBut(st.uids, Changed(st, call).0.uids, call.uid)
    ensures call.uid.Some? && call.uid.value in st.uids && call.uid.value in Changed(st, call).0.uids ==>
      (Changed(st, call).0.uids[call.uid.value] == st.uids[call.uid.value] <==> !Recounts(st, call))
    ensures Recounts(st, call) ==> call.uid.value in Changed(st, call).0.uids
  {
    hide Append, AfterRemove, Remove, SplitDots;
  }

  lemma StoredId(f: Family, i: nat, uid: Option<string>, st: State, x: string)
    requires Rooted(f) && i < |f.members| && SameBut(View(f, i).uids, st.uids, uid)
    ensures
      var g := Store(f, i, uid, st);
      && (x in g.members[i].ids <==> x in st.uids)
      && (x in st.uids ==> g.entries[g.members[i].ids[x]].held == st.uids[x])
  {
    var ids := f.members[i].ids;
    assert x in View(f, i).uids <==> x in ids;
    if uid != Some(x) {
      assert x in ids <==> x in st.uids;
      if x in ids {
        assert View(f, i).uids[x] == f.entries[ids[x]].held == st.uids[x];
        assert ids[x] < |f.entries| && f.entries[ids[x]].id == x;
      }
    }
  }

  lemma StoredIds(f: Family, i: nat, uid: Option<string>, st: State)
    requires Rooted(f) && i < |f.members| && SameBut(View(f, i).uids, st.uids, uid)
    ensures
      var g := Store(f, i, uid, st);
      && g.members[i].vals == st.vals && g.members[i].ids.Keys == st.uids.Keys
      && forall x :: x in st.uids ==> g.entries[g.members[i].ids[x]].held == st.uids[x]
  {
    var g := Store(f, i, uid, st);
    assert g.members[i].vals == st.vals;
    hide View, Store, SameBut;
    forall x
      ensures x in g.members[i].ids <==> x in st.uids
      ensures x in st.uids ==> g.entries[g.members[i].ids[x]].held == st.uids[x]
    {
      StoredId(f, i, uid, st, x);
    }
  }

  lemma StoredView(f: Family, i: nat, uid: Option<string>, st: State)
    requires Rooted(f) && i < |f.members| && SameBut(View(f, i).uids, st.uids, uid)
    ensures View(Store(f, i, uid, st), i) == st
  {
    StoredIds(f, i, uid, st);
    hide Store, SameBut;
    assert View(Store(f, i, uid, st), i).uids == st.uids;
  }

  /** The emitter called holds what it would hold alone. */
  lemma OwnView(f: Family, call: Call)
    requires Rooted(f) && call.who < |f.members| && Changes(call)
    ensures View(Play(f, call), call.who) == Changed(View(f, call.who), call).0
  {
    hide View, Changed;
    ChangedIds(View(f, call.who), call);
    StoredView(f, call.who, call.uid, Changed(View(f, call.who), call).0);
  }

  /** The call writes the entry of an id: it counts up or down without forgetting. */
  predicate Recounts(st: State, call: Call) {
    && Changes(call) && call.counts && call.uid.Some? && call.uid.value in st.uids
    && var count := st.uids[call.uid.value].count;
       if call.RegisterCall? then Truthy(count) else count.Some? && count != Some(1)
  }

  /** Two emitters hold the same entry for an id. */
  predicate Share(f: Family, i: nat, j: nat, id: string)
    requires i < |f.members| && j < |f.members|
  {
    id in f.members[i].ids && id in f.members[j].ids && f.members[i].ids[id] == f.members[j].ids[id]
  }

  lemma StoredForOthers(f: Family, i: nat, uid: Option<string>, st: State, j: nat)
    requires Rooted(f) && i < |f.members| && j < |f.members| && i != j
    ensures View(Store(f, i, uid, st), j) != View(f, j) <==>
            && uid.Some? && uid.value in st.uids && Share(f, i, j, uid.value)
            && View(f, i).uids[uid.value] != st.uids[uid.value]
  {
    var before, after := View(f, j), View(Store(f, i, uid, st), j);
    assert Store(f, i, uid, st).members[j] == f.members[j];
    if uid.Some? && uid.value in st.uids && Share(f, i, j, uid.value) {
      assert after.uids[uid.value] == st.uids[uid.value];
      assert forall x :: x in before.uids && x != uid.value ==> before.uids[x] == after.uids[x];
    } else {
      assert forall x :: x in before.uids ==> before.uids[x] == after.uids[x];
    }
  }

  /** A call on one emitter changes what another holds exactly when it counts in an entry that the other holds too. */
  lemma OtherChangesIffShared(f: Family, call: Call, j: nat)
    requires Rooted(f) && call.who < |f.members| && j < |f.members| && j != call.who
    ensures View(Play(f, call), j) != View(f, j) <==>
            Recounts(View(f, call.who), call) && Share(f, call.who, j, call.uid.value)
  {
    if Changes(call) {
      ChangedIds(View(f, call.who), call);
      StoredForOthers(f, call.who, call.uid, Changed(View(f, call.who), call).0, j);
      hide Changed, Store;
      assert View(f, call.who).uids.Keys == f.members[call.who].ids.Keys;
    } else {
      assert Play(f, call).members[j] == f.members[j];
    }
  }

  // ----- Emitters that share nothing

  function Views(f: Family): (states: seq<State>)
    requires Rooted(f)
  {
    seq(|f.members|, i requires 0 <= i < |f.members| => View(f, i))
  }

  /** One call when every emitter has its own state; a copy takes the state with it. */
  function Alone(states: seq<State>, call: Call): (after: seq<State>)
    requires call.who < |states|
    ensures |after| == |states| + if call.CopyCall? then 1 else 0
  {
    var st := states[call.who];
    if Changes(call) then states[call.who := Changed(st, call).0]
    else if call.CopyCall? then states + [st]
    else states
  }

  /** A call leaves the other emitters alone unless it counts in an entry that one of them shares. */
  lemma StepAloneUnlessShared(f: Family, call: Call)
    requires Rooted(f) && call.who < |f.members|
    ensures Views(Play(f, call)) == Alone(Views(f), call) <==>
            !(Recounts(View(f, call.who), call) &&
              exists j :: 0 <= j < |f.members| && j != call.who && Share(f, call.who, j, call.uid.value))
  {
    hide View, Changed, Store, Share;
    var after, alone := Views(Play(f, call)), Alone(Views(f), call);
    if Changes(call) {
      OwnView(f, call);
      forall j | 0 <= j < |f.members| && j != call.who
        ensures after[j] == alone[j] <==> !(Recounts(View(f, call.who), call) && Share(f, call.who, j, call.uid.value))
      {
        OtherChangesIffShared(f, call, j);
      }
    } else {
      RecountsChanges(f, call);
      SameViews(f, call);
    }
  }

  lemma RecountsChanges(f: Family, call: Call)
    requires Rooted(f) && call.who < |f.members|
    ensures Recounts(View(f, call.who), call) ==> Changes(call) && call.counts
  {}

  lemma SameViews(f: Family, call: Call)
    requires Rooted(f) && call.who < |f.members| && !Changes(call)
    ensures Views(Play(f, call)) == Alone(Views(f), call)
  {}

  /** The states after n calls if the copies had entries of their own. */
  function RunAlone(calls: seq<Call>, n: nat): (states: seq<State>)
    requires Playable(calls) && n <= |calls|
    ensures |states| == Count(calls, n)
  {
    if n == 0 then [EMPTY] else Alone(RunAlone(calls, n - 1), calls[n - 1])
  }

  /** No counts, or no copies: nothing that one emitter changes is shared with another. */
  ghost predicate Independent(calls: seq<Call>) {
    (forall c :: c in calls ==> !(Changes(c) && c.counts)) || (forall c :: c in calls ==> !c.CopyCall?)
  }

  lemma {:induction false} NoCopies(calls: seq<Call>, n: nat)
    requires n <= |calls| && forall c :: c in calls ==> !c.CopyCall?
    ensures Count(calls, n) == 1
  {
    if n > 0 { NoCopies(calls, n - 1); }
  }

  lemma IndependentStep(calls: seq<Call>, n: nat)
    requires Playable(calls) && n < |calls| && Independent(calls)
    ensures
      var f := RunFamily(calls, n);
      Views(Play(f, calls[n])) == Alone(Views(f), calls[n])
  {
    hide View, Play, Alone, Share, Recounts, RunFamily, Views;
    var f, call := RunFamily(calls, n), calls[n];
    assert call in calls;
    StepAloneUnlessShared(f, call);
    RecountsChanges(f, call);
    if forall c :: c in calls ==> !c.CopyCall? {
      NoCopies(calls, n);
    }
  }

  lemma {:induction false} IndependentRunsAlone(calls: seq<Call>, n: nat)
    requires Playable(calls) && n <= |calls| && Independent(calls)
    ensures Views(RunFamily(calls, n)) == RunAlone(calls, n)
  {
    hide View, Play, Alone, Independent, Views, Count, FIRST;
    if n == 0 {
      FirstView();
    } else {
      IndependentRunsAlone(calls, n - 1);
      IndependentStep(calls, n - 1);
    }
  }

  lemma FirstView()
    ensures View(FIRST, 0) == EMPTY && Views(FIRST) == [EMPTY]
  {
    assert View(FIRST, 0).uids == map[];
  }
}
