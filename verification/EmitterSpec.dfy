/** What one emitter of botocore/hooks.py holds, without caches, nodes or sharing. */
module EmitterSpec {
  import opened Results
  import opened Dots
  import opened TrieSpec

  /** An entry of the unique-id dictionary; a count is present when its first registration used one. */
  datatype Uid = Uid(handler: Handler, count: Option<int>)

  datatype State = State(vals: Values, uids: map<string, Uid>)

  const EMPTY := State(map[], map[])

  predicate Truthy(count: Option<int>) {
    count.Some? && count.value != 0
  }

  /** Whether a register call reaches the trie. */
  predicate Inserts(st: State, uid: Option<string>) {
    uid.None? || uid.value !in st.uids
  }

  function Register(st: State, event: string, h: Handler, uid: Option<string>, counts: bool, s: Section): (State, Outcome) {
    if Inserts(st, uid) then
      var vals := Append(st.vals, SplitDots(event), h, s);
      if uid.None? then (State(vals, st.uids), Done)
      else (State(vals, st.uids[uid.value := Uid(h, if counts then Some(1) else None)]), Done)
    else
      var u := st.uids[uid.value];
      if counts != Truthy(u.count) then (st, ValueError)
      else if counts then (State(st.vals, st.uids[uid.value := u.(count := Some(u.count.value + 1))]), Done)
      else (st, Done)
  }

  /** Whether an unregister call reaches the trie: the handler it removes there. */
  function Removes(st: State, h: Handler, uid: Option<string>, counts: bool): Option<Handler> {
    if uid.None? then Some(h)
    else if uid.value !in st.uids then None
    else
      var u := st.uids[uid.value];
      if (if counts then u.count == Some(1) else !Truthy(u.count)) then Some(u.handler) else None
  }

  function Unregister(st: State, event: string, h: Handler, uid: Option<string>, counts: bool): (State, Outcome) {
    match Removes(st, h, uid, counts)
    case Some(handler) =>
      var uids := if uid.None? then st.uids else st.uids - {uid.value};
      var path := SplitDots(event);
      (State(AfterRemove(st.vals, path, handler), uids),
       if Remove(st.vals, path, handler).NoLists? then AttributeError else Done)
    case None =>
      if uid.value !in st.uids then (st, Done)
      else
        var u := st.uids[uid.value];
        if !counts || u.count.None? then (st, ValueError)
        else (State(st.vals, st.uids[uid.value := u.(count := Some(u.count.value - 1))]), Done)
  }

  /** The handlers an event reaches, in order. */
  function Heard(st: State, event: string): seq<Handler> {
    Search(st.vals, SplitDots(event))
  }

  // ----- Calling the handlers

  type Responder<!R> = (nat, Handler) -> Option<R>
  type Response<+R> = (Handler, Option<R>)

  /** Every handler called once, in order. */
  function Responses<R>(hs: seq<Handler>, respond: Responder<R>): seq<Response<R>> {
    seq(|hs|, i requires 0 <= i < |hs| => (hs[i], respond(i, hs[i])))
  }

  /** Where the first response is, or the length of the list. */
  function Answer<R>(responses: seq<Response<R>>, from: nat): (n: nat)
    requires from <= |responses|
    ensures from <= n <= |responses| && (n < |responses| ==> responses[n].1.Some?)
    ensures forall i :: from <= i < n ==> responses[i].1.None?
    decreases |responses| - from
  {
    if from == |responses| || responses[from].1.Some? then from else Answer(responses, from + 1)
  }

  /** The responses of an event that stops at the first one. */
  function Stopped<R>(responses: seq<Response<R>>): seq<Response<R>> {
    var n := Answer(responses, 0);
    if n < |responses| then responses[..n + 1] else responses
  }

  function FirstResponse<R>(responses: seq<Response<R>>): Option<R> {
    var n := Answer(responses, 0);
    if n < |responses| then responses[n].1 else None
  }

  /** Handler k is the first that responds. */
  ghost predicate FirstToRespond<R>(hs: seq<Handler>, respond: Responder<R>, k: nat) {
    k < |hs| && respond(k, hs[k]).Some? && forall i :: 0 <= i < k ==> respond(i, hs[i]).None?
  }

  /** An event that stops at the first response calls the handlers up to it, and all of them if there is none. */
  lemma StoppedExact<R>(hs: seq<Handler>, respond: Responder<R>)
    ensures
      var stopped := Stopped(Responses(hs, respond));
      && (forall k: nat :: FirstToRespond(hs, respond, k) ==> stopped == Responses(hs, respond)[..k + 1])
      && ((forall k: nat :: !FirstToRespond(hs, respond, k)) ==> stopped == Responses(hs, respond))
      && (stopped == [] <==> hs == [])
  {
    var all := Responses(hs, respond);
    var n := Answer(all, 0);
    assert forall i :: 0 <= i < |hs| ==> all[i] == (hs[i], respond(i, hs[i]));
    if n < |hs| {
      assert FirstToRespond(hs, respond, n);
    }
    forall k: nat | FirstToRespond(hs, respond, k)
      ensures k == n
    {
      assert all[k].1.Some?;
    }
  }

  /** The last handler called is the first to respond, or else the last of all. */
  lemma StoppedLast<R>(hs: seq<Handler>, respond: Responder<R>)
    requires hs != []
    ensures
      var stopped := Stopped(Responses(hs, respond));
      var k := |stopped| - 1;
      && 0 <= k < |hs| && stopped[k] == (hs[k], respond(k, hs[k]))
      && if exists j: nat :: FirstToRespond(hs, respond, j) then FirstToRespond(hs, respond, k)
         else k == |hs| - 1 && respond(k, hs[k]).None?
  {
    StoppedExact(hs, respond);
    hide Stopped;
    var stopped, all := Stopped(Responses(hs, respond)), Responses(hs, respond);
    assert forall i :: 0 <= i < |hs| ==> all[i] == (hs[i], respond(i, hs[i]));
    if j: nat :| FirstToRespond(hs, respond, j) {
      assert stopped == all[..j + 1];
    } else {
      NoneResponds(hs, respond, |hs|);
    }
  }

  /** The handler that responded first, with its response; without one the last handler called, with none. */
  ghost predicate FirstAnswer<R>(hs: seq<Handler>, respond: Responder<R>, handler: Option<Handler>, response: Option<R>) {
    if exists k: nat :: FirstToRespond(hs, respond, k) then
      exists k: nat :: FirstToRespond(hs, respond, k) && handler == Some(hs[k]) && response == respond(k, hs[k])
    else response == None && handler == if hs == [] then None else Some(hs[|hs| - 1])
  }

  lemma LastAnswers<R>(hs: seq<Handler>, respond: Responder<R>)
    ensures
      var stopped := Stopped(Responses(hs, respond));
      if stopped == [] then FirstAnswer(hs, respond, None, None)
      else FirstAnswer(hs, respond, Some(stopped[|stopped| - 1].0), stopped[|stopped| - 1].1)
  {
    StoppedExact(hs, respond);
    if hs != [] { StoppedLast(hs, respond); }
    hide Stopped, Responses;
  }

  lemma {:induction false} NoneResponds<R>(hs: seq<Handler>, respond: Responder<R>, n: nat)
    requires n <= |hs| && forall k: nat :: !FirstToRespond(hs, respond, k)
    ensures forall i :: 0 <= i < n ==> respond(i, hs[i]).None?
  {
    if n > 0 {
      NoneResponds(hs, respond, n - 1);
      assert !FirstToRespond(hs, respond, n - 1);
    }
  }
}
