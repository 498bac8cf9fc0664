/** Emitters on the heap, copied from one another: they run as the family of EmitterFamilies does. */
module EmitterRuns {
  import opened Results
  import opened Dots
  import opened TrieSpec
  import opened EmitterSpec
  import opened EmitterFamilies
  import opened PrefixTries
  import opened Emitters

  /** Each emitter is coherent, no two share a trie, and those that share a cache have the same registrations. */
  ghost predicate Sound(es: seq<Emitter>)
    reads *
  {
    && (forall i :: 0 <= i < |es| ==> es[i].Valid())
    && (forall i, j :: 0 <= i < |es| && 0 <= j < |es| && i != j ==>
          es[i].Own !! es[j].Own && (es[i].lookupCache == es[j].lookupCache ==> es[i].handlers.vals == es[j].handlers.vals))
  }

  /** The entries of a family, as objects. */
  ghost predicate Entries(items: seq<UidItem>, f: Family)
    reads items
  {
    && |items| == |f.entries| && (forall a, b :: 0 <= a < b < |items| ==> items[a] != items[b])
    && forall k :: 0 <= k < |items| ==> Uid(items[k].handler, items[k].count) == f.entries[k].held
  }

  ghost predicate Refer(uids: map<string, UidItem>, ids: map<string, nat>, items: seq<UidItem>) {
    uids.Keys == ids.Keys && forall id :: id in ids ==> ids[id] < |items| && uids[id] == items[ids[id]]
  }

  /** An emitter holds what a member of the family does, in the entries at the same places. */
  ghost predicate IsMember(e: Emitter, m: Member, items: seq<UidItem>)
    reads e, e.handlers
  {
    e.handlers.vals == m.vals && Refer(e.uids, m.ids, items)
  }

  /** The emitters are the members of the family. */
  ghost predicate Stands(es: seq<Emitter>, f: Family, items: seq<UidItem>)
    reads es, set e | e in es :: e.handlers, items
  {
    && Rooted(f) && Entries(items, f)
    && |es| == |f.members| && forall i :: 0 <= i < |es| ==> IsMember(es[i], f.members[i], items)
  }

  lemma StandsView(es: seq<Emitter>, f: Family, items: seq<UidItem>, i: nat)
    requires Stands(es, f, items) && i < |es|
    ensures es[i].State() == View(f, i)
  {
    assert IsMember(es[i], f.members[i], items);
    assert es[i].Held() == View(f, i).uids;
  }

  /** The objects that the calls of a run may change. */
  ghost predicate Within(es: seq<Emitter>, items: seq<UidItem>, owned: set<object>)
    reads es
  {
    && (forall i :: 0 <= i < |es| ==> es[i].Own <= owned && es[i].lookupCache in owned)
    && forall k :: 0 <= k < |items| ==> items[k] in owned
  }

  /** How the entries as objects grow: by the one made for a new id. */
  ghost function Grown(items: seq<UidItem>, e: Emitter, ids: map<string, nat>, uid: Option<string>): seq<UidItem>
    reads e
  {
    if uid.Some? && uid.value !in ids && uid.value in e.uids then items + [e.uids[uid.value]] else items
  }

  /** The entries are those of the family after a call that only touched the entry of `uid`. */
  lemma EntriesAfter(e: Emitter, f: Family, items: seq<UidItem>, i: nat, uid: Option<string>, st: State)
    requires Rooted(f) && i < |f.members| && e.State() == st && |items| == |f.entries|
    requires forall a, b :: 0 <= a < b < |items| ==> items[a] != items[b]
    requires forall x :: x in e.uids && x in f.members[i].ids ==> e.uids[x] == items[f.members[i].ids[x]]
    requires forall k :: 0 <= k < |items| ==>
      (uid.Some? && uid.value in e.uids && items[k] == e.uids[uid.value])
      || Uid(items[k].handler, items[k].count) == f.entries[k].held
    requires uid.Some? && uid.value in e.uids && uid.value !in f.members[i].ids ==> e.uids[uid.value] !in items
    ensures Entries(Grown(items, e, f.members[i].ids, uid), Store(f, i, uid, st))
  {
    assert uid.Some? && uid.value in e.uids ==>
      st.uids[uid.value] == Uid(e.uids[uid.value].handler, e.uids[uid.value].count);
  }

  lemma StoredRefs(f: Family, i: nat, uid: Option<string>, st: State)
    requires Rooted(f) && i < |f.members|
    ensures
      var ids, ids' := f.members[i].ids, Store(f, i, uid, st).members[i].ids;
      forall x :: x in ids' ==>
        ids'[x] < |Store(f, i, uid, st).entries| && ids'[x] == if x in ids then ids[x] else |f.entries|
    ensures
      var ids, ids' := f.members[i].ids, Store(f, i, uid, st).members[i].ids;
      forall x :: x in ids' && x !in ids ==> uid == Some(x)
  {}

  lemma MemberAfter(e: Emitter, f: Family, items: seq<UidItem>, i: nat, uid: Option<string>, st: State)
    requires Rooted(f) && i < |f.members| && e.State() == st && |items| == |f.entries|
    requires SameBut(View(f, i).uids, st.uids, uid)
    requires forall x :: x in e.uids && x in f.members[i].ids ==> e.uids[x] == items[f.members[i].ids[x]]
    ensures IsMember(e, Store(f, i, uid, st).members[i], Grown(items, e, f.members[i].ids, uid))
  {
    hide Store, View, SameBut;
    StoredIds(f, i, uid, st);
    StoredRefs(f, i, uid, st);
    assert e.uids.Keys == e.Held().Keys == st.uids.Keys;
  }

  /** A register or unregister call on one emitter: what it does to that one, and that it leaves the others alone. */
  method ChangeOne(es: seq<Emitter>, call: Call) returns (outcome: Outcome)
    requires Changes(call) && call.who < |es| && Sound(es)
    modifies es[call.who].Own, es[call.who].Entry(call.uid)
    ensures Sound(es)
    ensures (es[call.who].State(), outcome) == Changed(old(es[call.who].State()), call)
    ensures fresh(es[call.who].Own - old(es[call.who].Own))
    ensures forall j :: 0 <= j < |es| && j != call.who ==> unchanged(es[j]) && es[j].handlers.vals == old(es[j].handlers.vals)
    ensures fresh(es[call.who].lookupCache) || es[call.who].lookupCache == old(es[call.who].lookupCache)
    ensures
      var uids, before := es[call.who].uids, old(es[call.who].uids);
      && (forall x :: x in uids && x in before ==> uids[x] == before[x])
      && (forall x :: x in uids && x !in before ==> fresh(uids[x]))
      && (call.uid.Some? && call.uid.value in before && call.uid.value !in uids ==> unchanged(before[call.uid.value]))
  {
    hide Emitter.Valid, Emitter.Held, Emitter.State, Register, Unregister;
    match call {
      case RegisterCall(i, event, h, uid, counts, s) => outcome := es[i].RegisterSection(event, h, uid, counts, s);
      case UnregisterCall(i, event, h, uid, counts) => outcome := es[i].Unregister(event, h, uid, counts);
    }
    forall j | 0 <= j < |es| && j != call.who
      ensures es[j].Valid() && es[j].handlers.vals == old(es[j].handlers.vals) && unchanged(es[j])
    {
    }
  }

  lemma Placed(es: seq<Emitter>, f: Family, items: seq<UidItem>, i: nat)
    requires Stands(es, f, items) && i < |es|
    ensures Rooted(f) && |es| == |f.members| && Entries(items, f) && es[i].State() == View(f, i)
    ensures IsMember(es[i], f.members[i], items)
  {
    StandsView(es, f, items, i);
  }

  lemma StandsAfter(es: seq<Emitter>, f: Family, items: seq<UidItem>, i: nat, uid: Option<string>, st: State,
                    items': seq<UidItem>)
    requires Rooted(f) && i < |es| == |f.members| && Entries(items', Store(f, i, uid, st)) && items <= items'
    requires IsMember(es[i], Store(f, i, uid, st).members[i], items')
    requires forall j :: 0 <= j < |es| && j != i ==> IsMember(es[j], f.members[j], items)
    ensures Stands(es, Store(f, i, uid, st), items')
  {
    hide Entries;
    var g := Store(f, i, uid, st);
    forall j | 0 <= j < |es| && j != i
      ensures IsMember(es[j], g.members[j], items')
    {
      assert g.members[j] == f.members[j];
    }
  }

  method Change(es: seq<Emitter>, call: Call, ghost f: Family, ghost items: seq<UidItem>)
    returns (outcome: Outcome, ghost items': seq<UidItem>)
    requires Changes(call) && call.who < |es| && Sound(es) && Stands(es, f, items)
    modifies es[call.who].Own, es[call.who].Entry(call.uid)
    ensures Sound(es) && Stands(es, Play(f, call), items')
    ensures outcome == Changed(View(f, call.who), call).1
    ensures items' == items || (|items'| == |items| + 1 && items'[..|items|] == items && fresh(items'[|items|]))
    ensures fresh(es[call.who].Own - old(es[call.who].Own))
    ensures forall j :: 0 <= j < |es| && j != call.who ==> unchanged(es[j])
    ensures fresh(es[call.who].lookupCache) || es[call.who].lookupCache == old(es[call.who].lookupCache)
  {
    hide Sound, Emitter.Held, Emitter.State, Changed, View, Store, Stands;
    var e := es[call.who];
    forall j | 0 <= j < |es| { Placed(es, f, items, j); }
    ghost var ids := f.members[call.who].ids;
    assert e.Valid() by { InSound(es, call.who); }
    outcome := ChangeOne(es, call);
    ghost var st := e.State();
    items' := Grown(items, e, ids, call.uid);
    ChangedIds(View(f, call.who), call);
    EntriesAfter(e, f, items, call.who, call.uid, st);
    MemberAfter(e, f, items, call.who, call.uid, st);
    hide Refer;
    StandsAfter(es, f, items, call.who, call.uid, st, items');
  }

  lemma InSound(es: seq<Emitter>, i: nat)
    requires Sound(es) && i < |es|
    ensures es[i].Valid()
  {}

  method EmitOn<R>(es: seq<Emitter>, call: Call, respond: Responder<R>, ghost f: Family, ghost items: seq<UidItem>)
    returns (responses: seq<Response<R>>)
    requires call.EmitCall? && call.who < |es| && Sound(es) && Stands(es, f, items)
    modifies es[call.who].lookupCache
    ensures Sound(es) && Stands(es, f, items) && forall j :: 0 <= j < |es| ==> unchanged(es[j])
    ensures responses == Answers(View(f, call.who), call, respond)
  {
    hide PrefixTrie.Valid, Emitter.Held, Search, View;
    var e := es[call.who];
    StandsView(es, f, items, call.who);
    responses := e.Emit(call.event, respond, call.stop);
    forall j | 0 <= j < |es| ensures es[j].Valid() {
      assert old(es[j].Valid());
    }
  }

  method CopyOn(es: seq<Emitter>, i: nat, ghost f: Family, ghost items: seq<UidItem>) returns (more: seq<Emitter>)
    requires i < |es| && Sound(es) && Stands(es, f, items)
    ensures Sound(more) && |more| == |es| + 1 && more[..|es|] == es
    ensures i < |f.members| && Stands(more, f.(members := f.members + [f.members[i]]), items)
    ensures fresh(more[|es|].Own) && more[|es|].lookupCache == es[i].lookupCache
  {
    hide Emitter.Valid, Emitter.Held;
    var c := es[i].Copy();
    more := es + [c];
    ghost var g := f.(members := f.members + [f.members[i]]);
    forall j | 0 <= j < |more|
      ensures IsMember(more[j], g.members[j], items)
    {
      assert IsMember(es[if j < |es| then j else i], g.members[j], items);
    }
  }

  /** Any call runs as in the family, entries and all. */
  method Apply<R>(es: seq<Emitter>, call: Call, respond: Responder<R>,
                  ghost f: Family, ghost items: seq<UidItem>, ghost owned: set<object>)
    returns (next: seq<Emitter>, reply: Reply<R>, ghost items': seq<UidItem>, ghost owned': set<object>)
    requires call.who < |es| && Sound(es) && Stands(es, f, items) && Within(es, items, owned)
    modifies owned
    ensures Sound(next) && Within(next, items', owned') && fresh(owned' - owned)
    ensures |next| == |es| + (if call.CopyCall? then 1 else 0) && next[..|es|] == es
    ensures Stands(next, Play(f, call), items')
    ensures reply == ReplyTo(View(f, call.who), call, respond)
  {
    hide Sound, Stands, View, Changed, Answers, Store;
    next, items', owned', reply := es, items, owned, Reply(Done, []);
    var i := call.who;
    Placed(es, f, items, i);
    if Changes(call) {
      var outcome;
      outcome, items' := Change(es, call, f, items);
      reply := Reply(outcome, []);
      owned' := owned + es[i].Own + {es[i].lookupCache} + set x | x in items';
    } else if call.EmitCall? {
      var responses := EmitOn(es, call, respond, f, items);
      reply := Reply(Done, responses);
    } else {
      next := CopyOn(es, i, f, items);
      owned' := owned + next[|es|].Own;
      assert forall j :: 0 <= j < |es| ==> next[j] == es[j];
    }
  }

  lemma NoCalls<R>(calls: seq<Call>, respond: nat -> Responder<R>)
    requires Playable(calls)
    ensures RunFamily(calls, 0) == FIRST && Log(calls, respond, 0) == [] && Count(calls, 0) == 1
  {
  }

  lemma OneMore<R>(calls: seq<Call>, respond: nat -> Responder<R>, k: nat)
    requires Playable(calls) && k < |calls|
    ensures RunFamily(calls, k + 1) == Play(RunFamily(calls, k), calls[k])
    ensures calls[k].who < Count(calls, k) && Count(calls, k + 1) == Count(calls, k) + if calls[k].CopyCall? then 1 else 0
    ensures Log(calls, respond, k + 1) ==
            Log(calls, respond, k) + [ReplyTo(View(RunFamily(calls, k), calls[k].who), calls[k], respond(k))]
  {
  }

  method First() returns (es: seq<Emitter>, ghost owned: set<object>)
    ensures fresh(owned) && Within(es, [], owned) && Sound(es) && |es| == 1 && Stands(es, FIRST, [])
  {
    var e := new Emitter();
    es, owned := [e], e.Own + {e.lookupCache};
  }

  /** A run from one new emitter: caches, shared or not, never show, and the entries that copies share are those of the
      family. */
  method Run<R>(calls: seq<Call>, respond: nat -> Responder<R>)
    returns (es: seq<Emitter>, log: seq<Reply<R>>, ghost items: seq<UidItem>)
    requires Playable(calls)
    ensures Sound(es) && Stands(es, RunFamily(calls, |calls|), items)
    ensures log == Log(calls, respond, |calls|)
  {
    hide *;
    ghost var owned;
    NoCalls(calls, respond);
    es, owned := First();
    log, items := [], [];
    for k := 0 to |calls|
      invariant fresh(owned) && Within(es, items, owned) && Sound(es) && |es| == Count(calls, k)
      invariant Stands(es, RunFamily(calls, k), items)
      invariant log == Log(calls, respond, k)
    {
      OneMore(calls, respond, k);
      var reply;
      es, reply, items, owned := Apply(es, calls[k], respond(k), RunFamily(calls, k), items, owned);
      log := log + [reply];
    }
  }
}
