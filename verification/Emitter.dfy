/** HierarchicalEmitter of botocore/hooks.py: the trie, the lookup cache in front of it and the unique ids. */
module Emitters {
  import opened Results
  import opened Dots
  import opened TrieSpec
  import opened EmitterSpec
  import opened PrefixTries

  /** A lookup-cache dictionary. Copies of an emitter share it until one of them replaces its own. */
  class Cache {
    var lists: map<string, seq<Handler>>

    constructor ()
      ensures lists == map[]
    {
      lists := map[];
    }
  }

  /** A unique-id entry. Copies of an emitter share the entries, not the dictionary that holds them. */
  class UidItem {
    const handler: Handler
    var count: Option<int>
    ghost const id: string

    constructor (ghost id: string, handler: Handler, count: Option<int>)
      ensures this.id == id && this.handler == handler && this.count == count
    {
      this.id, this.handler, this.count := id, handler, count;
    }
  }

  /** Every cached list is what a search would give now. */
  ghost predicate Coherent(lists: map<string, seq<Handler>>, vals: Values) {
    forall event :: event in lists ==> lists[event] == Search(vals, SplitDots(event))
  }

  /** The loop over an event's handlers. */
  method CallHandlers<R>(toCall: seq<Handler>, respond: Responder<R>, stop: bool) returns (responses: seq<Response<R>>)
    ensures
      var all := Responses(toCall, respond);
      responses == if stop then Stopped(all) else all
  {
    ghost var all := Responses(toCall, respond);
    responses := [];
    for i := 0 to |toCall|
      invariant responses == all[..i]
      invariant stop ==> forall k :: 0 <= k < i ==> all[k].1.None?
    {
      var response := respond(i, toCall[i]);
      assert all[i] == (toCall[i], response);
      responses := responses + [(toCall[i], response)];
      if stop && response.Some? {
        assert Answer(all, 0) == i;
        return;
      }
    }
  }

  /** first_non_none_response. */
  method FirstNonNoneResponse<R>(responses: seq<Response<R>>, default: Option<R>) returns (r: Option<R>)
    ensures r == if FirstResponse(responses).Some? then FirstResponse(responses) else default
  {
    for i := 0 to |responses|
      invariant forall k :: 0 <= k < i ==> responses[k].1.None?
    {
      if responses[i].1.Some? {
        assert Answer(responses, 0) == i;
        return responses[i].1;
      }
    }
    return default;
  }

  class Emitter {
    var lookupCache: Cache
    var handlers: PrefixTrie
    var uids: map<string, UidItem>

    /** The objects of this emitter alone: no cache and no unique-id entry is among them. */
    ghost var Own: set<object>

    ghost function Items(): set<UidItem>
      reads this`uids
    {
      uids.Values
    }

    ghost predicate Valid()
      reads this, lookupCache, Own
      ensures Valid() ==> this in Own && handlers in Own && forall o: object :: o in Own ==> !(o is UidItem) && !(o is Cache)
    {
      && handlers in Own && Own == {this, handlers} + handlers.at.Values
      && handlers.Valid() && Coherent(lookupCache.lists, handlers.vals)
      && forall id :: id in uids ==> uids[id].id == id
    }

    ghost function Held(): (held: map<string, Uid>)
      reads this`uids, Items()
    {
      map id | id in uids :: Uid(uids[id].handler, uids[id].count)
    }

    ghost function State(): EmitterSpec.State
      reads this`handlers, handlers`vals, this`uids, Items()
    {
      EmitterSpec.State(handlers.vals, Held())
    }

    /** The entry of a unique id, if there is one. */
    ghost function Entry(uid: Option<string>): set<UidItem>
      reads this`uids
    {
      if uid.Some? && uid.value in uids then {uids[uid.value]} else {}
    }

    constructor ()
      ensures Valid() && State() == EMPTY
      ensures fresh(lookupCache) && fresh(Own) && uids == map[]
    {
      hide PrefixTrie.Valid;
      lookupCache := new Cache();
      var trie := new PrefixTrie();
      handlers := trie;
      uids := map[];
      new;
      Own := {this, trie} + trie.at.Values;
      assert Held() == map[];
      assert fresh({this, trie}) && fresh(trie.at.Values);
    }

    /** An emitter with parts that are already there. */
    constructor With(cache: Cache, trie: PrefixTrie, uids: map<string, UidItem>)
      requires trie.Valid() && Coherent(cache.lists, trie.vals) && forall id :: id in uids ==> uids[id].id == id
      ensures Valid() && lookupCache == cache && handlers == trie && this.uids == uids
      ensures Own == {this, trie} + trie.at.Values
    {
      hide PrefixTrie.Valid, Coherent;
      lookupCache, handlers, this.uids := cache, trie, uids;
      Own := {this, trie} + trie.at.Values;
    }

    /** Register a handler in a section, at most once per unique id. */
    method RegisterSection(event: string, h: Handler, uid: Option<string>, counts: bool, s: Section) returns (outcome: Outcome)
      requires Valid()
      modifies Own, Entry(uid)
      ensures Valid() && fresh(Own - old(Own))
      ensures (State(), outcome) == Register(old(State()), event, h, uid, counts, s)
      ensures fresh(lookupCache) || (lookupCache == old(lookupCache) && handlers.vals == old(handlers.vals))
      ensures old(uids.Keys) <= uids.Keys && (forall x :: x in old(uids) ==> uids[x] == old(uids[x]))
      ensures forall x :: x in uids && x !in old(uids) ==> fresh(uids[x])
    {
      hide PrefixTrie.Valid, Append, Coherent;
      if uid.Some? && uid.value in uids {
        outcome := RegisterAgain(uid.value, counts);
      } else {
        Insert(event, h, uid, counts, s);
        outcome := Done;
      }
    }

    /** A handler that the trie has to hold. */
    method Insert(event: string, h: Handler, uid: Option<string>, counts: bool, s: Section)
      requires Valid() && (uid.None? || uid.value !in uids)
      modifies Own
      ensures Valid() && handlers == old(handlers) && fresh(Own - old(Own))
      ensures handlers.vals == Append(old(handlers.vals), SplitDots(event), h, s)
      ensures Held() == if uid.None? then old(Held()) else old(Held())[uid.value := Uid(h, if counts then Some(1) else None)]
      ensures fresh(lookupCache)
      ensures old(uids.Keys) <= uids.Keys && (forall x :: x in old(uids) ==> uids[x] == old(uids[x]))
      ensures forall x :: x in uids && x !in old(uids) ==> fresh(uids[x])
    {
      hide Append, PrefixTrie.Valid;
      Put(event, h, s);
      if uid.Some? {
        Hold(uid.value, h, if counts then Some(1) else None);
      }
    }

    /** The trie half of a registration, which drops the cache. */
    method Put(event: string, h: Handler, s: Section)
      requires Valid()
      modifies Own
      ensures Valid() && handlers == old(handlers) && fresh(Own - old(Own)) && fresh(lookupCache)
      ensures handlers.vals == Append(old(handlers.vals), SplitDots(event), h, s)
      ensures uids == old(uids) && Held() == old(Held())
    {
      hide Append, PrefixTrie.Valid;
      handlers.AppendItem(SplitDots(event), h, s);
      lookupCache := new Cache();
      Own := {this, handlers} + handlers.at.Values;
    }

    /** A unique id that is taken: only its count can change. */
    method RegisterAgain(id: string, counts: bool) returns (outcome: Outcome)
      requires id in uids && forall x :: x in uids ==> uids[x].id == x
      modifies uids[id]
      ensures var u := old(Held())[id];
        if counts != Truthy(u.count) then Held() == old(Held()) && outcome == ValueError
        else outcome == Done && Held() == if counts then old(Held())[id := u.(count := Some(u.count.value + 1))] else old(Held())
    {
      var count := uids[id].count;
      assert Held()[id].count == count;
      if counts {
        if count.None? || count.value == 0 { return ValueError; }
        SetCount(id, count.value + 1);
      } else {
        if count.Some? && count.value != 0 { return ValueError; }
      }
      outcome := Done;
    }

    /** Remove a handler; a ValueError of the trie is swallowed, an AttributeError is not. */
    method Unregister(event: string, h: Handler, uid: Option<string>, counts: bool) returns (outcome: Outcome)
      requires Valid()
      modifies Own, Entry(uid)
      ensures Valid() && Own == old(Own)
      ensures (State(), outcome) == EmitterSpec.Unregister(old(State()), event, h, uid, counts)
      ensures fresh(lookupCache) || (lookupCache == old(lookupCache) && handlers.vals == old(handlers.vals))
      ensures uids.Keys <= old(uids.Keys) && (forall x :: x in uids ==> uids[x] == old(uids[x]))
      ensures uid.Some? && uid.value in old(uids) && uid.value !in uids ==> unchanged(old(uids[uid.value]))
    {
      hide PrefixTrie.Valid, Coherent, Remove, AfterRemove;
      var handler := Some(h);
      if uid.Some? {
        if uid.value !in uids { return Done; }
        handler, outcome := Release(uid.value, counts);
        if handler.None? { return; }
      }
      outcome := RemoveHandler(event, handler.value);
    }

    /** The unique-id half of unregister: the handler that is now to be removed from the trie, if any. */
    method Release(id: string, counts: bool) returns (handler: Option<Handler>, outcome: Outcome)
      requires id in uids && forall x :: x in uids ==> uids[x].id == x
      modifies this`uids, uids[id]
      ensures
        var u := old(Held())[id];
        if (if counts then u.count == Some(1) else !Truthy(u.count)) then
          && handler == Some(u.handler) && uids == old(uids) - {id} && Held() == old(Held()) - {id}
          && unchanged(old(uids[id]))
        else
          && handler == None && uids == old(uids)
          && if !counts || u.count.None? then outcome == ValueError && Held() == old(Held())
             else outcome == Done && Held() == old(Held())[id := u.(count := Some(u.count.value - 1))]
    {
      var item := uids[id];
      assert Held()[id] == Uid(item.handler, item.count);
      outcome := Done;
      if counts {
        if item.count.None? { return None, ValueError; }
        if item.count.value != 1 {
          SetCount(id, item.count.value - 1);
          return None, Done;
        }
      } else if item.count.Some? && item.count.value != 0 {
        return None, ValueError;
      }
      uids := uids - {id};
      handler := Some(item.handler);
    }

    method RemoveHandler(event: string, h: Handler) returns (outcome: Outcome)
      requires Valid()
      modifies Own
      ensures Valid() && Own == old(Own) && handlers == old(handlers) && uids == old(uids) && Held() == old(Held())
      ensures handlers.vals == AfterRemove(old(handlers.vals), SplitDots(event), h)
      ensures outcome == if Remove(old(handlers.vals), SplitDots(event), h).NoLists? then AttributeError else Done
      ensures fresh(lookupCache) || (lookupCache == old(lookupCache) && handlers.vals == old(handlers.vals))
    {
      hide PrefixTrie.Valid;
      outcome := handlers.RemoveItem(SplitDots(event), h);
      if outcome == ValueError { return Done; }
      if outcome == Done { lookupCache := new Cache(); }
    }

    /** _emit: the handlers come from the cache, or from a search that fills it. */
    method Emit<R>(event: string, respond: Responder<R>, stop: bool) returns (responses: seq<Response<R>>)
      requires Valid()
      modifies lookupCache
      ensures Valid()
      ensures
        var all := EmitterSpec.Responses(Heard(State(), event), respond);
        responses == if stop then Stopped(all) else all
      ensures forall e :: e in lookupCache.lists ==>
        (e in old(lookupCache.lists) && lookupCache.lists[e] == old(lookupCache.lists)[e]) || lookupCache.lists[e] == Heard(State(), e)
    {
      hide PrefixTrie.Valid, Search;
      var toCall: seq<Handler>;
      if event !in lookupCache.lists {
        toCall := handlers.PrefixSearch(SplitDots(event));
        lookupCache.lists := lookupCache.lists[event := toCall];
      } else {
        toCall := lookupCache.lists[event];
        if toCall == [] { return []; }
      }
      responses := CallHandlers(toCall, respond, stop);
    }

    /** The first handler that responds, with its response. Once any handler was called, one is named: (None, None)
        comes back exactly when no handler listens, and not, as documented, whenever nothing responds. */
    method EmitUntilResponse<R>(event: string, respond: Responder<R>) returns (handler: Option<Handler>, response: Option<R>)
      requires Valid()
      modifies lookupCache
      ensures Valid()
      ensures FirstAnswer(Heard(State(), event), respond, handler, response)
    {
      hide PrefixTrie.Valid, Search;
      var responses := Emit(event, respond, true);
      LastAnswers(Heard(State(), event), respond);
      hide FirstAnswer, Stopped;
      if responses != [] {
        var (h, r) := responses[|responses| - 1];
        handler, response := Some(h), r;
      } else {
        handler, response := None, None;
      }
    }

    /** __copy__: its own trie and its own dictionary of the same entries, but the same cache. */
    method Copy() returns (e: Emitter)
      requires Valid()
      ensures fresh(e) && fresh(e.Own)
      ensures e.Valid() && e.lookupCache == lookupCache && e.uids == uids
      ensures e.State() == State() == old(State())
    {
      hide PrefixTrie.Valid, Coherent;
      ghost var held := Held();
      var trie := handlers.Copy();
      e := new Emitter.With(lookupCache, trie, uids);
      hide Held;
      assert Held() == held;
      SameEntries(e);
    }

    lemma SameEntries(e: Emitter)
      requires e.uids == uids
      ensures e.Held() == Held()
    {
    }

    method SetCount(id: string, count: int)
      requires id in uids && forall x :: x in uids ==> uids[x].id == x
      modifies uids[id]
      ensures Held() == old(Held())[id := Uid(uids[id].handler, Some(count))]
    {
      uids[id].count := Some(count);
    }

    method Hold(id: string, h: Handler, count: Option<int>)
      requires forall x :: x in uids ==> uids[x].id == x
      modifies this`uids
      ensures forall x :: x in uids ==> uids[x].id == x
      ensures Held() == old(Held())[id := Uid(h, count)]
      ensures id in uids && uids == old(uids)[id := uids[id]] && fresh(uids[id])
    {
      var item := new UidItem(id, h, count);
      uids := uids[id := item];
    }
  }
}
