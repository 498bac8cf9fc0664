/**
 * merge_dicts of botocore/utils.py on dictionaries that may be shared: for any dictionaries, any order in which they
 * give their keys, and any recursion limit, what the loops leave behind.
 */
module MergeRuns {
  import opened RetryConfigs

  /** What every dictionary holds. */
  type Heap = map<Dict, map<string, Item>>

  /** The order in which each dictionary gives the keys that it has. */
  type Order = map<Dict, set<string> -> seq<string>>

  predicate Lists(keys: seq<string>, all: set<string>) {
    && (forall i :: 0 <= i < |keys| ==> keys[i] in all)
    && (forall k :: k in all ==> k in keys)
    && forall i, j :: 0 <= i < j < |keys| ==> keys[i] != keys[j]
  }

  ghost predicate Orderly(order: Order) {
    forall d, keys :: d in order ==> Lists(order[d](keys), keys)
  }

  ghost function Enumerate(keys: set<string>): (s: seq<string>)
    ensures Lists(s, keys)
    decreases keys
  {
    if keys == {} then []
    else
      var k :| k in keys;
      var rest := Enumerate(keys - {k});
      assert forall j :: j in keys ==> j == k || j in keys - {k};
      [k] + rest
  }

  ghost function Listed(order: Order, d: Dict, keys: set<string>): (s: seq<string>)
    ensures Orderly(order) ==> Lists(s, keys)
  {
    if d in order then order[d](keys) else Enumerate(keys)
  }

  ghost predicate Closed(h: Heap) {
    forall d, k :: d in h && k in h[d] && h[d][k].Table? ==> h[d][k].dict in h
  }

  ghost predicate Within(h: Heap, item: Item) {
    item.Table? ==> item.dict in h
  }

  // ----- What the loops do

  /** merge_dicts within a recursion limit. Anything but a dictionary takes no keys. */
  ghost function Run(h: Heap, order: Order, x: Item, y: Dict, depth: nat): (r: (Heap, bool))
    requires Closed(h) && Within(h, x) && y in h && Orderly(order)
    ensures Closed(r.0) && r.0.Keys == h.Keys
    decreases depth, 1, 0
  {
    if depth == 0 then (h, false)
    else if x.Plain? then (h, h[y] == map[])
    else RunKeys(h, order, x.dict, y, Listed(order, y, h[y].Keys), h[y].Keys, depth)
  }

  /** The loop over the keys that are left; it fails when the dictionary it goes through has grown meanwhile. */
  ghost function RunKeys(h: Heap, order: Order, x: Dict, y: Dict, keys: seq<string>, all: set<string>, depth: nat)
    : (r: (Heap, bool))
    requires Closed(h) && x in h && y in h && Orderly(order)
    requires depth > 0 && forall i :: 0 <= i < |keys| ==> keys[i] in all
    ensures Closed(r.0) && r.0.Keys == h.Keys
    decreases depth, 0, |keys|
  {
    if h[y].Keys != all then (h, false)
    else if keys == [] then (h, true)
    else
      var (g, ok) := RunKey(h, order, x, y, keys[0], depth);
      if ok then RunKeys(g, order, x, y, keys[1..], all, depth) else (g, false)
  }

  /** One round: two dictionaries are merged, anything else is assigned. */
  ghost function RunKey(h: Heap, order: Order, x: Dict, y: Dict, key: string, depth: nat): (r: (Heap, bool))
    requires Closed(h) && x in h && y in h && key in h[y] && depth > 0 && Orderly(order)
    ensures Closed(r.0) && r.0.Keys == h.Keys
    decreases depth, 0, 0
  {
    var value := h[y][key];
    if value.Table? && key in h[x] then Run(h, order, h[x][key], value.dict, depth - 1)
    else (h[x := h[x][key := value]], true)
  }

  lemma KeyWrites(h: Heap, order: Order, x: Dict, y: Dict, k: string, depth: nat)
    requires Closed(h) && x in h && y in h && k in h[y] && depth > 0 && Orderly(order)
    requires h[y][k].Plain? || k !in h[x]
    ensures RunKey(h, order, x, y, k, depth) == (h[x := h[x][k := h[y][k]]], true)
  {
  }

  lemma KeyMerges(h: Heap, order: Order, x: Dict, y: Dict, k: string, depth: nat)
    requires Closed(h) && x in h && y in h && k in h[y] && depth > 0 && Orderly(order)
    requires h[y][k].Table? && k in h[x]
    ensures Within(h, h[x][k]) && h[y][k].dict in h && (h[x][k].Table? ==> h[x][k].dict in h)
    ensures RunKey(h, order, x, y, k, depth) == Run(h, order, h[x][k], h[y][k].dict, depth - 1)
  {
    hide Run;
  }

  lemma NoMoreKeys(h: Heap, order: Order, x: Dict, y: Dict, all: set<string>, depth: nat)
    requires Closed(h) && x in h && y in h && Orderly(order) && depth > 0 && h[y].Keys == all
    ensures RunKeys(h, order, x, y, [], all, depth) == (h, true)
  {
  }

  lemma OneMoreKey(h: Heap, order: Order, x: Dict, y: Dict, keys: seq<string>, all: set<string>, depth: nat)
    requires Closed(h) && x in h && y in h && Orderly(order) && depth > 0 && h[y].Keys == all && keys != []
    requires forall i :: 0 <= i < |keys| ==> keys[i] in all
    ensures
      var r := RunKey(h, order, x, y, keys[0], depth);
      RunKeys(h, order, x, y, keys, all, depth) ==
      if r.1 then RunKeys(r.0, order, x, y, keys[1..], all, depth) else (r.0, false)
  {
    hide Run;
  }

  lemma RunIsLoop(h: Heap, order: Order, x: View, y: Dict, depth: nat)
    requires Closed(h) && x.Node? && x.dict in h && y in h && Orderly(order) && depth > 0
    requires forall i :: 0 <= i < |Listed(order, y, h[y].Keys)| ==> Listed(order, y, h[y].Keys)[i] in h[y].Keys
    ensures Within(h, ItemOf(x))
    ensures Run(h, order, ItemOf(x), y, depth) == RunKeys(h, order, x.dict, y, Listed(order, y, h[y].Keys), h[y].Keys, depth)
  {
    hide RunKeys;
  }

  lemma ItemIsTable(v: View)
    requires v.Node?
    ensures ItemOf(v) == Table(v.dict)
    ensures forall h: Heap :: Within(h, ItemOf(v)) <==> v.dict in h
  {
  }

  lemma OrderLists(order: Order, d: Dict, all: set<string>)
    requires Orderly(order)
    ensures Lists(Listed(order, d, all), all) && forall i :: 0 <= i < |Listed(order, d, all)| ==> Listed(order, d, all)[i] in all
  {
    hide Orderly, Listed;
  }

  // ----- The code

  ghost function Snapshot(dicts: set<Dict>): (h: Heap)
    reads dicts
    ensures h.Keys == dicts
  {
    map d | d in dicts :: d.entries
  }

  lemma Emptied(h: Heap, order: Order, x: Item, y: Dict, depth: nat)
    requires Closed(h) && Within(h, x) && y in h && Orderly(order)
    ensures depth == 0 ==> Run(h, order, x, y, depth) == (h, false)
    ensures depth > 0 && x.Plain? ==> Run(h, order, x, y, depth) == (h, h[y] == map[])
    ensures forall i :: 0 <= i < |Listed(order, y, h[y].Keys)| ==> Listed(order, y, h[y].Keys)[i] in h[y].Keys
    ensures depth > 0 && x.Table? ==> x.dict in h
    ensures depth > 0 && x.Table? ==>
            Run(h, order, x, y, depth) == RunKeys(h, order, x.dict, y, Listed(order, y, h[y].Keys), h[y].Keys, depth)
  {
    OrderLists(order, y, h[y].Keys);
    hide RunKeys;
  }

  lemma Grows(h: Heap, order: Order, x: Dict, y: Dict, keys: seq<string>, all: set<string>, depth: nat)
    requires Closed(h) && x in h && y in h && Orderly(order) && depth > 0 && h[y].Keys != all
    requires forall i :: 0 <= i < |keys| ==> keys[i] in all
    ensures RunKeys(h, order, x, y, keys, all, depth) == (h, false)
  {
  }

  lemma Onward(h: Heap, order: Order, x: Dict, y: Dict, keys: seq<string>, i: nat, all: set<string>, depth: nat)
    requires Closed(h) && x in h && y in h && Orderly(order) && depth > 0 && h[y].Keys == all && i < |keys|
    requires forall k :: 0 <= k < |keys| ==> keys[k] in all
    ensures keys[i] in all
    ensures
      var r := RunKey(h, order, x, y, keys[i], depth);
      RunKeys(h, order, x, y, keys[i..], all, depth) ==
      if r.1 then RunKeys(r.0, order, x, y, keys[i + 1..], all, depth) else (r.0, false)
  {
    assert keys[i..][0] == keys[i] && keys[i..][1..] == keys[i + 1..];
    hide Run, RunKey, RunKeys, Closed, Orderly;
    OneMoreKey(h, order, x, y, keys[i..], all, depth);
  }

  lemma SnapshotAt(dicts: set<Dict>, d: Dict)
    requires d in dicts
    ensures Snapshot(dicts)[d] == d.entries
  {
  }

  method MergeDicts(dict1: Item, dict2: Dict, order: Order, depth: nat, ghost dicts: set<Dict>) returns (ok: bool)
    requires dicts <= order.Keys
    requires Closed(Snapshot(dicts)) && Within(Snapshot(dicts), dict1) && dict2 in dicts && Orderly(order)
    modifies dicts
    ensures (Snapshot(dicts), ok) == Run(old(Snapshot(dicts)), order, dict1, dict2, depth)
    decreases depth, 2
  {
    assert dict1.Table? ==> dict1.dict in dicts;
    hide Run, RunKeys, Closed, Orderly, Snapshot;
    SnapshotAt(dicts, dict2);
    Emptied(Snapshot(dicts), order, dict1, dict2, depth);
    if depth == 0 {
      return false;
    }
    if dict1.Plain? {
      return dict2.entries == map[];
    }
    ok := MergeEach(dict1.dict, order[dict2](dict2.entries.Keys), dict2, dict2.entries.Keys, order, depth, dicts);
  }

  /** The loop over the keys of `dict2`, which had the keys `all` when it began. */
  method MergeEach(dict1: Dict, keys: seq<string>, dict2: Dict, all: set<string>, order: Order, depth: nat,
                   ghost dicts: set<Dict>)
    returns (ok: bool)
    requires dicts <= order.Keys
    requires Closed(Snapshot(dicts)) && dict1 in dicts && dict2 in dicts && Orderly(order)
    requires depth > 0 && forall i :: 0 <= i < |keys| ==> keys[i] in all
    modifies dicts
    ensures (Snapshot(dicts), ok) == RunKeys(old(Snapshot(dicts)), order, dict1, dict2, keys, all, depth)
    decreases depth, 1
  {
    hide RunKeys, RunKey, Closed, Orderly, Snapshot;
    ghost var whole := RunKeys(Snapshot(dicts), order, dict1, dict2, keys, all, depth);
    var i := 0;
    assert keys[0..] == keys;
    while true
      invariant 0 <= i <= |keys| && Closed(Snapshot(dicts))
      invariant whole == RunKeys(Snapshot(dicts), order, dict1, dict2, keys[i..], all, depth)
      decreases |keys| - i
    {
      ghost var h := Snapshot(dicts);
      SnapshotAt(dicts, dict2);
      if dict2.entries.Keys != all {
        Grows(h, order, dict1, dict2, keys[i..], all, depth);
        return false;
      }
      if i == |keys| {
        NoMoreKeys(h, order, dict1, dict2, all, depth);
        return true;
      }
      Onward(h, order, dict1, dict2, keys, i, all, depth);
      ok := MergeKey(dict1, keys[i], dict2, order, depth, dicts);
      if !ok {
        return;
      }
      i := i + 1;
    }
  }

  method MergeKey(dict1: Dict, key: string, dict2: Dict, order: Order, depth: nat, ghost dicts: set<Dict>)
    returns (ok: bool)
    requires dicts <= order.Keys
    requires Closed(Snapshot(dicts)) && dict1 in dicts && dict2 in dicts && Orderly(order)
    requires depth > 0 && key in dict2.entries
    modifies dicts
    ensures (Snapshot(dicts), ok) == RunKey(old(Snapshot(dicts)), order, dict1, dict2, key, depth)
    decreases depth, 0
  {
    var value := dict2.entries[key];
    if value.Table? && key in dict1.entries {
      ok := MergeDicts(dict1.entries[key], value.dict, order, depth - 1, dicts);
    } else {
      ghost var before := Snapshot(dicts);
      dict1.entries := dict1.entries[key := value];
      assert Snapshot(dicts) == before[dict1 := before[dict1][key := value]];
      ok := true;
    }
  }
}
