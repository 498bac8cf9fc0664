/**
 * What the retry configuration of a service says, path by path, in terms of the JSON it was read from, and when the
 * sharing of the definitions' dictionaries does no harm.
 */
module RetryConfigBuilds {
  import opened RetryConfigs
  import opened RetryConfigSharing
  import opened MergeRuns
  import opened MergeSafety
  import opened MergesRight
  import opened MergesWrong

  // ----- what is found along a path of keys

  datatype Kind = Nothing | Value(value: Scalar) | Dictionary

  function KindOf(v: View): Kind {
    match v
    case Leaf(value) => Value(value)
    case Node(_, _) => Dictionary
  }

  function KindAt(v: View, path: seq<string>): Kind
    decreases |path|
  {
    if path == [] then KindOf(v)
    else if v.Leaf? || path[0] !in v.kids then Nothing
    else KindAt(v.kids[path[0]], path[1..])
  }

  /** The same, reading the definition wherever the path meets a reference to it. */
  function KindThrough(v: View, defs: View, path: seq<string>): Kind
    decreases |path|, 0
  {
    if path == [] then KindOf(v)
    else if v.Leaf? || path[0] !in v.kids then Nothing
    else KindOfKid(v.kids[path[0]], defs, path[1..])
  }

  function KindOfKid(kid: View, defs: View, path: seq<string>): Kind
    decreases |path|, 1
  {
    if IsReference(kid) && Named(kid, defs) then KindAt(defs.kids[kid.kids[REF].value.text], path)
    else KindThrough(kid, defs, path)
  }

  lemma {:induction false} ResolvedKinds(v: View, defs: View, path: seq<string>)
    requires Resolvable(v, defs)
    ensures KindAt(Resolve(v, defs), path) == KindThrough(v, defs, path)
    decreases |path|
  {
    if path != [] && v.Node? && path[0] in v.kids {
      assert KidResolvable(v.kids[path[0]], defs);
      if !IsReference(v.kids[path[0]]) {
        ResolvedKinds(v.kids[path[0]], defs, path[1..]);
      }
    }
  }

  /** The path runs into a value that is not a dictionary. */
  predicate Blocked(v: View, path: seq<string>)
    decreases |path|
  {
    path != [] && (v.Leaf? || (path[0] in v.kids && Blocked(v.kids[path[0]], path[1..])))
  }

  function Overlaid(below: Kind, above: Kind, blocked: bool): Kind {
    match above
    case Value(_) => above
    case Dictionary => if below.Value? then below else above
    case Nothing => if blocked then above else below
  }

  lemma {:induction false} MergedKinds(a: View, b: View, path: seq<string>)
    requires b.Node? && Mergeable(a, b)
    ensures KindAt(Merge(a, b), path) == Overlaid(KindAt(a, path), KindAt(b, path), Blocked(b, path))
    decreases |path|
  {
    if path != [] && a.Node? && path[0] in b.kids && path[0] in a.kids && b.kids[path[0]].Node? {
      assert KidMergeable(a, b, path[0]);
      MergedKinds(a.kids[path[0]], b.kids[path[0]], path[1..]);
    }
  }

  // ----- no reference is left

  predicate NoReferences(v: View) {
    v.Node? ==> forall k :: k in v.kids ==> !IsReference(v.kids[k]) && NoReferences(v.kids[k])
  }

  /** The names the references of a configuration use. */
  ghost function Names(v: View): set<string>
    decreases v, 0
  {
    match v
    case Leaf(_) => {}
    case Node(_, kids) => set k, n | k in kids && n in KidNames(kids[k]) :: n
  }

  ghost function KidNames(kid: View): set<string>
    decreases kid, 1
  {
    if !IsReference(kid) then Names(kid)
    else if kid.kids[REF].Leaf? && kid.kids[REF].value.Text? then {kid.kids[REF].value.text}
    else {}
  }

  predicate Plainly(v: View) {
    !IsReference(v) && NoReferences(v)
  }

  ghost predicate AllPlain(names: set<string>, defs: View) {
    defs.Node? && forall n :: n in names ==> n in defs.kids && Plainly(defs.kids[n])
  }

  lemma {:induction false} ResolvedHasNone(v: View, defs: View)
    requires defs.Node? && Resolvable(v, defs)
    ensures NoReferences(Resolve(v, defs)) <==> AllPlain(Names(v), defs)
    decreases v, 0
  {
    hide Names; hide KidNames; hide Plainly; hide AllPlain; hide ResolvedKid; hide KidResolvable; hide NoReferences;
    if v.Leaf? {
      LeafHasNone(v, defs);
    } else {
      forall k | k in v.kids
        ensures Plainly(ResolvedKid(v.kids[k], defs)) <==> AllPlain(KidNames(v.kids[k]), defs)
      {
        assert KidResolvable(v.kids[k], defs);
        ResolvedKidHasNone(v.kids[k], defs);
      }
      AllPlainByKid(v, defs);
      PlainByKid(v, defs);
    }
  }

  lemma PlainByKid(v: View, defs: View)
    requires v.Node?
    ensures NoReferences(Resolve(v, defs)) <==> forall k :: k in v.kids ==> Plainly(ResolvedKid(v.kids[k], defs))
  {
    hide ResolvedKid;
    var r := Resolve(v, defs);
    assert forall k :: k in v.kids ==> k in r.kids && r.kids[k] == ResolvedKid(v.kids[k], defs);
    assert NoReferences(r) <==> forall k :: k in r.kids ==> Plainly(r.kids[k]);
  }

  lemma LeafHasNone(v: View, defs: View)
    requires v.Leaf? && defs.Node?
    ensures NoReferences(Resolve(v, defs)) && AllPlain(Names(v), defs)
  {}

  lemma {:induction false} ResolvedKidHasNone(kid: View, defs: View)
    requires defs.Node? && KidResolvable(kid, defs)
    ensures Plainly(ResolvedKid(kid, defs)) <==> AllPlain(KidNames(kid), defs)
    decreases kid, 1
  {
    if !IsReference(kid) {
      ResolvedHasNone(kid, defs);
    }
  }

  lemma AllPlainByKid(v: View, defs: View)
    requires v.Node? && defs.Node?
    ensures AllPlain(Names(v), defs) <==> forall k :: k in v.kids ==> AllPlain(KidNames(v.kids[k]), defs)
  {
    hide KidNames; hide Plainly;
    forall k | k in v.kids
      ensures KidNames(v.kids[k]) <= Names(v)
    {}
  }

  lemma {:induction false} MergedHasNone(a: View, b: View)
    requires NoReferences(a) && NoReferences(b)
    ensures NoReferences(Merge(a, b))
    decreases b
  {
    if a.Node? && b.Node? {
      forall k | k in a.kids || k in b.kids
        ensures Plainly(MergedKid(a, b, k))
      {
        if k in a.kids && k in b.kids && b.kids[k].Node? {
          MergedHasNone(a.kids[k], b.kids[k]);
        }
      }
    }
  }

  // ----- how definitions may be shared

  ghost function DefDicts(defs: View, names: set<string>): set<Dict>
    requires defs.Node?
  {
    set n, d | n in names && n in defs.kids && d in Dicts(defs.kids[n]) :: d
  }

  /** The names of the references standing where `above` has a dictionary. */
  ghost function OverriddenNames(v: View, above: View): set<string>
    decreases v, 0
  {
    if v.Leaf? || above.Leaf? then {}
    else set k, n | k in v.kids && k in above.kids && n in OverriddenKidNames(v.kids[k], above.kids[k]) :: n
  }

  ghost function OverriddenKidNames(kid: View, above: View): set<string>
    decreases kid, 1
  {
    if !IsReference(kid) then OverriddenNames(kid, above)
    else if above.Node? then KidNames(kid)
    else {}
  }

  /** A definition that is overridden in one place is not referenced from a second one. */
  ghost predicate ReferencedOnce(v: View, above: View)
    decreases v
  {
    v.Node? && above.Node? ==>
      && (forall k :: k in v.kids && k in above.kids ==>
            IsReference(v.kids[k]) || ReferencedOnce(v.kids[k], above.kids[k]))
      && forall j, k :: j in v.kids && k in v.kids && k in above.kids && j != k ==>
        OverriddenKidNames(v.kids[k], above.kids[k]) !! KidNames(v.kids[j])
  }

  lemma {:induction false} ResolvedReach(v: View, defs: View)
    requires defs.Node?
    ensures Dicts(Resolve(v, defs)) <= Dicts(v) + DefDicts(defs, Names(v))
    decreases v, 0
  {
    if v.Node? {
      forall k | k in v.kids
        ensures Dicts(ResolvedKid(v.kids[k], defs)) <= Dicts(v) + DefDicts(defs, Names(v))
      {
        ResolvedKidReach(v.kids[k], defs);
      }
    }
  }

  lemma {:induction false} ResolvedKidReach(kid: View, defs: View)
    requires defs.Node?
    ensures Dicts(ResolvedKid(kid, defs)) <= Dicts(kid) + DefDicts(defs, KidNames(kid))
    decreases kid, 1
  {
    if !IsReference(kid) {
      ResolvedReach(kid, defs);
    }
  }

  lemma {:induction false} OverriddenReach(v: View, above: View, defs: View)
    requires defs.Node?
    ensures Overridden(Resolve(v, defs), above) <= Dicts(v) + DefDicts(defs, OverriddenNames(v, above))
    decreases v, 0
  {
    if v.Node? && above.Node? {
      forall k | k in v.kids && k in above.kids
        ensures Overridden(ResolvedKid(v.kids[k], defs), above.kids[k])
             <= Dicts(v) + DefDicts(defs, OverriddenNames(v, above))
      {
        OverriddenKidReach(v.kids[k], above.kids[k], defs);
      }
    }
  }

  lemma {:induction false} OverriddenKidReach(kid: View, above: View, defs: View)
    requires defs.Node?
    ensures Overridden(ResolvedKid(kid, defs), above) <= Dicts(kid) + DefDicts(defs, OverriddenKidNames(kid, above))
    decreases kid, 1
  {
    if IsReference(kid) {
      OverriddenIsOwn(ResolvedKid(kid, defs), above);
    } else {
      OverriddenReach(kid, above, defs);
    }
  }

  lemma {:induction false} FreshIsApart(a: View, b: View)
    requires Fresh(a)
    ensures Apart(a, b)
    decreases b
  {
    if a.Node? && b.Node? {
      forall k | k in a.kids && k in b.kids
        ensures Apart(a.kids[k], b.kids[k])
        ensures Overridden(a.kids[k], b.kids[k]) <= Dicts(a.kids[k])
      {
        FreshIsApart(a.kids[k], b.kids[k]);
        OverriddenIsOwn(a.kids[k], b.kids[k]);
      }
    }
  }

  lemma DefinitionsApart(defs: View, names: set<string>, others: set<string>)
    requires defs.Node? && Fresh(defs) && names !! others
    ensures DefDicts(defs, names) !! DefDicts(defs, others)
  {
    hide Dicts;
  }

  lemma {:induction false} OnceIsApart(v: View, above: View, defs: View)
    requires Fresh(v) && defs.Node? && Fresh(defs) && Dicts(v) !! Dicts(defs)
    requires ReferencedOnce(v, above)
    ensures Apart(Resolve(v, defs), above)
    decreases v
  {
    if v.Node? && above.Node? {
      forall k | k in v.kids && k in above.kids
        ensures Apart(ResolvedKid(v.kids[k], defs), above.kids[k])
      {
        if IsReference(v.kids[k]) {
          FreshIsApart(ResolvedKid(v.kids[k], defs), above.kids[k]);
        } else {
          OnceIsApart(v.kids[k], above.kids[k], defs);
        }
      }
      forall j, k | j in v.kids && k in v.kids && k in above.kids && j != k
        ensures Overridden(ResolvedKid(v.kids[k], defs), above.kids[k]) !! Dicts(ResolvedKid(v.kids[j], defs))
      {
        SiblingsApart(v, above, defs, j, k);
      }
      forall k | k in v.kids
        ensures v.dict !in Dicts(ResolvedKid(v.kids[k], defs))
      {
        ResolvedKidDicts(v.kids[k], defs);
      }
    }
  }

  lemma SiblingsApart(v: View, above: View, defs: View, j: string, k: string)
    requires Fresh(v) && defs.Node? && Fresh(defs) && Dicts(v) !! Dicts(defs)
    requires v.Node? && above.Node? && ReferencedOnce(v, above)
    requires j in v.kids && k in v.kids && k in above.kids && j != k
    ensures Overridden(ResolvedKid(v.kids[k], defs), above.kids[k]) !! Dicts(ResolvedKid(v.kids[j], defs))
  {
    hide Overridden; hide ResolvedKid; hide KidNames; hide OverriddenKidNames;
    var names, others := OverriddenKidNames(v.kids[k], above.kids[k]), KidNames(v.kids[j]);
    OverriddenKidReach(v.kids[k], above.kids[k], defs);
    ResolvedKidReach(v.kids[j], defs);
    DefinitionsApart(defs, names, others);
    assert DefDicts(defs, names) <= Dicts(defs) && DefDicts(defs, others) <= Dicts(defs);
    assert Dicts(v.kids[k]) <= Dicts(v) && Dicts(v.kids[j]) <= Dicts(v);
  }

  // ----- building

  /** The dictionary the defaults are put in. */
  function Base(dict: Dict, defaults: View): View {
    Node(dict, map["__default__" := defaults])
  }

  /** No definition the service overrides in the defaults is referenced from a second place. */
  ghost predicate Untangled(base: View, service: View, defs: View) {
    var above := Resolve(service, defs);
    ReferencedOnce(base, above) && OverriddenNames(base, above) !! Names(service)
  }

  /** What the merge may write into is seen once in the defaults and not at all in the settings. */
  lemma UntangledIsApart(base: View, service: View, defs: View)
    requires Untangled(base, service, defs) && Fresh(base) && defs.Node? && Fresh(defs)
    requires Dicts(base) !! Dicts(defs) && Dicts(service) !! Dicts(defs) && Dicts(base) !! Dicts(service)
    ensures Apart(Resolve(base, defs), Resolve(service, defs))
    ensures Overridden(Resolve(base, defs), Resolve(service, defs)) !! Dicts(Resolve(service, defs))
    ensures Overridden(Resolve(base, defs), Resolve(service, defs)) <= Dicts(base) + Dicts(defs)
    ensures Dicts(Resolve(service, defs)) <= Dicts(service) + Dicts(defs)
  {
    hide Resolve; hide ReferencedOnce; hide OverriddenNames; hide Names; hide Fresh; hide Overridden; hide Apart;
    var above := Resolve(service, defs);
    var names, others := OverriddenNames(base, above), Names(service);
    OnceIsApart(base, above, defs);
    OverriddenReach(base, above, defs);
    ResolvedReach(service, defs);
    DefinitionsApart(defs, names, others);
    assert DefDicts(defs, names) <= Dicts(defs) && DefDicts(defs, others) <= Dicts(defs);
  }

  /** The tree `seen` is what the retry model has under a key, or a new empty dictionary. */
  predicate Under(model: View, key: string, seen: View) {
    model.Node? && if key in model.kids then seen == model.kids[key] else seen.Node? && seen.kids == map[]
  }

  /** The order in which a new dictionary gives its keys. */
  type KeyOrder = f: set<string> -> seq<string> | forall keys :: Lists(f(keys), keys) ghost witness keys => Enumerate(keys)

  lemma OneMoreOrder(order: Order, d: Dict, f: KeyOrder)
    requires Orderly(order)
    ensures Orderly(order[d := f])
  {
  }

  /** The orders of some more dictionaries. */
  ghost predicate Extends(orders: Order, order: Order) {
    Orderly(orders) && order.Keys <= orders.Keys && forall d :: d in order ==> orders[d] == order[d]
  }

  lemma ExtendsMore(orders: Order, order: Order, d: Dict, f: KeyOrder)
    requires Extends(orders, order) && d !in order
    ensures Extends(orders[d := f], order)
  {
    OneMoreOrder(orders, d, f);
    hide Orderly;
  }

  /** `retry_model.get(key, {})` */
  method GetOrEmpty(dict: Dict, key: string, order: Order, newOrder: KeyOrder, ghost v: View)
    returns (item: Item, orders: Order, ghost seen: View)
    requires v.Node? && v.dict == dict && dict.entries.Keys == v.kids.Keys && Fresh(v)
    requires key in v.kids ==> dict.entries[key] == ItemOf(v.kids[key]) && Shows(v.kids[key])
    requires Orderly(order) && Dicts(v) <= order.Keys
    ensures item == ItemOf(seen) && Shows(seen) && Fresh(seen)
    ensures Under(v, key, seen)
    ensures key !in v.kids ==> fresh(Dicts(seen))
    ensures Extends(orders, order) && Dicts(seen) <= orders.Keys && forall d :: d in orders && d !in order ==> fresh(d)
  {
    if key in dict.entries {
      assert Dicts(v.kids[key]) <= Dicts(v);
      hide Orderly;
      item, orders, seen := dict.entries[key], order, v.kids[key];
    } else {
      var empty := new Dict(map[]);
      item, orders, seen := Table(empty), order[empty := newOrder], Node(empty, map[]);
      OneMoreOrder(order, empty, newOrder);
      hide Orderly;
    }
  }

  ghost predicate Buildable(base: View, service: View, defs: View) {
    && service.Node? && Resolvable(service, defs) && Resolvable(base, defs)
    && Mergeable(Resolve(base, defs), Resolve(service, defs))
  }

  lemma NewBase(dict: Dict, defaults: View)
    requires Fresh(defaults) && dict !in Dicts(defaults)
    ensures Fresh(Base(dict, defaults)) && Dicts(Base(dict, defaults)) == {dict} + Dicts(defaults)
    ensures Written(Base(dict, defaults)) <= {dict} + Dicts(defaults)
  {
    var base := Base(dict, defaults);
    assert base.kids.Keys == {DEFAULT} && base.kids[DEFAULT] == defaults;
    WrittenIsOwn(Base(dict, defaults));
  }

  // ----- views of the heap and of a snapshot of it

  lemma {:induction false} SnapshotShows(dicts: set<Dict>, v: View)
    requires Shows(v) && Dicts(v) <= dicts
    ensures ShowsIn(Snapshot(dicts), v)
    decreases v
  {
    if v.Node? {
      forall k | k in v.kids
        ensures ShowsIn(Snapshot(dicts), v.kids[k])
      {
        assert Dicts(v.kids[k]) <= Dicts(v);
        SnapshotShows(dicts, v.kids[k]);
      }
      assert v.dict.entries == EntriesOf(v);
    }
  }

  lemma {:induction false} SnapshotShown(dicts: set<Dict>, v: View)
    requires ShowsIn(Snapshot(dicts), v)
    ensures Shows(v) && Dicts(v) <= dicts
    decreases v
  {
    if v.Node? {
      assert v.dict.entries == EntriesOf(v);
      forall k | k in v.kids
        ensures Shows(v.kids[k]) && Dicts(v.kids[k]) <= dicts
      {
        SnapshotShown(dicts, v.kids[k]);
      }
    }
  }

  lemma {:induction false} ShownEntries(v: View, d: Dict, k: string)
    requires Shows(v) && d in Dicts(v) && k in d.entries && d.entries[k].Table?
    ensures d.entries[k].dict in Dicts(v)
    decreases v
  {
    if d == v.dict {
      assert d.entries[k] == ItemOf(v.kids[k]);
      assert v.kids[k].dict in Dicts(v.kids[k]);
    } else {
      var j :| j in v.kids && d in Dicts(v.kids[j]);
      ShownEntries(v.kids[j], d, k);
    }
  }

  /** The dictionaries of two views make up a closed web. */
  lemma SnapshotGiven(a: View, b: View)
    requires a.Node? && b.Node? && Shows(a) && Shows(b)
    ensures Given(Snapshot(Dicts(a) + Dicts(b)), a, b)
  {
    hide Shows, Dicts, ShowsIn;
    var dicts := Dicts(a) + Dicts(b);
    SnapshotShows(dicts, a);
    SnapshotShows(dicts, b);
    forall d, k | d in dicts && k in d.entries && d.entries[k].Table?
      ensures d.entries[k].dict in dicts
    {
      if d in Dicts(a) { ShownEntries(a, d, k); } else { ShownEntries(b, d, k); }
    }
  }

  // ----- the build

  /** What merging comes to where the condition holds, or where no definition is shared. */
  ghost predicate Delivers(ok: bool, base: View, service: View, defs: View, depth: nat)
    reads Dicts(Merge(Resolve(base, defs), Resolve(service, defs)))
  {
    var a, b := Resolve(base, defs), Resolve(service, defs);
    forall n: nat :: Deep(b, n) && depth >= 2 * n ==>
      && (Resolvable(base, defs) && Safe(a, b) ==> ok && Shows(Merge(a, b)))
      && (Untangled(base, service, defs) ==> (ok <==> Buildable(base, service, defs)) && (ok ==> Shows(Merge(a, b))))
  }

  /** The loops ran on the resolved configurations, if no name was missing. */
  ghost predicate Merges(ok: bool, web: Heap, order: Order, base: View, service: View, defs: View, depth: nat)
    reads web.Keys
  {
    if Orderly(order) && Resolvable(base, defs) then
      var a, b := Resolve(base, defs), Resolve(service, defs);
      && Given(web, a, b) && Within(web, ItemOf(a)) && b.dict in web
      && (Snapshot(web.Keys), ok) == Run(web, order, ItemOf(a), b.dict, depth)
    else !ok
  }

  lemma NewShown(dict: Dict, defaults: View)
    requires Shows(defaults) && dict.entries == map[DEFAULT := ItemOf(defaults)]
    ensures Shows(Base(dict, defaults))
  {
  }

  /** A name that is missing among the defaults. */
  lemma NotDelivered(base: View, service: View, defs: View, depth: nat)
    requires !Resolvable(base, defs)
    ensures Delivers(false, base, service, defs, depth)
  {
    hide Resolve, Resolvable, Untangled, Shows, Safe, Deep, Dicts, Merge, Mergeable;
  }

  lemma MergeDelivers(web: Heap, dicts: set<Dict>, order: Order, base: View, service: View, defs: View, ok: bool, depth: nat)
    requires service.Node? && Resolvable(base, defs) && Resolvable(service, defs) && Orderly(order)
    requires
      var a, b := Resolve(base, defs), Resolve(service, defs);
      Given(web, a, b) && Within(web, ItemOf(a)) && b.dict in web &&
      (Snapshot(dicts), ok) == Run(web, order, ItemOf(a), b.dict, depth)
    requires Untangled(base, service, defs) ==>
      var a, b := Resolve(base, defs), Resolve(service, defs);
      Apart(a, b) && Overridden(a, b) !! Dicts(b)
    ensures Delivers(ok, base, service, defs, depth)
  {
    var a, b := Resolve(base, defs), Resolve(service, defs);
    hide Resolve, Resolvable, Untangled, Run, Shows, ShowsIn, Safe, Mergeable, Deep, Orderly, Apart, Overridden, Dicts, Merge;
    GivenFacts(web, a, b);
    forall n: nat | Deep(b, n) && depth >= 2 * n
      ensures Safe(a, b) ==> ok && Shows(Merge(a, b))
      ensures Untangled(base, service, defs) ==> (ok <==> Buildable(base, service, defs)) && (ok ==> Shows(Merge(a, b)))
    {
      if Untangled(base, service, defs) {
        ApartIsClean(a, b);
        UnreadMerge(web, order, a, b, n, depth);
        CleanIsSafe(a, b);
      }
      if Safe(a, b) {
        SafeMerge(web, order, a, b, n, depth);
        SnapshotShown(dicts, Merge(a, b));
      }
    }
  }

  lemma CleanIsSafe(a: View, b: View)
    requires Harmless(a, b) && ReadsWell(a, b) && ScalarsRead(a, b)
    ensures Safe(a, b) <==> Mergeable(a, b)
  {
    hide Harmless, ReadsWell, ScalarsRead;
  }

  /** A new dictionary holding the defaults, resolved, with the service's resolved settings laid over it; `web` is what
      all dictionaries held when the merge began. */
  method MergeOntoDefaults(defaultItem: Item, serviceConfig: Dict, definitions: Dict, order: Order, newOrder: KeyOrder,
                           depth: nat, ghost defaults: View, ghost service: View, ghost defs: View)
    returns (ok: bool, final: Dict, ghost web: Heap)
    requires defaultItem == ItemOf(defaults) && Shows(defaults) && Fresh(defaults)
    requires service.Node? && service.dict == serviceConfig
    requires Resolvable(service, defs) && Shows(Resolve(service, defs))
    requires defs.Node? && defs.dict == definitions && Shows(defs) && Fresh(defs)
    requires Dicts(defaults) !! Dicts(defs) && Dicts(service) !! Dicts(defs) && Dicts(defaults) !! Dicts(service)
    requires Orderly(order) && Dicts(defaults) + Dicts(defs) + Dicts(service) <= order.Keys
    modifies Dicts(defaults) + Dicts(defs) + Dicts(service)
    ensures fresh(final) && Orderly(order[final := newOrder])
    ensures Merges(ok, web, order[final := newOrder], Base(final, defaults), service, defs, depth)
    ensures Delivers(ok, Base(final, defaults), service, defs, depth)
  {
    hide Dicts; hide Written; hide Fresh; hide Resolve; hide Merge; hide Untangled; hide Overridden; hide Apart;
    hide Resolvable; hide Mergeable; hide Shows; hide ShowsIn; hide Run; hide Safe;
    ghost var above := Resolve(service, defs);
    assert allocated(Dicts(defaults)) && allocated(Dicts(defs)) && allocated(Dicts(service)) && allocated(Dicts(above));
    final := new Dict(map[DEFAULT := defaultItem]);
    ghost var base := Base(final, defaults);
    NewBase(final, defaults);
    NewShown(final, defaults);
    var orders := order[final := newOrder];
    OneMoreOrder(order, final, newOrder);
    SameItem(service, defs);
    SameItem(base, defs);
    ok := ResolveReferences(final, definitions, base, defs);
    web := map[];
    if ok {
      ghost var dicts := Dicts(Resolve(base, defs)) + Dicts(above);
      ResolvedDicts(base, defs);
      ResolvedDicts(service, defs);
      SnapshotGiven(Resolve(base, defs), above);
      web := Snapshot(dicts);
      GivenFacts(web, Resolve(base, defs), above);
      assert dicts <= orders.Keys;
      ok := MergeRuns.MergeDicts(Table(final), serviceConfig, orders, depth, dicts);
      if Untangled(base, service, defs) {
        UntangledIsApart(base, service, defs);
      }
      MergeDelivers(web, dicts, orders, base, service, defs, ok, depth);
    } else {
      NotDelivered(base, service, defs, depth);
    }
  }

  /** Two values of a freshly read dictionary, or new ones, have nothing in common with each other or the definitions. */
  lemma PartsApart(model: View, key: string, seen: View, defs: View)
    requires Fresh(model) && Dicts(model) !! Dicts(defs) && Under(model, key, seen) && key in model.kids
    ensures Dicts(seen) <= Dicts(model) && model.dict !in Dicts(seen) && Dicts(seen) !! Dicts(defs)
    ensures forall k :: k in model.kids && k != key ==> Dicts(seen) !! Dicts(model.kids[k])
  {}

  lemma ExtendsIs(orders: Order, order: Order)
    requires Extends(orders, order)
    ensures Orderly(orders) && order.Keys <= orders.Keys
  {
  }

  lemma ExtendsAll(more: Order, orders: Order, order: Order)
    requires Extends(more, orders) && Extends(orders, order)
    ensures Extends(more, order)
  {
    hide Orderly;
  }

  /** `_build_retry_config`; `final` is the dictionary it has made when it ends, with or without an error. */
  method BuildRetryConfig(prefix: string, retryModel: Dict, definitions: Dict, order: Order, newOrder: KeyOrder,
                          depth: nat, ghost model: View, ghost defs: View)
    returns (ok: bool, final: Dict?, orders: Order, ghost defaults: View, ghost service: View, ghost web: Heap)
    requires model.Node? && model.dict == retryModel && Shows(model) && Fresh(model)
    requires defs.Node? && defs.dict == definitions && Shows(defs) && Fresh(defs)
    requires Dicts(model) !! Dicts(defs)
    requires prefix != DEFAULT && Orderly(order) && Dicts(model) + Dicts(defs) <= order.Keys
    modifies Dicts(model) + Dicts(defs)
    ensures Under(model, prefix, service) && Under(model, "__default__", defaults)
    ensures final == null <==> service.Leaf? || !Resolvable(service, defs)
    ensures final == null ==> !ok
    ensures Extends(orders, order)
    ensures final != null ==> fresh(final) && Merges(ok, web, orders, Base(final, defaults), service, defs, depth)
    ensures final != null ==> Delivers(ok, Base(final, defaults), service, defs, depth)
  {
    hide Dicts; hide Written; hide Fresh; hide Resolve; hide Merge; hide Untangled; hide Resolvable; hide Mergeable;
    hide Shows; hide Merges; hide Delivers; hide Orderly; hide Extends;
    Seen(model);
    assert allocated(Dicts(model)) && allocated(Dicts(defs));
    final, web, defaults := null, map[], if DEFAULT in model.kids then model.kids[DEFAULT] else Node(retryModel, map[]);
    var serviceItem;
    serviceItem, orders, service := GetOrEmpty(retryModel, prefix, order, newOrder, model);
    if prefix in model.kids {
      PartsApart(model, prefix, service, defs);
    }
    ExtendsIs(orders, order);
    if serviceItem.Plain? {
      ok := false;
      return;
    }
    WrittenIsOwn(service);
    ok := ResolveReferences(serviceItem.dict, definitions, service, defs);
    if !ok {
      return;
    }
    var defaultItem;
    assert allocated(Dicts(service)) && allocated(Dicts(Resolve(service, defs)));
    ghost var before := orders;
    defaultItem, orders, defaults := GetOrEmpty(retryModel, DEFAULT, orders, newOrder, model);
    ExtendsIs(orders, before);
    ExtendsAll(orders, before, order);
    if DEFAULT in model.kids {
      PartsApart(model, DEFAULT, defaults, defs);
    }
    ok, final, web := MergeOntoDefaults(defaultItem, serviceItem.dict, definitions, orders, newOrder, depth, defaults, service, defs);
    ExtendsMore(orders, order, final, newOrder);
    orders := orders[final := newOrder];
  }

  // ----- what the built configuration says

  lemma {:induction false} BlockedByValue(v: View, path: seq<string>)
    ensures Blocked(v, path) <==> exists n :: 0 <= n < |path| && KindAt(v, path[..n]).Value?
    decreases |path|
  {
    if path != [] && v.Leaf? {
      assert KindAt(v, path[..0]).Value?;
    } else if path != [] && path[0] in v.kids {
      var kid, rest := v.kids[path[0]], path[1..];
      BlockedByValue(kid, rest);
      forall n | 0 <= n < |rest|
        ensures KindAt(v, path[..n + 1]) == KindAt(kid, rest[..n])
      {
        assert path[..n + 1][1..] == rest[..n];
      }
      if n :| 0 <= n < |path| && KindAt(v, path[..n]).Value? {
        assert KindAt(kid, rest[..n - 1]).Value?;
      }
      if n :| 0 <= n < |rest| && KindAt(kid, rest[..n]).Value? {
        assert KindAt(v, path[..n + 1]).Value?;
      }
    }
  }

  /** A setting of the service says nothing about the path, but a value of it stands in the way. */
  ghost predicate CutOff(service: View, defs: View, path: seq<string>) {
    exists n :: 0 <= n < |path| && KindThrough(service, defs, path[..n]).Value?
  }

  /** At every path the service's setting holds if there is one and the default otherwise, references read through. */
  lemma BuiltSays(base: View, service: View, defs: View, path: seq<string>)
    requires Buildable(base, service, defs)
    ensures KindAt(Merge(Resolve(base, defs), Resolve(service, defs)), path)
         == Overlaid(KindThrough(base, defs, path), KindThrough(service, defs, path), CutOff(service, defs, path))
  {
    var above := Resolve(service, defs);
    MergedKinds(Resolve(base, defs), above, path);
    ResolvedKinds(base, defs, path);
    ResolvedKinds(service, defs, path);
    BlockedByValue(above, path);
    forall n | 0 <= n < |path|
      ensures KindAt(above, path[..n]) == KindThrough(service, defs, path[..n])
    {
      ResolvedKinds(service, defs, path[..n]);
    }
  }

  lemma BuiltHasNoReferences(base: View, service: View, defs: View)
    requires Buildable(base, service, defs)
    requires AllPlain(Names(base) + Names(service), defs)
    ensures NoReferences(Merge(Resolve(base, defs), Resolve(service, defs)))
  {
    ResolvedHasNone(base, defs);
    ResolvedHasNone(service, defs);
    MergedHasNone(Resolve(base, defs), Resolve(service, defs));
  }

  // ----- why the sharing matters

  lemma OverriddenKid(a: View, b: View, k: string)
    requires a.Node? && b.Node? && k in a.kids && k in b.kids && b.kids[k].Node?
    requires Shows(Merge(a, b))
    ensures Shows(Merge(a.kids[k], b.kids[k])) && ItemOf(Merge(a.kids[k], b.kids[k])) == ItemOf(a.kids[k])
  {
    var w := Merge(a, b);
    assert k in w.kids && w.kids[k] == MergedKid(a, b, k) == Merge(a.kids[k], b.kids[k]);
    MergedItem(a.kids[k], b.kids[k]);
    hide *;
    Seen(w);
  }

  /** Two references to one definition, one of them really overridden: no heap holds what the merge should give. */
  lemma SharedDefinitionLeaks(a: View, b: View, j: string, k: string)
    requires a.Node? && b.Node? && j in a.kids && k in a.kids && a.kids[j] == a.kids[k]
    requires j !in b.kids && k in b.kids && b.kids[k].Node? && Merge(a.kids[k], b.kids[k]) != a.kids[k]
    ensures !Shows(Merge(a, b))
  {
    if Shows(Merge(a, b)) {
      OverriddenKid(a, b, k);
      AbsentStays(a, b, j);
      assert Merge(a, b).kids[j] == a.kids[j];
      Seen(Merge(a, b));
      OneView(Merge(a.kids[k], b.kids[k]), a.kids[j]);
    }
  }

  /** A definition that is really overridden is no longer the definition the model was loaded with. */
  lemma DefinitionIsAltered(a: View, b: View, k: string, defs: View, name: string)
    requires a.Node? && b.Node? && k in a.kids && defs.Node? && name in defs.kids && a.kids[k] == defs.kids[name]
    requires k in b.kids && b.kids[k].Node? && Merge(a.kids[k], b.kids[k]) != a.kids[k]
    requires Shows(Merge(a, b))
    ensures !Shows(defs)
  {
    hide Merge; hide Shows; hide Dicts;
    OverriddenKid(a, b, k);
    if Shows(defs) {
      Seen(defs);
      OneView(Merge(a.kids[k], b.kids[k]), defs.kids[name]);
    }
  }
}
