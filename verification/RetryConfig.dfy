/**
 * Building the retry configuration of one service (botocore/translate.py, botocore/utils.py).
 *
 * The configuration is a web of nested dictionaries that two passes rewrite in place: references are replaced by
 * the definition's own dictionary, not by a copy, and then the service's settings are merged into the defaults.  A
 * `View` is the tree that a reader starting from one dictionary sees, with the identity of every dictionary on the
 * way; two places of a view may well be the same dictionary, and the theorems say when that does no harm.
 */
module RetryConfigs {

  /** A JSON value that is not a dictionary. */
  datatype Scalar = Text(text: string) | Other(id: int)

  datatype Item = Plain(value: Scalar) | Table(dict: Dict)

  class Dict {
    var entries: map<string, Item>

    constructor (entries: map<string, Item>)
      ensures this.entries == entries
    {
      this.entries := entries;
    }
  }

  datatype View = Leaf(value: Scalar) | Node(dict: Dict, kids: map<string, View>)

  const DEFAULT := "__default__"
  const REF := "$ref"

  // ----- what a view says

  function ItemOf(v: View): Item {
    match v
    case Leaf(value) => Plain(value)
    case Node(dict, _) => Table(dict)
  }

  ghost function Dicts(v: View): set<Dict> {
    match v
    case Leaf(_) => {}
    case Node(dict, kids) => {dict} + (set k, d | k in kids && d in Dicts(kids[k]) :: d)
  }

  /** The heap looks as the view says. */
  ghost predicate Shows(v: View)
    reads Dicts(v)
  {
    v.Node? ==>
      && v.dict.entries.Keys == v.kids.Keys
      && forall k :: k in v.kids ==> v.dict.entries[k] == ItemOf(v.kids[k]) && Shows(v.kids[k])
  }

  /** No dictionary is reachable twice, as in anything freshly read from JSON. */
  ghost predicate Fresh(v: View) {
    v.Node? ==>
      && (forall k :: k in v.kids ==> v.dict !in Dicts(v.kids[k]) && Fresh(v.kids[k]))
      && forall j, k :: j in v.kids && k in v.kids && j != k ==> Dicts(v.kids[j]) !! Dicts(v.kids[k])
  }

  // ----- resolving references

  predicate IsReference(v: View) {
    v.Node? && v.kids.Keys == {"$ref"}
  }

  predicate Resolvable(v: View, defs: View)
    decreases v, 0
  {
    v.Node? ==> forall k :: k in v.kids ==> KidResolvable(v.kids[k], defs)
  }

  /** The reference names one of the definitions. */
  predicate Named(v: View, defs: View)
    requires IsReference(v)
  {
    v.kids[REF].Leaf? && v.kids[REF].value.Text? && defs.Node? && v.kids[REF].value.text in defs.kids
  }

  function Resolve(v: View, defs: View): View
    decreases v, 0
  {
    match v
    case Leaf(_) => v
    case Node(dict, kids) => Node(dict, map k | k in kids :: ResolvedKid(kids[k], defs))
  }

  /** What takes the place of a value of a dictionary. */
  function ResolvedKid(kid: View, defs: View): View
    decreases kid, 1
  {
    if !IsReference(kid) then Resolve(kid, defs)
    else if Named(kid, defs) then defs.kids[kid.kids[REF].value.text]
    else kid
  }

  predicate KidResolvable(kid: View, defs: View)
    decreases kid, 1
  {
    if IsReference(kid) then Named(kid, defs) else Resolvable(kid, defs)
  }

  /** The dictionaries the pass writes into: the configuration's own, references left out. */
  ghost function Written(v: View): set<Dict> {
    match v
    case Leaf(_) => {}
    case Node(dict, kids) =>
      {dict} + (set k, d | k in kids && !IsReference(kids[k]) && d in Written(kids[k]) :: d)
  }

  lemma {:induction false} WrittenIsOwn(v: View)
    ensures Written(v) <= Dicts(v)
  {
    if v.Node? {
      forall k | k in v.kids { WrittenIsOwn(v.kids[k]); }
    }
  }

  lemma {:induction false} ResolvedDicts(v: View, defs: View)
    ensures Dicts(Resolve(v, defs)) <= Dicts(v) + Dicts(defs)
    decreases v, 0
  {
    if v.Node? {
      forall k | k in v.kids
        ensures Dicts(ResolvedKid(v.kids[k], defs)) <= Dicts(v) + Dicts(defs)
      {
        ResolvedKidDicts(v.kids[k], defs);
      }
    }
  }

  lemma {:induction false} ResolvedKidDicts(kid: View, defs: View)
    ensures Dicts(ResolvedKid(kid, defs)) <= Dicts(kid) + Dicts(defs)
    decreases kid, 1
  {
    if !IsReference(kid) {
      ResolvedDicts(kid, defs);
    }
  }

  /** The view of one value while the pass is under way. */
  function Current(v: View, defs: View, done: set<string>, k: string): View
    requires v.Node? && k in v.kids
  {
    if k in done then ResolvedKid(v.kids[k], defs) else v.kids[k]
  }

  ghost predicate ShowsCurrent(v: View, defs: View, done: set<string>)
    requires v.Node?
    reads v.dict, set k, d | k in v.kids && d in Dicts(Current(v, defs, done, k)) :: d
  {
    && v.dict.entries.Keys == v.kids.Keys
    && forall k :: k in v.kids ==>
      var now := Current(v, defs, done, k);
      v.dict.entries[k] == ItemOf(now) && Shows(now)
  }

  /** Writing into one value's dictionaries is not seen from any other value. */
  lemma WritesApart(v: View, defs: View, done: set<string>, key: string)
    requires v.Node? && Fresh(v) && Dicts(v) !! Dicts(defs) && key in v.kids
    ensures v.dict !in Dicts(v.kids[key]) && v.dict !in Dicts(defs)
    ensures Dicts(v.kids[key]) !! Dicts(defs)
    ensures !IsReference(v.kids[key]) ==> Written(v.kids[key]) <= Written(v)
    ensures Fresh(v.kids[key])
    ensures forall k :: k in v.kids ==> v.dict !in Dicts(Current(v, defs, done, k))
    ensures v.dict !in Written(v.kids[key]) && Written(v.kids[key]) !! Dicts(defs)
    ensures forall k :: k in v.kids && k != key ==>
      Written(v.kids[key]) !! Dicts(Current(v, defs, done, k))
  {
    WrittenIsOwn(v.kids[key]);
    forall k | k in v.kids
      ensures v.dict !in Dicts(Current(v, defs, done, k))
      ensures k != key ==> Written(v.kids[key]) !! Dicts(Current(v, defs, done, k))
    {
      ResolvedKidDicts(v.kids[k], defs);
      assert Dicts(v.kids[k]) <= Dicts(v);
    }
  }

  lemma Seen(v: View)
    requires Shows(v)
    ensures v.Node? ==>
      && v.dict.entries.Keys == v.kids.Keys
      && forall k :: k in v.kids ==>
        v.dict.entries[k] == ItemOf(v.kids[k]) && Shows(v.kids[k]) && Dicts(v.kids[k]) <= Dicts(v)
  {}

  /** One heap shows one view of each dictionary. */
  lemma {:induction false} OneView(v: View, w: View)
    requires Shows(v) && Shows(w) && ItemOf(v) == ItemOf(w)
    ensures v == w
    decreases v
  {
    if v.Node? {
      forall k | k in v.kids
        ensures v.kids[k] == w.kids[k]
      {
        OneView(v.kids[k], w.kids[k]);
      }
      assert v.kids == w.kids;
    }
  }

  /** The pass never replaces the dictionary it is called on. */
  lemma SameItem(v: View, defs: View)
    ensures ItemOf(Resolve(v, defs)) == ItemOf(v)
    ensures v.Leaf? ==> Resolve(v, defs) == v && Resolvable(v, defs)
  {}

  lemma WrittenHead(v: View)
    requires v.Node?
    ensures v.dict in Written(v)
  {}

  /** A finished round: only the value under `key` changed its view. */
  lemma KeyDone(v: View, defs: View, done: set<string>, key: string)
    requires v.Node? && key in v.kids && v.dict.entries.Keys == v.kids.Keys
    requires v.dict.entries[key] == ItemOf(ResolvedKid(v.kids[key], defs))
    requires Shows(ResolvedKid(v.kids[key], defs))
    requires forall k :: k in v.kids && k != key ==>
      v.dict.entries[k] == ItemOf(Current(v, defs, done, k)) && Shows(Current(v, defs, done, k))
    ensures ShowsCurrent(v, defs, done + {key})
  {
    hide Dicts; hide Shows; hide Resolve;
    forall k | k in v.kids
      ensures v.dict.entries[k] == ItemOf(Current(v, defs, done + {key}, k))
      ensures Shows(Current(v, defs, done + {key}, k))
    {
      if k != key {
        assert Current(v, defs, done + {key}, k) == Current(v, defs, done, k);
      }
    }
  }

  lemma Started(v: View, defs: View)
    requires v.Node? && Shows(v)
    ensures ShowsCurrent(v, defs, {}) && v.dict.entries.Keys == v.kids.Keys
  {
    hide Dicts; hide Resolve;
    assert forall k :: k in v.kids ==> Current(v, defs, {}, k) == v.kids[k];
  }

  lemma Finished(v: View, defs: View)
    requires v.Node? && ShowsCurrent(v, defs, v.kids.Keys)
    ensures Shows(Resolve(v, defs))
  {
    hide Dicts;
    assert forall k :: k in v.kids ==> Current(v, defs, v.kids.Keys, k) == ResolvedKid(v.kids[k], defs);
  }

  method ResolveReferences(config: Dict, definitions: Dict, ghost v: View, ghost defs: View) returns (ok: bool)
    requires v.Node? && v.dict == config && Shows(v) && Fresh(v)
    requires defs.Node? && defs.dict == definitions && Shows(defs)
    requires Dicts(v) !! Dicts(defs)
    modifies Written(v)
    ensures ok <==> Resolvable(v, defs)
    ensures ok ==> Shows(defs) && Shows(Resolve(v, defs))
    decreases v
  {
    hide Dicts; hide Written; hide Fresh; hide Resolve; hide Shows; hide KidResolvable; hide ShowsCurrent;
    Started(v, defs);
    var rest := config.entries.Keys;
    ghost var done: set<string> := {};
    while rest != {}
      invariant rest + done == v.kids.Keys && rest !! done
      invariant Shows(defs)
      invariant ShowsCurrent(v, defs, done)
      invariant forall k :: k in done ==> KidResolvable(v.kids[k], defs)
      decreases rest
    {
      var key :| key in rest;
      ok := ResolveKey(config, key, definitions, v, defs, done);
      if !ok {
        return false;
      }
      rest := rest - {key};
      done := done + {key};
    }
    assert done == v.kids.Keys;
    Finished(v, defs);
    ok := true;
  }

  /** One round of the loop over the entries of `config`. */
  method ResolveKey(config: Dict, key: string, definitions: Dict, ghost v: View, ghost defs: View,
                    ghost done: set<string>)
    returns (ok: bool)
    requires v.Node? && v.dict == config && Fresh(v)
    requires defs.Node? && defs.dict == definitions && Shows(defs)
    requires Dicts(v) !! Dicts(defs)
    requires key in v.kids && key !in done && ShowsCurrent(v, defs, done)
    modifies Written(v)
    ensures ok <==> KidResolvable(v.kids[key], defs)
    ensures ok ==> Shows(defs) && ShowsCurrent(v, defs, done + {key})
    decreases v, 0
  {
    hide Dicts; hide Written; hide Fresh; hide Resolve; hide Shows; hide Resolvable;
    ghost var kid := v.kids[key];
    WritesApart(v, defs, done, key);
    WrittenHead(v);
    var value := config.entries[key];
    assert Current(v, defs, done, key) == kid;
    Seen(kid);
    SameItem(kid, defs);
    if !value.Table? {
      ok := true;
      KeyDone(v, defs, done, key);
    } else if value.dict.entries.Keys == {REF} {
      Seen(defs);
      var name := value.dict.entries[REF];
      ok := name.Plain? && name.value.Text? && name.value.text in definitions.entries;
      if ok {
        config.entries := config.entries[key := definitions.entries[name.value.text]];
        KeyDone(v, defs, done, key);
      }
    } else {
      label Before:
      ok := ResolveReferences(value.dict, definitions, kid, defs);
      if ok {
        forall k | k in v.kids && k != key
          ensures v.dict.entries[k] == ItemOf(Current(v, defs, done, k)) && Shows(Current(v, defs, done, k))
        {
          ghost var other := Current(v, defs, done, k);
          assert old@Before(Shows(other));
          assert old@Before(allocated(Dicts(other)));
        }
        KeyDone(v, defs, done, key);
      }
    }
  }

  // ----- merging the service's settings into the defaults

  /** The configuration `a` with the settings of `b` laid over it. */
  function Merge(a: View, b: View): View
    decreases b, 1
  {
    if a.Leaf? || b.Leaf? then a
    else Node(a.dict, map k | k in a.kids.Keys + b.kids.Keys :: MergedKid(a, b, k))
  }

  function MergedKid(a: View, b: View, k: string): View
    requires a.Node? && b.Node? && (k in a.kids || k in b.kids)
    decreases b, 0
  {
    if k !in b.kids then a.kids[k]
    else if k !in a.kids || b.kids[k].Leaf? then b.kids[k]
    else Merge(a.kids[k], b.kids[k])
  }

  /** No dictionary with settings meets a default that is not a dictionary. */
  predicate Mergeable(a: View, b: View)
    decreases b
  {
    b.Node? ==>
      if a.Leaf? then b.kids == map[] else forall k :: k in b.kids ==> KidMergeable(a, b, k)
  }

  predicate KidMergeable(a: View, b: View, k: string)
    requires a.Node? && b.Node? && k in b.kids
    decreases b, 0
  {
    k in a.kids && b.kids[k].Node? ==> Mergeable(a.kids[k], b.kids[k])
  }

  /** The dictionaries of `a` the merge writes into. */
  ghost function Overridden(a: View, b: View): set<Dict>
    decreases b
  {
    if a.Leaf? || b.Leaf? then {}
    else {a.dict} + (set k, d | k in a.kids && k in b.kids && d in Overridden(a.kids[k], b.kids[k]) :: d)
  }

  /** None of them is seen from a second place of `a`. */
  ghost predicate Apart(a: View, b: View)
    decreases b
  {
    a.Node? && b.Node? ==>
      && (forall k :: k in a.kids ==> a.dict !in Dicts(a.kids[k]))
      && (forall k :: k in a.kids && k in b.kids ==> Apart(a.kids[k], b.kids[k]))
      && forall j, k :: j in a.kids && k in a.kids && k in b.kids && j != k ==>
        Overridden(a.kids[k], b.kids[k]) !! Dicts(a.kids[j])
  }

  lemma {:induction false} MergedDicts(a: View, b: View)
    ensures Dicts(Merge(a, b)) <= Dicts(a) + Dicts(b)
    decreases b
  {
    if a.Node? && b.Node? {
      forall k | k in a.kids || k in b.kids
        ensures Dicts(MergedKid(a, b, k)) <= Dicts(a) + Dicts(b)
      {
        MergedKidDicts(a, b, k);
      }
    }
  }

  lemma {:induction false} MergedKidDicts(a: View, b: View, k: string)
    requires a.Node? && b.Node? && (k in a.kids || k in b.kids)
    ensures Dicts(MergedKid(a, b, k)) <= (if k in a.kids then Dicts(a.kids[k]) else {}) + Dicts(b)
    decreases b, 0
  {
    if k in a.kids && k in b.kids && b.kids[k].Node? {
      MergedDicts(a.kids[k], b.kids[k]);
    }
  }

  lemma {:induction false} OverriddenIsOwn(a: View, b: View)
    ensures Overridden(a, b) <= Dicts(a)
    decreases b
  {
    if a.Node? && b.Node? {
      forall k | k in a.kids && k in b.kids { OverriddenIsOwn(a.kids[k], b.kids[k]); }
    }
  }

  lemma AbsentStays(a: View, b: View, k: string)
    requires a.Node? && b.Node? && k in a.kids && k !in b.kids
    ensures MergedKid(a, b, k) == a.kids[k]
  {}

  /** The merge never replaces the value it is called on. */
  lemma MergedItem(a: View, b: View)
    ensures ItemOf(Merge(a, b)) == ItemOf(a)
    ensures a.Leaf? ==> Merge(a, b) == a
  {}
}
