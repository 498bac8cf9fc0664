/** Where a value is written, as paths: the exact condition for a key to be written twice, at any depth. */
module QueryPlaces {
  import opened Results
  import opened Numerals
  import opened Assignments
  import opened Dots
  import opened Shapes
  import XmlSerializer
  import opened QuerySerializer
  import opened QueryKeys

  // ----- The places of a value

  /** The paths of all scalars and empty lists of a value that is found at a path; a flattened list that takes the name of
      its member replaces the end of its path. */
  function Places(m: ShapeMap, p: Protocol, sh: Shape, v: Value, at: Path): seq<Path>
    requires Closed(m) && InMap(m, sh.kind) && (at != [] || sh.kind.Structure?)
    decreases v, 1
  {
    match sh.kind
    case Structure(members, _) => if v.Dict? then FieldsPlaces(m, p, members, v.entries, at) else []
    case List(ref) =>
      var member := Resolve(m, ref);
      if p.Query? && Empty(v) then [at]
      else if v.Items? then ItemsPlaces(m, p, member, v.items, ListPath(p, sh, member, at[..|at| - 1], at[|at| - 1]), 1)
      else []
    case Map(keyRef, valueRef) =>
      var key, value := Resolve(m, keyRef), Resolve(m, valueRef);
      var k, w := Word(p, key.traits, "key"), Word(p, value.traits, "value");
      if v.Dict? && k.Some? && w.Some? then
        EntriesPlaces(m, p, key, value, v.entries, MapPath(sh, at[..|at| - 1], at[|at| - 1]), 1, k.value, w.value)
      else []
    case Scalar(_) => [at]
  }

  function FieldsPlaces(m: ShapeMap, p: Protocol, members: seq<Member>, entries: seq<Entry>, at: Path): seq<Path>
    requires Closed(m) && InMap(m, Structure(members, []))
    decreases entries, 0
  {
    if entries == [] then []
    else
      assert (entries decreases to entries[0]);
      FieldPlaces(m, p, members, entries[0], at) + FieldsPlaces(m, p, members, entries[1..], at)
  }

  function FieldPlaces(m: ShapeMap, p: Protocol, members: seq<Member>, e: Entry, at: Path): seq<Path>
    requires Closed(m) && InMap(m, Structure(members, []))
    decreases e, 2
  {
    var found := if e.key.Str? then FindMember(members, e.key.s) else None;
    if found.None? then []
    else
      match Word(p, Resolve(m, found.value).traits, e.key.s)
      case None => []
      case Some(name) => Places(m, p, Resolve(m, found.value), e.value, at + [name])
  }

  function ItemsPlaces(m: ShapeMap, p: Protocol, member: Shape, items: seq<Value>, at: Path, i: nat): seq<Path>
    requires Closed(m) && InMap(m, member.kind)
    decreases items, 0
  {
    if items == [] then []
    else Places(m, p, member, items[0], at + [NatText(i)]) + ItemsPlaces(m, p, member, items[1..], at, i + 1)
  }

  function EntriesPlaces(m: ShapeMap, p: Protocol, key: Shape, value: Shape, entries: seq<Entry>, at: Path, i: nat, k: string,
                         w: string): seq<Path>
    requires Closed(m) && InMap(m, key.kind) && InMap(m, value.kind)
    decreases entries, 0
  {
    if entries == [] then []
    else
      assert (entries decreases to entries[0]);
      EntryPlaces(m, p, key, value, entries[0], at + [NatText(i)], k, w)
      + EntriesPlaces(m, p, key, value, entries[1..], at, i + 1, k, w)
  }

  function EntryPlaces(m: ShapeMap, p: Protocol, key: Shape, value: Shape, e: Entry, at: Path, k: string, w: string): seq<Path>
    requires Closed(m) && InMap(m, key.kind) && InMap(m, value.kind)
    decreases e, 2
  {
    Places(m, p, key, e.key, at + [k]) + Places(m, p, value, e.value, at + [w])
  }

  // ----- Names without dots

  /** Names in use are dot-free and not empty; nothing is asked of names that meet. */
  predicate GoodNames(m: ShapeMap, p: Protocol, kind: Kind)
    requires Closed(m) && InMap(m, kind)
  {
    match kind
    case Structure(members, _) => forall i :: 0 <= i < |members| ==> GoodUse(m, p, members[i].ref, members[i].name)
    case List(ref) => GoodHeads(m, p, Resolve(m, ref), NatText(1))
    case Map(key, value) => GoodUse(m, p, key, "key") && GoodUse(m, p, value, "value")
    case Scalar(_) => true
  }

  ghost predicate Named(m: ShapeMap, p: Protocol, names: set<string>, sh: Shape) {
    && Closed(m) && InMap(m, sh.kind) && GoodNames(m, p, sh.kind) && Reaches(sh.kind, names)
    && forall n :: n in names ==> n in m && GoodNames(m, p, m[n].kind) && Reaches(m[n].kind, names)
  }

  lemma NamedIs(m: ShapeMap, p: Protocol, names: set<string>, sh: Shape)
    requires Named(m, p, names, sh)
    ensures Closed(m) && InMap(m, sh.kind)
  {
    hide GoodNames;
  }

  lemma NamedRef(m: ShapeMap, p: Protocol, names: set<string>, sh: Shape, ref: Ref)
    requires Named(m, p, names, sh) && ref in Refs(sh.kind)
    ensures ref.shape in m && Named(m, p, names, Resolve(m, ref))
  {
    hide GoodNames;
  }

  lemma NumberHeads(m: ShapeMap, p: Protocol, sh: Shape, i: nat)
    requires InMap(m, sh.kind) && GoodHeads(m, p, sh, NatText(1))
    ensures GoodHeads(m, p, sh, NatText(i))
  {
    NumberIsGood(i);
    forall x | x in Heads(m, p, sh, NatText(i))
      ensures Good(x)
    {
      if x != NatText(i) { assert x in Heads(m, p, sh, NatText(1)); }
    }
  }

  // ----- The keys are the paths

  ghost predicate KeysAre(ws: seq<Write<Value>>, places: seq<Path>) {
    |ws| == |places| && forall i :: 0 <= i < |ws| ==> places[i] != [] && GoodPath(places[i]) && ws[i].key == JoinDots(places[i])
  }

  lemma KeysThen(first: Run, rest: Run, a: seq<Path>, b: seq<Path>)
    requires first.error.None? && KeysAre(first.writes, a) && KeysAre(rest.writes, b)
    ensures KeysAre(Then(first, rest).writes, a + b)
  {
    hide GoodPath, JoinDots;
  }

  lemma {:induction false} KeysAtPlaces(m: ShapeMap, c: XmlSerializer.Codec, p: Protocol, names: set<string>, sh: Shape, v: Value,
                                        q: Path, name: string)
    requires Named(m, p, names, sh) && GoodPath(q) && GoodHeads(m, p, sh, name)
    requires Ser(m, c, p, sh, v, JoinDots(q + [name])).error.None?
    ensures KeysAre(Ser(m, c, p, sh, v, JoinDots(q + [name])).writes, Places(m, p, sh, v, q + [name]))
    decreases v, 1
  {
    GoodHead(m, p, sh, name);
    var at := q + [name];
    assert at[..|at| - 1] == q && at[|at| - 1] == name && GoodPath(at);
    hide GoodHeads, GoodPath, ListPath, MapPath, TakenName, Renamed, KeysAre, Named, JoinDots;
    match sh.kind
    case Structure(members, required) =>
      if v.Dict? { FieldsAtPlaces(m, c, p, names, sh, v.entries, at); }
    case List(ref) => ListAtPlaces(m, c, p, names, sh, ref, v, q, name);
    case Map(keyRef, valueRef) => MapAtPlaces(m, c, p, names, sh, keyRef, valueRef, v, q, name);
    case Scalar(t) => OnePlace(Ser(m, c, p, sh, v, JoinDots(at)).writes, at);
  }

  lemma OnePlace(ws: seq<Write<Value>>, at: Path)
    requires |ws| == 1 && ws[0].key == JoinDots(at) && at != [] && GoodPath(at)
    ensures KeysAre(ws, [at])
  {
  }

  lemma NoPlace()
    ensures KeysAre([], [])
  {
  }

  lemma {:induction false} ListAtPlaces(m: ShapeMap, c: XmlSerializer.Codec, p: Protocol, names: set<string>, sh: Shape, ref: Ref,
                                        v: Value, q: Path, name: string)
    requires Named(m, p, names, sh) && sh.kind == List(ref) && GoodPath(q) && GoodHeads(m, p, sh, name) && GoodPath(q + [name])
    requires Ser(m, c, p, sh, v, JoinDots(q + [name])).error.None?
    ensures KeysAre(Ser(m, c, p, sh, v, JoinDots(q + [name])).writes, Places(m, p, sh, v, q + [name]))
    decreases v, 0
  {
    var at, member := q + [name], Resolve(m, ref);
    assert at[..|at| - 1] == q && at[|at| - 1] == name;
    if p.Query? && Empty(v) {
      OnePlace(Ser(m, c, p, sh, v, JoinDots(at)).writes, at);
    } else {
      ListPathIsPrefix(m, p, sh, ref, q, name);
      assert Refs(sh.kind)[0] == ref;
      NamedRef(m, p, names, sh, ref);
      hide GoodPath, ListPath, TakenName, Renamed, KeysAre, Named, JoinDots, ListPrefix;
      ItemsAtPlaces(m, c, p, names, member, v.items, ListPath(p, sh, member, q, name), 1);
    }
  }

  lemma {:induction false} ItemsAtPlaces(m: ShapeMap, c: XmlSerializer.Codec, p: Protocol, names: set<string>, member: Shape,
                                         items: seq<Value>, at: Path, i: nat)
    requires Named(m, p, names, member) && GoodHeads(m, p, member, NatText(1)) && GoodPath(at) && at != []
    requires SerItems(m, c, p, member, items, JoinDots(at), i).error.None?
    ensures KeysAre(SerItems(m, c, p, member, items, JoinDots(at), i).writes, ItemsPlaces(m, p, member, items, at, i))
    decreases items, 0
  {
    hide GoodHeads, GoodPath, KeysAre, Named;
    NamedIs(m, p, names, member);
    if items == [] {
      NoPlace();
    } else {
      NumberHeads(m, p, member, i);
      JoinSnoc(at, NatText(i));
      hide JoinDots;
      KeysAtPlaces(m, c, p, names, member, items[0], at, NatText(i));
      ItemsAtPlaces(m, c, p, names, member, items[1..], at, i + 1);
      KeysThen(Ser(m, c, p, member, items[0], JoinDots(at + [NatText(i)])), SerItems(m, c, p, member, items[1..], JoinDots(at), i + 1),
               Places(m, p, member, items[0], at + [NatText(i)]), ItemsPlaces(m, p, member, items[1..], at, i + 1));
    }
  }

  lemma {:induction false} MapAtPlaces(m: ShapeMap, c: XmlSerializer.Codec, p: Protocol, names: set<string>, sh: Shape, keyRef: Ref,
                                       valueRef: Ref, v: Value, q: Path, name: string)
    requires Named(m, p, names, sh) && sh.kind == Map(keyRef, valueRef) && GoodPath(q) && Good(name)
    requires Ser(m, c, p, sh, v, JoinDots(q + [name])).error.None?
    ensures KeysAre(Ser(m, c, p, sh, v, JoinDots(q + [name])).writes, Places(m, p, sh, v, q + [name]))
    decreases v, 0
  {
    var at, key, value := q + [name], Resolve(m, keyRef), Resolve(m, valueRef);
    assert at[..|at| - 1] == q && at[|at| - 1] == name;
    var k, w := Word(p, key.traits, "key"), Word(p, value.traits, "value");
    MapRun(m, c, p, sh, v, JoinDots(at));
    hide Ser, Word, NameOf;
    MapPathIsPrefix(sh, q, name);
    assert Refs(sh.kind)[0] == keyRef && Refs(sh.kind)[1] == valueRef;
    assert GoodUse(m, p, keyRef, "key") && GoodUse(m, p, valueRef, "value");
    NamedRef(m, p, names, sh, keyRef);
    NamedRef(m, p, names, sh, valueRef);
    hide GoodPath, MapPath, MapPrefix, KeysAre, Named, JoinDots, GoodHeads;
    EntriesAtPlaces(m, c, p, names, key, value, v.entries, MapPath(sh, q, name), 1, k.value, w.value);
  }

  lemma {:induction false} EntriesAtPlaces(m: ShapeMap, c: XmlSerializer.Codec, p: Protocol, names: set<string>, key: Shape,
                                           value: Shape, entries: seq<Entry>, at: Path, i: nat, k: string, w: string)
    requires Named(m, p, names, key) && Named(m, p, names, value) && GoodPath(at) && at != []
    requires GoodHeads(m, p, key, k) && GoodHeads(m, p, value, w)
    requires SerEntries(m, c, p, key, value, entries, JoinDots(at), i, k, w).error.None?
    ensures KeysAre(SerEntries(m, c, p, key, value, entries, JoinDots(at), i, k, w).writes,
                    EntriesPlaces(m, p, key, value, entries, at, i, k, w))
    decreases entries, 0
  {
    hide GoodHeads, KeysAre, Named, SerEntry, EntryPlaces;
    NamedIs(m, p, names, key);
    NamedIs(m, p, names, value);
    if entries == [] {
      NoPlace();
    } else {
      assert (entries decreases to entries[0]);
      NumberIsGood(i);
      JoinSnoc(at, NatText(i));
      hide JoinDots, GoodPath;
      EntryAtPlaces(m, c, p, names, key, value, entries[0], at, i, k, w);
      EntriesAtPlaces(m, c, p, names, key, value, entries[1..], at, i + 1, k, w);
      KeysThen(SerEntry(m, c, p, key, value, entries[0], JoinDots(at + [NatText(i)]), k, w),
               SerEntries(m, c, p, key, value, entries[1..], JoinDots(at), i + 1, k, w),
               EntryPlaces(m, p, key, value, entries[0], at + [NatText(i)], k, w),
               EntriesPlaces(m, p, key, value, entries[1..], at, i + 1, k, w));
    }
  }

  lemma {:induction false} EntryAtPlaces(m: ShapeMap, c: XmlSerializer.Codec, p: Protocol, names: set<string>, key: Shape,
                                         value: Shape, e: Entry, at: Path, i: nat, k: string, w: string)
    requires Named(m, p, names, key) && Named(m, p, names, value) && GoodPath(at)
    requires GoodHeads(m, p, key, k) && GoodHeads(m, p, value, w)
    requires SerEntry(m, c, p, key, value, e, JoinDots(at + [NatText(i)]), k, w).error.None?
    ensures KeysAre(SerEntry(m, c, p, key, value, e, JoinDots(at + [NatText(i)]), k, w).writes,
                    EntryPlaces(m, p, key, value, e, at + [NatText(i)], k, w))
    decreases e, 2
  {
    var q := at + [NatText(i)];
    NumberIsGood(i);
    JoinSnoc(q, k);
    JoinSnoc(q, w);
    hide GoodHeads, KeysAre, Named, JoinDots;
    NamedIs(m, p, names, key);
    NamedIs(m, p, names, value);
    KeysAtPlaces(m, c, p, names, key, e.key, q, k);
    KeysAtPlaces(m, c, p, names, value, e.value, q, w);
    KeysThen(Ser(m, c, p, key, e.key, JoinDots(q + [k])), Ser(m, c, p, value, e.value, JoinDots(q + [w])),
             Places(m, p, key, e.key, q + [k]), Places(m, p, value, e.value, q + [w]));
  }

  lemma {:induction false} FieldsAtPlaces(m: ShapeMap, c: XmlSerializer.Codec, p: Protocol, names: set<string>, sh: Shape,
                                          entries: seq<Entry>, at: Path)
    requires Named(m, p, names, sh) && sh.kind.Structure? && GoodPath(at)
    requires SerFields(m, c, p, sh.kind.members, entries, JoinDots(at)).error.None?
    ensures KeysAre(SerFields(m, c, p, sh.kind.members, entries, JoinDots(at)).writes,
                    FieldsPlaces(m, p, sh.kind.members, entries, at))
    decreases entries, 0
  {
    hide KeysAre, Named, JoinDots, GoodPath, SerField, FieldPlaces;
    NamedIs(m, p, names, sh);
    if entries == [] {
      NoPlace();
    } else {
      assert (entries decreases to entries[0]);
      FieldAtPlaces(m, c, p, names, sh, entries[0], at);
      FieldsAtPlaces(m, c, p, names, sh, entries[1..], at);
      KeysThen(SerField(m, c, p, sh.kind.members, entries[0], JoinDots(at)),
               SerFields(m, c, p, sh.kind.members, entries[1..], JoinDots(at)),
               FieldPlaces(m, p, sh.kind.members, entries[0], at), FieldsPlaces(m, p, sh.kind.members, entries[1..], at));
    }
  }

  lemma {:induction false} FieldAtPlaces(m: ShapeMap, c: XmlSerializer.Codec, p: Protocol, names: set<string>, sh: Shape, e: Entry,
                                         at: Path)
    requires Named(m, p, names, sh) && sh.kind.Structure? && GoodPath(at)
    requires SerField(m, c, p, sh.kind.members, e, JoinDots(at)).error.None?
    ensures KeysAre(SerField(m, c, p, sh.kind.members, e, JoinDots(at)).writes, FieldPlaces(m, p, sh.kind.members, e, at))
    decreases e, 2
  {
    hide *;
    NamedIs(m, p, names, sh);
    FieldRuns(m, c, p, sh, e, at);
    var found := FindMember(sh.kind.members, e.key.s).value;
    var name := Word(p, Resolve(m, found).traits, e.key.s).value;
    UseOfField(m, p, names, sh, e.key.s);
    MemberKey(at, name);
    KeysAtPlaces(m, c, p, names, Resolve(m, found), e.value, at, name);
  }

  /** The member that an entry fills, when it is written. */
  lemma FieldRuns(m: ShapeMap, c: XmlSerializer.Codec, p: Protocol, sh: Shape, e: Entry, at: Path)
    requires Closed(m) && InMap(m, sh.kind) && sh.kind.Structure?
    requires SerField(m, c, p, sh.kind.members, e, JoinDots(at)).error.None?
    ensures InMap(m, Structure(sh.kind.members, []))
    ensures e.key.Str? && FindMember(sh.kind.members, e.key.s).Some?
    ensures FindMember(sh.kind.members, e.key.s).value.shape in m
    ensures
      var member := Resolve(m, FindMember(sh.kind.members, e.key.s).value);
      && Word(p, member.traits, e.key.s).Some?
      && var name := Word(p, member.traits, e.key.s).value;
      && SerField(m, c, p, sh.kind.members, e, JoinDots(at)) == Ser(m, c, p, member, e.value, MemberPrefix(JoinDots(at), name))
      && FieldPlaces(m, p, sh.kind.members, e, at) == Places(m, p, member, e.value, at + [name])
  {
    hide Ser, Word, NameOf, MemberPrefix, JoinDots, Places;
    if e.key.Str? && FindMember(sh.kind.members, e.key.s).Some? {
      FieldRun(m, c, p, sh.kind.members, e, JoinDots(at));
      hide SerField;
    }
  }

  lemma UseOfField(m: ShapeMap, p: Protocol, names: set<string>, sh: Shape, key: string)
    requires Named(m, p, names, sh) && sh.kind.Structure? && FindMember(sh.kind.members, key).Some?
    ensures
      var member := Resolve(m, FindMember(sh.kind.members, key).value);
      && Named(m, p, names, member)
      && (Word(p, member.traits, key).Some? ==> GoodHeads(m, p, member, Word(p, member.traits, key).value))
  {
    hide GoodHeads, Word;
    var members := sh.kind.members;
    var found := FindMember(members, key).value;
    var i :| 0 <= i < |members| && members[i] == Member(key, found);
    assert GoodUse(m, p, members[i].ref, members[i].name);
    assert Refs(sh.kind)[i] == found;
    NamedRef(m, p, names, sh, found);
  }

  // ----- When a key is written twice

  ghost predicate Single(places: seq<Path>) {
    forall i, k :: 0 <= i < k < |places| ==> places[i] != places[k]
  }

  lemma OneKeyOnePath(a: Path, b: Path)
    requires GoodPath(a) && GoodPath(b) && a != [] && b != []
    ensures JoinDots(a) == JoinDots(b) <==> a == b
  {
    KeyOfPath(a);
    KeyOfPath(b);
  }

  lemma DistinctIffSingle(ws: seq<Write<Value>>, places: seq<Path>)
    requires KeysAre(ws, places)
    ensures Distinct(ws) <==> Single(places)
  {
    forall i, k | 0 <= i < k < |ws|
      ensures ws[i].key == ws[k].key <==> places[i] == places[k]
    {
      OneKeyOnePath(places[i], places[k]);
    }
    hide JoinDots, GoodPath;
  }

  /** A structure of any depth, with any dot-free names, writes no key twice exactly when no two of the places that its
      members come to, followed down by name and number, are one. */
  lemma PlacesDistinctIff(m: ShapeMap, c: XmlSerializer.Codec, p: Protocol, names: set<string>, sh: Shape, entries: seq<Entry>, q: Path)
    requires Named(m, p, names, sh) && sh.kind.Structure? && GoodPath(q)
    requires SerFields(m, c, p, sh.kind.members, entries, JoinDots(q)).error.None?
    ensures Distinct(SerFields(m, c, p, sh.kind.members, entries, JoinDots(q)).writes) <==>
            Single(FieldsPlaces(m, p, sh.kind.members, entries, q))
  {
    FieldsAtPlaces(m, c, p, names, sh, entries, q);
    hide KeysAre, Named, JoinDots, GoodPath, FieldsPlaces, SerFields;
    NamedIs(m, p, names, sh);
    DistinctIffSingle(SerFields(m, c, p, sh.kind.members, entries, JoinDots(q)).writes, FieldsPlaces(m, p, sh.kind.members, entries, q));
  }

  lemma ApartIffDisjoint(a: seq<Write<Value>>, b: seq<Write<Value>>, x: seq<Path>, y: seq<Path>)
    requires KeysAre(a, x) && KeysAre(b, y)
    ensures Apart(a, b) <==> forall place :: place in x ==> place !in y
  {
    forall i, k | 0 <= i < |a| && 0 <= k < |b|
      ensures a[i].key == b[k].key <==> x[i] == y[k]
      ensures x[i] in x && y[k] in y
    {
      OneKeyOnePath(x[i], y[k]);
    }
    hide JoinDots, GoodPath;
    if place :| place in x && place in y {
      var i :| 0 <= i < |x| && x[i] == place;
      var k :| 0 <= k < |y| && y[k] == place;
      assert a[i].key == b[k].key;
    }
  }

  /** Two members of a structure share a key exactly when they come to a common place. */
  lemma MembersMeetIff(m: ShapeMap, c: XmlSerializer.Codec, p: Protocol, names: set<string>, sh: Shape, e: Entry, f: Entry, q: Path)
    requires Named(m, p, names, sh) && sh.kind.Structure? && GoodPath(q)
    requires SerField(m, c, p, sh.kind.members, e, JoinDots(q)).error.None?
    requires SerField(m, c, p, sh.kind.members, f, JoinDots(q)).error.None?
    ensures Apart(SerField(m, c, p, sh.kind.members, e, JoinDots(q)).writes, SerField(m, c, p, sh.kind.members, f, JoinDots(q)).writes) <==>
            forall place :: place in FieldPlaces(m, p, sh.kind.members, e, q) ==> place !in FieldPlaces(m, p, sh.kind.members, f, q)
  {
    FieldAtPlaces(m, c, p, names, sh, e, q);
    FieldAtPlaces(m, c, p, names, sh, f, q);
    hide *;
    NamedIs(m, p, names, sh);
    ApartIffDisjoint(SerField(m, c, p, sh.kind.members, e, JoinDots(q)).writes, SerField(m, c, p, sh.kind.members, f, JoinDots(q)).writes,
                     FieldPlaces(m, p, sh.kind.members, e, q), FieldPlaces(m, p, sh.kind.members, f, q));
  }
}
