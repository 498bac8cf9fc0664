/** The request dictionary as the query serializers fill it, and what of the input it holds. */
module QueryRequest {
  import opened Results
  import opened Numerals
  import opened Assignments
  import opened Dots
  import opened Shapes
  import XmlSerializer
  import opened QuerySerializer
  import opened QueryKeys
  import QueryPlaces

  // ----- The leaves of a value

  /** The scalars of a value in order, and the empty lists that the query protocol records. */
  function Leaves(m: ShapeMap, c: XmlSerializer.Codec, p: Protocol, sh: Shape, v: Value): seq<Value>
    requires Closed(m) && InMap(m, sh.kind)
    decreases v, 1
  {
    match sh.kind
    case Structure(members, _) => if v.Dict? then FieldLeaves(m, c, p, members, v.entries) else []
    case List(ref) =>
      if v.Items? && v.items != [] then ItemLeaves(m, c, p, Resolve(m, ref), v.items)
      else if p.Query? then [Str("")]
      else []
    case Map(key, value) => if v.Dict? then EntryLeaves(m, c, p, Resolve(m, key), Resolve(m, value), v.entries) else []
    case Scalar(t) => ScalarLeaf(c, t, v)
  }

  /** What is recorded of a scalar, if it can be: true or false, base64 or a timestamp's text, or the value as it is. */
  function ScalarLeaf(c: XmlSerializer.Codec, t: ScalarType, v: Value): seq<Value> {
    match t
    case BooleanT => [Str(if Empty(v) then "false" else "true")]
    case BlobT =>
      (match v
       case Blob(bytes) => [Str(c.base64(bytes))]
       case Str(s) => [Str(c.base64(c.utf8(s)))]
       case _ => [])
    case TimestampT =>
      (match c.asTime(v)
       case Some(instant) => [Str(c.timeText(instant))]
       case None => [])
    case _ => [v]
  }

  function FieldLeaves(m: ShapeMap, c: XmlSerializer.Codec, p: Protocol, members: seq<Member>, entries: seq<Entry>): seq<Value>
    requires Closed(m) && InMap(m, Structure(members, []))
    decreases entries, 0
  {
    if entries == [] then []
    else
      var e := entries[0];
      assert (entries decreases to e);
      var found := if e.key.Str? then FindMember(members, e.key.s) else None;
      (if found.Some? then Leaves(m, c, p, Resolve(m, found.value), e.value) else [])
      + FieldLeaves(m, c, p, members, entries[1..])
  }

  function ItemLeaves(m: ShapeMap, c: XmlSerializer.Codec, p: Protocol, member: Shape, items: seq<Value>): seq<Value>
    requires Closed(m) && InMap(m, member.kind)
    decreases items, 0
  {
    if items == [] then [] else Leaves(m, c, p, member, items[0]) + ItemLeaves(m, c, p, member, items[1..])
  }

  function EntryLeaves(m: ShapeMap, c: XmlSerializer.Codec, p: Protocol, key: Shape, value: Shape, entries: seq<Entry>): seq<Value>
    requires Closed(m) && InMap(m, key.kind) && InMap(m, value.kind)
    decreases entries, 0
  {
    if entries == [] then []
    else
      assert (entries decreases to entries[0]);
      Leaves(m, c, p, key, entries[0].key) + Leaves(m, c, p, value, entries[0].value)
      + EntryLeaves(m, c, p, key, value, entries[1..])
  }

  function Values(ws: seq<Write<Value>>): seq<Value> {
    seq(|ws|, i requires 0 <= i < |ws| => ws[i].value)
  }

  /** A run that ended well wrote these values. */
  predicate Wrote(r: Run, leaves: seq<Value>) {
    r.error.None? ==> Values(r.writes) == leaves
  }

  lemma WroteBoth(first: Run, rest: Run, a: seq<Value>, b: seq<Value>)
    requires Wrote(first, a) && Wrote(rest, b)
    ensures Wrote(Then(first, rest), a + b)
  {
  }

  lemma {:induction false} LeavesWritten(m: ShapeMap, c: XmlSerializer.Codec, p: Protocol, sh: Shape, v: Value, prefix: string)
    requires Closed(m) && InMap(m, sh.kind)
    ensures Wrote(Ser(m, c, p, sh, v, prefix), Leaves(m, c, p, sh, v))
    decreases v, 1
  {
    match sh.kind
    case Structure(members, _) => if v.Dict? { FieldsWritten(m, c, p, members, v.entries, prefix); }
    case List(ref) =>
      hide ListPrefix;
      if v.Items? && v.items != [] {
        var member := Resolve(m, ref);
        ItemsWritten(m, c, p, member, v.items, ListPrefix(p, sh, member, prefix), 1);
      }
    case Map(key, value) =>
      MapRun(m, c, p, sh, v, prefix);
      hide Ser, Word, MapPrefix;
      var k, w := Word(p, Resolve(m, key).traits, "key"), Word(p, Resolve(m, value).traits, "value");
      if v.Dict? && k.Some? && w.Some? {
        EntriesWritten(m, c, p, Resolve(m, key), Resolve(m, value), v.entries, MapPrefix(sh, prefix), 1, k.value, w.value);
      }
    case Scalar(t) => ScalarWritten(m, c, p, sh, t, v, prefix);
  }

  lemma ScalarWritten(m: ShapeMap, c: XmlSerializer.Codec, p: Protocol, sh: Shape, t: ScalarType, v: Value, prefix: string)
    requires Closed(m) && sh.kind == Scalar(t)
    ensures Wrote(Ser(m, c, p, sh, v, prefix), ScalarLeaf(c, t, v))
  {
    EmptyIsFalse(v);
    hide Empty, XmlSerializer.Truthy;
  }

  lemma {:induction false} FieldsWritten(m: ShapeMap, c: XmlSerializer.Codec, p: Protocol, members: seq<Member>,
                                         entries: seq<Entry>, prefix: string)
    requires Closed(m) && InMap(m, Structure(members, []))
    ensures Wrote(SerFields(m, c, p, members, entries, prefix), FieldLeaves(m, c, p, members, entries))
    decreases entries, 0
  {
    if entries != [] {
      var e := entries[0];
      assert (entries decreases to e);
      FieldsWritten(m, c, p, members, entries[1..], prefix);
      var first := SerField(m, c, p, members, e, prefix);
      var rest := SerFields(m, c, p, members, entries[1..], prefix);
      if first.error.None? {
        var ref := FindMember(members, e.key.s).value;
        var member := Resolve(m, ref);
        LeavesWritten(m, c, p, member, e.value, MemberPrefix(prefix, NameOf(p, member.traits, e.key.s).value));
        WroteBoth(first, rest, Leaves(m, c, p, member, e.value), FieldLeaves(m, c, p, members, entries[1..]));
      }
    }
  }

  lemma {:induction false} ItemsWritten(m: ShapeMap, c: XmlSerializer.Codec, p: Protocol, member: Shape, items: seq<Value>,
                                        prefix: string, i: nat)
    requires Closed(m) && InMap(m, member.kind)
    ensures Wrote(SerItems(m, c, p, member, items, prefix, i), ItemLeaves(m, c, p, member, items))
    decreases items, 0
  {
    if items != [] {
      LeavesWritten(m, c, p, member, items[0], prefix + "." + NatText(i));
      ItemsWritten(m, c, p, member, items[1..], prefix, i + 1);
      hide Ser, Leaves;
      WroteBoth(Ser(m, c, p, member, items[0], prefix + "." + NatText(i)), SerItems(m, c, p, member, items[1..], prefix, i + 1),
                Leaves(m, c, p, member, items[0]), ItemLeaves(m, c, p, member, items[1..]));
    }
  }

  lemma {:induction false} EntriesWritten(m: ShapeMap, c: XmlSerializer.Codec, p: Protocol, key: Shape, value: Shape,
                                          entries: seq<Entry>, prefix: string, i: nat, k: string, w: string)
    requires Closed(m) && InMap(m, key.kind) && InMap(m, value.kind)
    ensures Wrote(SerEntries(m, c, p, key, value, entries, prefix, i, k, w), EntryLeaves(m, c, p, key, value, entries))
    decreases entries, 0
  {
    if entries != [] {
      var e, at := entries[0], prefix + "." + NatText(i);
      assert (entries decreases to e);
      LeavesWritten(m, c, p, key, e.key, at + "." + k);
      LeavesWritten(m, c, p, value, e.value, at + "." + w);
      EntriesWritten(m, c, p, key, value, entries[1..], prefix, i + 1, k, w);
      hide Ser, Leaves;
      var keyLeaves, valueLeaves := Leaves(m, c, p, key, e.key), Leaves(m, c, p, value, e.value);
      WroteBoth(Ser(m, c, p, key, e.key, at + "." + k), Ser(m, c, p, value, e.value, at + "." + w), keyLeaves, valueLeaves);
      WroteBoth(SerEntry(m, c, p, key, value, e, at, k, w), SerEntries(m, c, p, key, value, entries[1..], prefix, i + 1, k, w),
                keyLeaves + valueLeaves, EntryLeaves(m, c, p, key, value, entries[1..]));
    }
  }

  /** The dictionary of a request holds one entry for Action, one for Version and one for every leaf of the input. */
  lemma EveryLeafSurvives(m: ShapeMap, c: XmlSerializer.Codec, p: Protocol, names: set<string>, operation: string,
                          version: string, sh: Shape, params: Value)
    requires Sound(m, p, names, sh) && sh.kind.Structure? && LeavesHeader(m, p, sh.kind.members) && Proper(params)
    ensures
      var r := Request(m, c, p, operation, version, Some(sh), params);
      var dict := Stored(map[], r.writes);
      r.error.None? ==>
        var leaves := [Str(operation), Str(version)] + Leaves(m, c, p, sh, params);
        && |dict| == |leaves| == |r.writes|
        && forall i :: 0 <= i < |leaves| ==> r.writes[i].key in dict && dict[r.writes[i].key] == leaves[i]
  {
    var r := Request(m, c, p, operation, version, Some(sh), params);
    NoKeyTwice(m, c, p, names, operation, version, sh, params);
    AllSurviveIffDistinct(r.writes);
    LeavesWritten(m, c, p, sh, params, "");
    var header := Run([Write("Action", Str(operation)), Write("Version", Str(version))], None);
    WroteBoth(header, Ser(m, c, p, sh, params, ""), [Str(operation), Str(version)], Leaves(m, c, p, sh, params));
    hide Ser, Leaves, Stored;
    assert r.error.None? ==> forall i :: 0 <= i < |r.writes| ==> Values(r.writes)[i] == r.writes[i].value;
  }

  /** A request that goes through assigns Action, Version, and then every leaf of the input under the words that lead to it. */
  lemma RequestIs(m: ShapeMap, c: XmlSerializer.Codec, p: Protocol, names: set<string>, operation: string, version: string,
                  sh: Shape, members: seq<Member>, params: Value)
    requires QueryPlaces.Named(m, p, names, sh) && sh.kind.Structure? && sh.kind.members == members
    requires Request(m, c, p, operation, version, Some(sh), params).error.None?
    ensures params.Dict?
    ensures
      var ws := Request(m, c, p, operation, version, Some(sh), params).writes;
      var places := QueryPlaces.FieldsPlaces(m, p, members, params.entries, []);
      var leaves := FieldLeaves(m, c, p, members, params.entries);
      && |places| == |leaves| && |ws| == 2 + |leaves|
      && ws[0] == Write("Action", Str(operation)) && ws[1] == Write("Version", Str(version))
      && forall i :: 0 <= i < |leaves| ==> ws[2 + i] == Write(JoinDots(places[i]), leaves[i])
  {
    hide *;
    QueryPlaces.NamedIs(m, p, names, sh);
    RequestRun(m, c, p, operation, version, sh, params);
    RootPath();
    var r := Ser(m, c, p, sh, params, "");
    QueryPlaces.FieldsAtPlaces(m, c, p, names, sh, params.entries, []);
    FieldsWritten(m, c, p, members, params.entries, "");
    Paired([Write("Action", Str(operation)), Write("Version", Str(version))], r,
           QueryPlaces.FieldsPlaces(m, p, members, params.entries, []), FieldLeaves(m, c, p, members, params.entries));
  }

  lemma RootPath()
    ensures GoodPath([]) && JoinDots([]) == ""
  {
  }

  lemma Paired(header: seq<Write<Value>>, r: Run, places: seq<Path>, leaves: seq<Value>)
    requires |header| == 2 && r.error.None? && QueryPlaces.KeysAre(r.writes, places) && Wrote(r, leaves)
    ensures |places| == |leaves| == |r.writes|
    ensures (header + r.writes)[0] == header[0] && (header + r.writes)[1] == header[1]
    ensures forall i :: 0 <= i < |leaves| ==> (header + r.writes)[2 + i] == Write(JoinDots(places[i]), leaves[i])
  {
    hide JoinDots, GoodPath;
    forall i | 0 <= i < |leaves|
      ensures (header + r.writes)[2 + i] == Write(JoinDots(places[i]), leaves[i])
    {
      assert (header + r.writes)[2 + i] == r.writes[i] && Values(r.writes)[i] == r.writes[i].value;
    }
  }

  lemma RequestRun(m: ShapeMap, c: XmlSerializer.Codec, p: Protocol, operation: string, version: string, sh: Shape, params: Value)
    requires Closed(m) && InMap(m, sh.kind) && sh.kind.Structure?
    ensures InMap(m, Structure(sh.kind.members, []))
    ensures
      var r := Ser(m, c, p, sh, params, "");
      r.error.None? ==> params.Dict?
    ensures
      var r := Ser(m, c, p, sh, params, "");
      && r == (if params.Dict? then SerFields(m, c, p, sh.kind.members, params.entries, "") else Fail(XmlSerializer.AttributeError))
      && Request(m, c, p, operation, version, Some(sh), params) ==
         Run([Write("Action", Str(operation)), Write("Version", Str(version))] + r.writes, r.error)
  {
    hide SerFields;
  }
}
