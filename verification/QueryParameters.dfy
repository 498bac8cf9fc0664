/** The query serializers as they run: methods that assign into a dictionary they are handed. */
module QueryParameters {
  import opened Results
  import opened Numerals
  import opened Assignments
  import opened Dots
  import opened Shapes
  import opened XmlSerializer
  import opened Q = QuerySerializer
  import opened QueryRequest
  import QueryKeys

  /** body_params. */
  class Params {
    var dict: map<string, Value>

    constructor ()
      ensures dict == map[]
    {
      dict := map[];
    }

    method Assign(key: string, value: Value)
      modifies this
      ensures dict == Stored(old(dict), [Write(key, value)])
    {
      dict := dict[key := value];
      StoredOne(old(dict), Write(key, value));
    }
  }

  /** The dictionary after a run, from what it was before. */
  predicate Did(before: map<string, Value>, after: map<string, Value>, error: Option<SerError>, r: Run) {
    error == r.error && after == Stored(before, r.writes)
  }

  /** What has been done so far leaves `rest` of the whole. */
  ghost predicate Leaving(before: map<string, Value>, now: map<string, Value>, rest: Run, whole: Run) {
    exists done: seq<Write<Value>> :: now == Stored(before, done) && whole == Then(Run(done, None), rest)
  }

  lemma LeavingAll(before: map<string, Value>, whole: Run)
    ensures Leaving(before, before, whole, whole)
  {
    assert before == Stored(before, []) && whole == Then(Run([], None), whole);
  }

  lemma OneStep(before: map<string, Value>, now: map<string, Value>, next: map<string, Value>, error: Option<SerError>,
                first: Run, rest: Run, whole: Run)
    requires Leaving(before, now, Then(first, rest), whole) && Did(now, next, error, first)
    ensures if error.None? then Leaving(before, next, rest, whole) else Did(before, next, error, whole)
  {
    var done: seq<Write<Value>> :| now == Stored(before, done) && whole == Then(Run(done, None), Then(first, rest));
    StoredBoth(before, done, first.writes);
    hide Stored;
    if error.None? {
      assert done + (first.writes + rest.writes) == (done + first.writes) + rest.writes;
      assert whole == Then(Run(done + first.writes, None), rest);
    }
  }

  lemma LeavingNothing(before: map<string, Value>, now: map<string, Value>, whole: Run)
    requires Leaving(before, now, Run([], None), whole)
    ensures Did(before, now, None, whole)
  {
    var done: seq<Write<Value>> :| now == Stored(before, done) && whole == Then(Run(done, None), Run([], None));
    assert done + [] == done;
  }

  lemma FieldsStep(m: ShapeMap, c: Codec, p: Protocol, members: seq<Member>, entries: seq<Entry>, i: nat, prefix: string)
    requires Closed(m) && InMap(m, Structure(members, [])) && i <= |entries|
    ensures Q.SerFields(m, c, p, members, entries[|entries|..], prefix) == Run([], None)
    ensures i < |entries| ==>
      Q.SerFields(m, c, p, members, entries[i..], prefix) ==
      Then(SerField(m, c, p, members, entries[i], prefix), Q.SerFields(m, c, p, members, entries[i + 1..], prefix))
  {
    hide SerField;
    assert i < |entries| ==> entries[i..][0] == entries[i] && entries[i..][1..] == entries[i + 1..];
  }

  lemma ItemsStep(m: ShapeMap, c: Codec, p: Protocol, member: Shape, items: seq<Value>, i: nat, prefix: string)
    requires Closed(m) && InMap(m, member.kind) && i <= |items|
    ensures Q.SerItems(m, c, p, member, items[|items|..], prefix, |items| + 1) == Run([], None)
    ensures i < |items| ==>
      Q.SerItems(m, c, p, member, items[i..], prefix, i + 1) ==
      Then(Q.Ser(m, c, p, member, items[i], prefix + "." + NatText(i + 1)),
           Q.SerItems(m, c, p, member, items[i + 1..], prefix, i + 2))
  {
    hide Q.Ser, NatText;
    assert i < |items| ==> items[i..][0] == items[i] && items[i..][1..] == items[i + 1..];
  }

  lemma EntriesStep(m: ShapeMap, c: Codec, p: Protocol, key: Shape, value: Shape, entries: seq<Entry>, i: nat, prefix: string,
                    k: string, w: string)
    requires Closed(m) && InMap(m, key.kind) && InMap(m, value.kind) && i <= |entries|
    ensures Q.SerEntries(m, c, p, key, value, entries[|entries|..], prefix, |entries| + 1, k, w) == Run([], None)
    ensures i < |entries| ==>
      Q.SerEntries(m, c, p, key, value, entries[i..], prefix, i + 1, k, w) ==
      Then(SerEntry(m, c, p, key, value, entries[i], prefix + "." + NatText(i + 1), k, w),
           Q.SerEntries(m, c, p, key, value, entries[i + 1..], prefix, i + 2, k, w))
  {
    hide SerEntry, NatText;
    assert i < |entries| ==> entries[i..][0] == entries[i] && entries[i..][1..] == entries[i + 1..];
  }

  method Serialize(m: ShapeMap, c: Codec, p: Protocol, sh: Shape, v: Value, prefix: string, serialized: Params)
    returns (error: Option<SerError>)
    requires Closed(m) && InMap(m, sh.kind)
    modifies serialized
    ensures Did(old(serialized.dict), serialized.dict, error, Q.Ser(m, c, p, sh, v, prefix))
    decreases v, 1
  {
    match sh.kind
    case Structure(_, _) => error := SerializeStructure(m, c, p, sh, v, prefix, serialized);
    case List(_) => error := SerializeList(m, c, p, sh, v, prefix, serialized);
    case Map(_, _) => error := SerializeMap(m, c, p, sh, v, prefix, serialized);
    case Scalar(t) =>
      var leaf := Leaf(c, t, v);
      if leaf.Err? { return Some(leaf.error); }
      serialized.Assign(prefix, leaf.value);
      error := None;
  }

  method SerializeStructure(m: ShapeMap, c: Codec, p: Protocol, sh: Shape, v: Value, prefix: string, serialized: Params)
    returns (error: Option<SerError>)
    requires Closed(m) && InMap(m, sh.kind) && sh.kind.Structure?
    modifies serialized
    ensures Did(old(serialized.dict), serialized.dict, error, Q.Ser(m, c, p, sh, v, prefix))
    decreases v, 0
  {
    if !v.Dict? { return Some(AttributeError); }
    var members, entries := sh.kind.members, v.entries;
    ghost var before, whole := serialized.dict, Q.Ser(m, c, p, sh, v, prefix);
    LeavingAll(before, whole);
    assert entries[0..] == entries;
    hide Did, Leaving, Q.Ser, Q.SerFields, SerField, Then;
    var i := 0;
    while i < |entries|
      invariant 0 <= i <= |entries|
      invariant Leaving(before, serialized.dict, Q.SerFields(m, c, p, members, entries[i..], prefix), whole)
    {
      assert (v decreases to entries[i]);
      ghost var now := serialized.dict;
      FieldsStep(m, c, p, members, entries, i, prefix);
      error := SerializeField(m, c, p, members, entries[i], prefix, serialized);
      OneStep(before, now, serialized.dict, error, SerField(m, c, p, members, entries[i], prefix),
              Q.SerFields(m, c, p, members, entries[i + 1..], prefix), whole);
      if error.Some? { return; }
      i := i + 1;
    }
    FieldsStep(m, c, p, members, entries, i, prefix);
    LeavingNothing(before, serialized.dict, whole);
    error := None;
  }

  /** One turn of the loop over a structure's members. */
  method SerializeField(m: ShapeMap, c: Codec, p: Protocol, members: seq<Member>, e: Entry, prefix: string, serialized: Params)
    returns (error: Option<SerError>)
    requires Closed(m) && InMap(m, Structure(members, []))
    modifies serialized
    ensures Did(old(serialized.dict), serialized.dict, error, SerField(m, c, p, members, e, prefix))
    decreases e, 2
  {
    hide Q.Ser;
    if !e.key.Str? { return Some(KeyError(e.key)); }
    var found := FindMember(members, e.key.s);
    if found.None? { return Some(KeyError(e.key)); }
    var member := Resolve(m, found.value);
    var name := NameOf(p, member.traits, e.key.s);
    if name.Err? { return Some(name.error); }
    error := Serialize(m, c, p, member, e.value, MemberPrefix(prefix, name.value), serialized);
  }

  method SerializeList(m: ShapeMap, c: Codec, p: Protocol, sh: Shape, v: Value, prefix: string, serialized: Params)
    returns (error: Option<SerError>)
    requires Closed(m) && InMap(m, sh.kind) && sh.kind.List?
    modifies serialized
    ensures Did(old(serialized.dict), serialized.dict, error, Q.Ser(m, c, p, sh, v, prefix))
    decreases v, 0
  {
    if p.Query? && !Truthy(v) {
      // The query protocol records empty lists.
      serialized.Assign(prefix, Str(""));
      return None;
    }
    if !v.Items? { return Some(TypeError); }
    var member, items := Resolve(m, sh.kind.member), v.items;
    var listPrefix := ListPrefix(p, sh, member, prefix);
    ghost var before, whole := serialized.dict, Q.Ser(m, c, p, sh, v, prefix);
    LeavingAll(before, whole);
    assert items[0..] == items;
    hide Did, Leaving, Q.Ser, Q.SerItems, Then, ListPrefix, NatText;
    var i := 0;
    while i < |items|
      invariant 0 <= i <= |items|
      invariant Leaving(before, serialized.dict, Q.SerItems(m, c, p, member, items[i..], listPrefix, i + 1), whole)
    {
      ghost var now := serialized.dict;
      ItemsStep(m, c, p, member, items, i, listPrefix);
      var elementPrefix := listPrefix + "." + NatText(i + 1);
      error := Serialize(m, c, p, member, items[i], elementPrefix, serialized);
      OneStep(before, now, serialized.dict, error, Q.Ser(m, c, p, member, items[i], elementPrefix),
              Q.SerItems(m, c, p, member, items[i + 1..], listPrefix, i + 2), whole);
      if error.Some? { return; }
      i := i + 1;
    }
    ItemsStep(m, c, p, member, items, i, listPrefix);
    LeavingNothing(before, serialized.dict, whole);
    error := None;
  }

  method SerializeMap(m: ShapeMap, c: Codec, p: Protocol, sh: Shape, v: Value, prefix: string, serialized: Params)
    returns (error: Option<SerError>)
    requires Closed(m) && InMap(m, sh.kind) && sh.kind.Map?
    modifies serialized
    ensures Did(old(serialized.dict), serialized.dict, error, Q.Ser(m, c, p, sh, v, prefix))
    decreases v, 0
  {
    var mapPrefix := MapPrefix(sh, prefix);
    var key, value := Resolve(m, sh.kind.key), Resolve(m, sh.kind.value);
    var k := NameOf(p, key.traits, "key");
    if k.Err? { return Some(k.error); }
    var w := NameOf(p, value.traits, "value");
    if w.Err? { return Some(w.error); }
    if !v.Dict? { return Some(TypeError); }
    var entries := v.entries;
    ghost var before, whole := serialized.dict, Q.Ser(m, c, p, sh, v, prefix);
    LeavingAll(before, whole);
    assert entries[0..] == entries;
    hide Did, Leaving, Q.Ser, Q.SerEntries, SerEntry, Then, MapPrefix, NatText;
    var i := 0;
    while i < |entries|
      invariant 0 <= i <= |entries|
      invariant Leaving(before, serialized.dict, Q.SerEntries(m, c, p, key, value, entries[i..], mapPrefix, i + 1, k.value, w.value), whole)
    {
      assert (v decreases to entries[i]);
      ghost var now := serialized.dict;
      EntriesStep(m, c, p, key, value, entries, i, mapPrefix, k.value, w.value);
      var template := mapPrefix + "." + NatText(i + 1);
      error := SerializeEntry(m, c, p, key, value, entries[i], template, k.value, w.value, serialized);
      OneStep(before, now, serialized.dict, error, SerEntry(m, c, p, key, value, entries[i], template, k.value, w.value),
              Q.SerEntries(m, c, p, key, value, entries[i + 1..], mapPrefix, i + 2, k.value, w.value), whole);
      if error.Some? { return; }
      i := i + 1;
    }
    EntriesStep(m, c, p, key, value, entries, i, mapPrefix, k.value, w.value);
    LeavingNothing(before, serialized.dict, whole);
    error := None;
  }

  /** One turn of the loop over a map's entries: the key, then the value. */
  method SerializeEntry(m: ShapeMap, c: Codec, p: Protocol, key: Shape, value: Shape, e: Entry, template: string, k: string,
                        w: string, serialized: Params) returns (error: Option<SerError>)
    requires Closed(m) && InMap(m, key.kind) && InMap(m, value.kind)
    modifies serialized
    ensures Did(old(serialized.dict), serialized.dict, error, SerEntry(m, c, p, key, value, e, template, k, w))
    decreases e, 2
  {
    hide Q.Ser, Stored;
    ghost var before := serialized.dict;
    error := Serialize(m, c, p, key, e.key, template + "." + k, serialized);
    if error.Some? { return; }
    error := Serialize(m, c, p, value, e.value, template + "." + w, serialized);
    StoredBoth(before, Q.Ser(m, c, p, key, e.key, template + "." + k).writes, Q.Ser(m, c, p, value, e.value, template + "." + w).writes);
  }

  /** serialize_to_request: the body parameters. */
  method SerializeToRequest(m: ShapeMap, c: Codec, p: Protocol, operation: string, version: string, inputShape: Option<Shape>,
                            parameters: Value) returns (body: Params, error: Option<SerError>)
    requires Closed(m) && (inputShape.Some? ==> InMap(m, inputShape.value.kind))
    ensures fresh(body)
    ensures Did(map[], body.dict, error, QueryKeys.Request(m, c, p, operation, version, inputShape, parameters))
  {
    hide Q.Ser;
    body := new Params();
    body.Assign("Action", Str(operation));
    body.Assign("Version", Str(version));
    StoredBoth(map[], [Write("Action", Str(operation))], [Write("Version", Str(version))]);
    ghost var header := [Write("Action", Str(operation)), Write("Version", Str(version))];
    assert [Write("Action", Str(operation))] + [Write("Version", Str(version))] == header;
    error := None;
    if inputShape.Some? {
      error := Serialize(m, c, p, inputShape.value, parameters, "", body);
      StoredBoth(map[], header, Q.Ser(m, c, p, inputShape.value, parameters, "").writes);
    } else {
      assert header + [] == header;
    }
  }
}
