/** What the parser makes of any document, told from the traits and the children alone. */
module XmlReading {
  import opened Results
  import opened Numerals
  import opened Shapes
  import opened Xml
  import opened XmlSerializer
  import opened XmlParser
  import XmlRoundTrip

  predicate SaysFlattened(m: ShapeMap, ref: Ref)
    requires ref.shape in m
  {
    Says(ref.traits.flattened, m[ref.shape].traits.flattened, true)
  }

  predicate SaysName(m: ShapeMap, ref: Ref, name: string)
    requires ref.shape in m
  {
    Says(ref.traits.name, m[ref.shape].traits.name, name)
  }

  predicate Nameless(m: ShapeMap, ref: Ref)
    requires ref.shape in m
  {
    Silent(ref.traits.name, m[ref.shape].traits.name)
  }

  /** A flattened list goes by the name of its elements if they have one. */
  predicate ByElements(m: ShapeMap, ref: Ref)
    requires Closed(m) && ref.shape in m
  {
    var kind := m[ref.shape].kind;
    kind.List? && SaysFlattened(m, ref) && !Nameless(m, kind.member)
  }

  /** The tag of the elements that hold a member. */
  predicate GoesBy(m: ShapeMap, member: Member, tag: string)
    requires Closed(m) && member.ref.shape in m
  {
    if ByElements(m, member.ref) then SaysName(m, m[member.ref.shape].kind.member, tag)
    else if Nameless(m, member.ref) then tag == member.name
    else SaysName(m, member.ref, tag)
  }

  predicate InBody(m: ShapeMap, ref: Ref)
    requires ref.shape in m
  {
    Silent(ref.traits.location, m[ref.shape].traits.location)
  }

  predicate DistinctNames(members: seq<Member>) {
    forall i, j :: 0 <= i < j < |members| ==> members[i].name != members[j].name
  }

  // ----- One level of a document

  /** Repeated elements stand for their own list, a single element for its children. */
  function Inside(ds: seq<Dom>): seq<Dom> {
    if |ds| == 1 then ds[0].children else ds
  }

  ghost predicate ItemsRead(m: ShapeMap, c: Codec, element: Shape, nodes: seq<Dom>, items: seq<Py>, depth: nat)
    requires Closed(m) && InMap(m, element.kind)
  {
    |items| == |nodes| && forall i :: 0 <= i < |nodes| ==> Parse(m, c, element, One(nodes[i]), depth) == Ok(items[i])
  }

  /** The member is in the dict exactly if some child has its tag; it is parsed from all of these. */
  ghost predicate MemberRead(m: ShapeMap, c: Codec, member: Member, children: seq<Dom>, dict: map<Py, Py>, depth: nat)
    requires Closed(m) && member.ref.shape in m
  {
    exists tag :: GoesBy(m, member, tag) &&
      var tagged := WithTag(children, tag);
      if InBody(m, member.ref) && tagged != [] then
        && PyStr(member.name) in dict
        && Parse(m, c, Resolve(m, member.ref), Gather(tagged), depth) == Ok(dict[PyStr(member.name)])
      else PyStr(member.name) !in dict
  }

  ghost predicate MembersRead(m: ShapeMap, c: Codec, members: seq<Member>, children: seq<Dom>, dict: map<Py, Py>, depth: nat)
    requires Closed(m) && InMap(m, Structure(members, []))
  {
    && (forall key :: key in dict ==> exists i :: 0 <= i < |members| && key == PyStr(members[i].name))
    && (forall i :: 0 <= i < |members| ==> MemberRead(m, c, members[i], children, dict, depth))
  }

  /** The tag of keys and values: an empty name counts as none. */
  function EntryTag(name: Option<string>, default: string): string {
    if name == None || name == Some("") then default else name.value
  }

  /** All children of some elements. */
  function Below(nodes: seq<Dom>): seq<Dom> {
    if nodes == [] then [] else Below(nodes[..|nodes| - 1]) + nodes[|nodes| - 1].children
  }

  ghost predicate LastIs(m: ShapeMap, c: Codec, sh: Shape, ds: seq<Dom>, p: Py, depth: nat)
    requires Closed(m) && InMap(m, sh.kind)
  {
    ds != [] && Parse(m, c, sh, One(ds[|ds| - 1]), depth) == Ok(p)
  }

  /** Every child of an entry is a key or a value and parses as such. */
  ghost predicate PairRead(m: ShapeMap, c: Codec, key: Shape, value: Shape, child: Dom, depth: nat)
    requires Closed(m) && InMap(m, key.kind) && InMap(m, value.kind)
  {
    if child.tag == EntryTag(key.traits.name, "key") then Parse(m, c, key, One(child), depth).Ok?
    else child.tag == EntryTag(value.traits.name, "value") && Parse(m, c, value, One(child), depth).Ok?
  }

  ghost predicate PairsGood(m: ShapeMap, c: Codec, key: Shape, value: Shape, nodes: seq<Dom>, depth: nat)
    requires Closed(m) && InMap(m, key.kind) && InMap(m, value.kind)
  {
    forall child :: child in nodes ==> PairRead(m, c, key, value, child, depth)
  }

  /** An entry has the last key and the last value up to it, possibly those of an entry before. */
  ghost predicate EntryRead(m: ShapeMap, c: Codec, key: Shape, value: Shape, upTo: seq<Dom>, k: Py, v: Py, depth: nat)
    requires Closed(m) && InMap(m, key.kind) && InMap(m, value.kind)
  {
    var keyTag, valueTag := EntryTag(key.traits.name, "key"), EntryTag(value.traits.name, "value");
    && keyTag != valueTag
    && LastIs(m, c, key, WithTag(Below(upTo), keyTag), k, depth)
    && LastIs(m, c, value, WithTag(Below(upTo), valueTag), v, depth)
    && !k.PyList? && !k.PyDict?
  }

  /** A later entry replaces an earlier one with its key. */
  ghost predicate LastWins(keys: seq<Py>, values: seq<Py>, dict: map<Py, Py>)
    requires |keys| == |values|
  {
    && (forall k :: k in dict <==> k in keys)
    && (forall i :: 0 <= i < |keys| && keys[i] !in keys[i + 1..] ==> keys[i] in dict && dict[keys[i]] == values[i])
  }

  ghost predicate EntriesAre(m: ShapeMap, c: Codec, key: Shape, value: Shape, nodes: seq<Dom>, keys: seq<Py>, values: seq<Py>, depth: nat)
    requires Closed(m) && InMap(m, key.kind) && InMap(m, value.kind)
  {
    && |keys| == |values| == |nodes|
    && PairsGood(m, c, key, value, Below(nodes), depth)
    && (forall i :: 0 <= i < |nodes| ==> EntryRead(m, c, key, value, nodes[..i + 1], keys[i], values[i], depth))
  }

  ghost predicate EntriesRead(m: ShapeMap, c: Codec, key: Shape, value: Shape, nodes: seq<Dom>, dict: map<Py, Py>, depth: nat)
    requires Closed(m) && InMap(m, key.kind) && InMap(m, value.kind)
  {
    exists keys, values :: EntriesAre(m, c, key, value, nodes, keys, values, depth) && LastWins(keys, values, dict)
  }

  /** The text of a single element; a list of elements has no text, and comes out of a string as it is. */
  ghost predicate ScalarRead(c: Codec, t: ScalarType, ds: seq<Dom>, p: Py) {
    if |ds| == 1 then
      var text := match ds[0].text case Some(s) => s case None => "";
      match p
      case PyStr(s) => (t.StringT? || t.CharacterT?) && s == text
      case PyBool(b) => t.BooleanT? && (b <==> text == "true")
      case PyInt(i) => (t.IntegerT? || t.LongT?) && ReadInt(text) == Some(i)
      case PyFloat(f) => (t.FloatT? || t.DoubleT?) && c.readFloat(text) == Some(f)
      case PyTime(instant) => t.TimestampT? && c.readTime(text) == Some(instant)
      case PyBlob(bytes) => t.BlobT? && c.unbase64(text) == Some(bytes)
      case _ => false
    else (t.BooleanT? && p == PyBool(false)) || ((t.StringT? || t.CharacterT?) && p == PyNodes(Many(ds)))
  }

  /** What is read from the elements found under one tag. */
  ghost predicate Read(m: ShapeMap, c: Codec, sh: Shape, ds: seq<Dom>, p: Py, depth: nat)
    requires Closed(m) && InMap(m, sh.kind) && depth > 0
  {
    var nodes := if sh.traits.flattened == Some(true) then ds else Inside(ds);
    match sh.kind
    case Structure(members, _) => p.PyDict? && MembersRead(m, c, members, Inside(ds), p.entries, depth - 1)
    case List(element) => p.PyList? && ItemsRead(m, c, Resolve(m, element), nodes, p.items, depth - 1)
    case Map(key, value) =>
      p.PyDict? && EntriesRead(m, c, Resolve(m, key), Resolve(m, value), nodes, p.entries, depth - 1)
    case Scalar(t) => ScalarRead(c, t, ds, p)
  }

  // ----- Structures

  lemma TagOfMember(m: ShapeMap, member: Member, tag: string)
    requires Closed(m) && member.ref.shape in m
    ensures GoesBy(m, member, tag) <==> tag == MemberKeyName(m, Resolve(m, member.ref), member.name)
    ensures InBody(m, member.ref) <==> Resolve(m, member.ref).traits.location.None?
  {
  }

  lemma MemberReadIff(m: ShapeMap, c: Codec, member: Member, children: seq<Dom>, dict: map<Py, Py>, depth: nat)
    requires Closed(m) && member.ref.shape in m
    ensures
      var sh := Resolve(m, member.ref);
      var tagged := WithTag(children, MemberKeyName(m, sh, member.name));
      MemberRead(m, c, member, children, dict, depth) <==>
      if sh.traits.location.None? && tagged != [] then
        PyStr(member.name) in dict && Parse(m, c, sh, Gather(tagged), depth) == Ok(dict[PyStr(member.name)])
      else PyStr(member.name) !in dict
  {
    hide GoesBy, InBody, MemberKeyName, WithTag, Parse;
    var tag := MemberKeyName(m, Resolve(m, member.ref), member.name);
    TagOfMember(m, member, tag);
    forall t
      ensures GoesBy(m, member, t) <==> t == tag
    {
      TagOfMember(m, member, t);
    }
  }

  lemma MemberStep(m: ShapeMap, c: Codec, member: Member, children: seq<Dom>, parsed: map<Py, Py>, dict: map<Py, Py>, depth: nat)
    requires Closed(m) && member.ref.shape in m && PyStr(member.name) !in parsed
    requires forall key :: key != PyStr(member.name) ==>
      (key in parsed <==> key in dict) && (key in dict ==> parsed[key] == dict[key])
    ensures ParseMember(m, c, member, BuildNames(children), parsed, depth) == Ok(dict) <==>
            MemberRead(m, c, member, children, dict, depth)
  {
    hide GoesBy, InBody, MemberKeyName, WithTag, Parse, BuildNames, MemberRead, Gather;
    var sh := Resolve(m, member.ref);
    var tag := MemberKeyName(m, sh, member.name);
    var key := PyStr(member.name);
    MemberReadIff(m, c, member, children, dict, depth);
    XmlRoundTrip.BuildNamesGathers(children, tag);
    if key in dict {
      assert parsed[key := dict[key]] == dict;
    } else {
      assert parsed == dict;
    }
  }

  lemma MemberElsewhere(m: ShapeMap, c: Codec, member: Member, children: seq<Dom>, a: map<Py, Py>, b: map<Py, Py>, depth: nat)
    requires Closed(m) && member.ref.shape in m
    requires PyStr(member.name) in a <==> PyStr(member.name) in b
    requires PyStr(member.name) in b ==> a[PyStr(member.name)] == b[PyStr(member.name)]
    ensures MemberRead(m, c, member, children, a, depth) <==> MemberRead(m, c, member, children, b, depth)
  {
    hide GoesBy, InBody, Resolve, WithTag, Parse, Gather;
  }

  lemma MembersReadSnoc(m: ShapeMap, c: Codec, init: seq<Member>, last: Member, children: seq<Dom>,
                        parsed: map<Py, Py>, dict: map<Py, Py>, depth: nat)
    requires Closed(m) && InMap(m, Structure(init, [])) && last.ref.shape in m
    requires DistinctNames(init + [last])
    requires parsed == dict - {PyStr(last.name)}
    ensures MembersRead(m, c, init + [last], children, dict, depth) <==>
            MembersRead(m, c, init, children, parsed, depth) && MemberRead(m, c, last, children, dict, depth)
  {
    hide MemberRead, Closed;
    var members := init + [last];
    assert members[|init|] == last;
    forall i | 0 <= i < |init|
      ensures PyStr(init[i].name) != PyStr(last.name)
      ensures MemberRead(m, c, members[i], children, dict, depth) <==> MemberRead(m, c, init[i], children, parsed, depth)
    {
      assert members[i] == init[i];
      MemberElsewhere(m, c, init[i], children, parsed, dict, depth);
    }
    if MembersRead(m, c, init, children, parsed, depth) && MemberRead(m, c, last, children, dict, depth) {
      forall key | key in dict
        ensures exists i :: 0 <= i < |members| && key == PyStr(members[i].name)
      {
        if key == PyStr(last.name) {
          assert key == PyStr(members[|init|].name);
        } else {
          assert key in parsed;
          var i :| 0 <= i < |init| && key == PyStr(init[i].name);
          assert members[i] == init[i];
        }
      }
    }
    if MembersRead(m, c, members, children, dict, depth) {
      forall key | key in parsed
        ensures exists i :: 0 <= i < |init| && key == PyStr(init[i].name)
      {
        var i :| 0 <= i < |members| && key == PyStr(members[i].name);
        assert i < |init| && members[i] == init[i];
      }
    }
  }

  lemma MembersSnoc(m: ShapeMap, c: Codec, init: seq<Member>, last: Member, names: map<string, Found>, depth: nat)
    requires Closed(m) && InMap(m, Structure(init, [])) && last.ref.shape in m
    ensures InMap(m, Structure(init + [last], []))
    ensures ParseMembers(m, c, init + [last], names, depth) ==
            var parsed := ParseMembers(m, c, init, names, depth);
            if parsed.Err? then parsed else ParseMember(m, c, last, names, parsed.value, depth)
  {
    hide ParseMember;
    assert (init + [last])[..|init|] == init;
  }

  /** A dict parsed from the first members has only their names. */
  lemma {:induction false} ParsedNames(m: ShapeMap, c: Codec, members: seq<Member>, names: map<string, Found>, depth: nat, key: Py)
    requires Closed(m) && InMap(m, Structure(members, []))
    requires ParseMembers(m, c, members, names, depth).Ok? && key in ParseMembers(m, c, members, names, depth).value
    ensures exists i :: 0 <= i < |members| && key == PyStr(members[i].name)
    decreases |members|
  {
    var n := |members| - 1;
    if key != PyStr(members[n].name) {
      hide Parse;
      ParsedNames(m, c, members[..n], names, depth, key);
      var i :| 0 <= i < n && key == PyStr(members[..n][i].name);
      assert key == PyStr(members[i].name);
    }
  }

  lemma {:induction false} MembersIff(m: ShapeMap, c: Codec, members: seq<Member>, children: seq<Dom>, dict: map<Py, Py>, depth: nat)
    requires Closed(m) && InMap(m, Structure(members, [])) && DistinctNames(members)
    ensures ParseMembers(m, c, members, BuildNames(children), depth) == Ok(dict) <==>
            MembersRead(m, c, members, children, dict, depth)
    decreases |members|
  {
    if members == [] {
      assert MembersRead(m, c, members, children, dict, depth) <==> dict == map[];
    } else {
      hide ParseMember, MemberRead, MembersRead, BuildNames, ParseMembers, GoesBy;
      var init, last := members[..|members| - 1], members[|members| - 1];
      assert members == init + [last];
      var parsed := dict - {PyStr(last.name)};
      MembersIff(m, c, init, children, parsed, depth);
      MembersReadSnoc(m, c, init, last, children, parsed, dict, depth);
      MembersSnoc(m, c, init, last, BuildNames(children), depth);
      MemberStep(m, c, last, children, parsed, dict, depth);
      var before := ParseMembers(m, c, init, BuildNames(children), depth);
      if before.Ok? && ParseMembers(m, c, members, BuildNames(children), depth) == Ok(dict) {
        StepBack(m, c, init, last, BuildNames(children), before.value, dict, depth);
      }
    }
  }

  lemma StepBack(m: ShapeMap, c: Codec, init: seq<Member>, last: Member, names: map<string, Found>,
                 before: map<Py, Py>, dict: map<Py, Py>, depth: nat)
    requires Closed(m) && InMap(m, Structure(init, [])) && last.ref.shape in m && DistinctNames(init + [last])
    requires ParseMembers(m, c, init, names, depth) == Ok(before)
    requires ParseMember(m, c, last, names, before, depth) == Ok(dict)
    ensures before == dict - {PyStr(last.name)}
  {
    hide Parse, ParseMembers;
    assert (init + [last])[|init|] == last;
    assert forall i :: 0 <= i < |init| ==> (init + [last])[i] == init[i];
    if PyStr(last.name) in before {
      ParsedNames(m, c, init, names, depth, PyStr(last.name));
    }
  }

  // ----- Lists

  lemma {:induction false} ItemsIff(m: ShapeMap, c: Codec, element: Shape, nodes: seq<Dom>, items: seq<Py>, depth: nat)
    requires Closed(m) && InMap(m, element.kind)
    ensures ParseItems(m, c, element, nodes, depth) == Ok(items) <==> ItemsRead(m, c, element, nodes, items, depth)
    decreases |nodes|
  {
    hide Parse;
    if nodes != [] {
      if items != [] {
        ItemsIff(m, c, element, nodes[1..], items[1..], depth);
        assert items == [items[0]] + items[1..];
        assert ItemsRead(m, c, element, nodes, items, depth) <==>
          Parse(m, c, element, One(nodes[0]), depth) == Ok(items[0]) && ItemsRead(m, c, element, nodes[1..], items[1..], depth)
          by {
            assert forall i :: 1 <= i < |nodes| ==> nodes[i] == nodes[1..][i - 1];
            assert forall i :: 1 <= i < |items| ==> items[i] == items[1..][i - 1];
          }
      }
    }
  }

  // ----- Maps

  lemma {:induction false} BelowConcat(a: seq<Dom>, b: seq<Dom>)
    ensures Below(a + b) == Below(a) + Below(b)
    decreases |b|
  {
    if b == [] {
      assert a + b == a;
    } else {
      var n := |b| - 1;
      assert (a + b)[..|a + b| - 1] == a + b[..n];
      BelowConcat(a, b[..n]);
    }
  }

  lemma BelowOne(d: Dom)
    ensures Below([d]) == d.children
  {
    assert [d][..0] == [];
  }

  /** What a local variable holds after some children: the last one with the tag, or what it held before. */
  ghost predicate Holds(m: ShapeMap, c: Codec, sh: Shape, tagged: seq<Dom>, now: Option<Py>, depth: nat)
    requires Closed(m) && InMap(m, sh.kind)
  {
    if tagged == [] then now == None else now.Some? && LastIs(m, c, sh, tagged, now.value, depth)
  }

  function KeyNodes(key: Shape, ds: seq<Dom>): seq<Dom> {
    WithTag(ds, EntryTag(key.traits.name, "key"))
  }

  function ValueNodes(key: Shape, value: Shape, ds: seq<Dom>): seq<Dom> {
    if EntryTag(value.traits.name, "value") == EntryTag(key.traits.name, "key") then []
    else WithTag(ds, EntryTag(value.traits.name, "value"))
  }

  ghost predicate PairHolds(m: ShapeMap, c: Codec, key: Shape, value: Shape, seen: seq<Dom>, pair: Pair, depth: nat)
    requires Closed(m) && InMap(m, key.kind) && InMap(m, value.kind)
  {
    Holds(m, c, key, KeyNodes(key, seen), pair.key, depth) && Holds(m, c, value, ValueNodes(key, value, seen), pair.value, depth)
  }

  lemma TagStep(seen: seq<Dom>, child: Dom, tag: string)
    ensures WithTag(seen + [child], tag) == WithTag(seen, tag) + if child.tag == tag then [child] else []
  {
    XmlRoundTrip.WithTagSnoc(seen, child, tag);
  }

  /** One child of an entry is read. */
  lemma PairStep(m: ShapeMap, c: Codec, key: Shape, value: Shape, seen: seq<Dom>, nodes: seq<Dom>, pair: Pair, depth: nat)
    returns (next: Pair)
    requires Closed(m) && InMap(m, key.kind) && InMap(m, value.kind) && nodes != []
    requires PairHolds(m, c, key, value, seen, pair, depth)
    ensures PairRead(m, c, key, value, nodes[0], depth) ==>
      && PairHolds(m, c, key, value, seen + [nodes[0]], next, depth)
      && ParsePairs(m, c, key, value, nodes, pair, depth) == ParsePairs(m, c, key, value, nodes[1..], next, depth)
    ensures !PairRead(m, c, key, value, nodes[0], depth) ==> ParsePairs(m, c, key, value, nodes, pair, depth).Err?
  {
    hide Parse, WithTag;
    var child := nodes[0];
    TagStep(seen, child, EntryTag(key.traits.name, "key"));
    TagStep(seen, child, EntryTag(value.traits.name, "value"));
    next := pair;
    if child.tag == EntryTag(key.traits.name, "key") {
      var k := Parse(m, c, key, One(child), depth);
      if k.Ok? {
        next := pair.(key := Some(k.value));
      }
    } else if child.tag == EntryTag(value.traits.name, "value") {
      var v := Parse(m, c, value, One(child), depth);
      if v.Ok? {
        next := pair.(value := Some(v.value));
      }
    }
  }

  lemma PairsGoodCons(m: ShapeMap, c: Codec, key: Shape, value: Shape, nodes: seq<Dom>, depth: nat)
    requires Closed(m) && InMap(m, key.kind) && InMap(m, value.kind) && nodes != []
    ensures PairsGood(m, c, key, value, nodes, depth) <==>
            PairRead(m, c, key, value, nodes[0], depth) && PairsGood(m, c, key, value, nodes[1..], depth)
  {
    hide PairRead;
    assert forall child :: child in nodes <==> child == nodes[0] || child in nodes[1..];
  }

  lemma {:induction false} PairsRead(m: ShapeMap, c: Codec, key: Shape, value: Shape, seen: seq<Dom>, nodes: seq<Dom>, pair: Pair, depth: nat)
    requires Closed(m) && InMap(m, key.kind) && InMap(m, value.kind)
    requires PairHolds(m, c, key, value, seen, pair, depth)
    ensures
      var r := ParsePairs(m, c, key, value, nodes, pair, depth);
      && (r.Ok? <==> PairsGood(m, c, key, value, nodes, depth))
      && (r.Ok? ==> PairHolds(m, c, key, value, seen + nodes, r.value, depth))
    decreases |nodes|
  {
    hide *;
    if nodes == [] {
      PairsNone(m, c, key, value, seen, pair, depth);
    } else {
      PairsGoodCons(m, c, key, value, nodes, depth);
      var next := PairStep(m, c, key, value, seen, nodes, pair, depth);
      MoveFirst(seen, nodes);
      if PairRead(m, c, key, value, nodes[0], depth) {
        PairsRead(m, c, key, value, seen + [nodes[0]], nodes[1..], next, depth);
      }
    }
  }

  lemma PairsNone(m: ShapeMap, c: Codec, key: Shape, value: Shape, seen: seq<Dom>, pair: Pair, depth: nat)
    requires Closed(m) && InMap(m, key.kind) && InMap(m, value.kind)
    ensures ParsePairs(m, c, key, value, [], pair, depth) == Ok(pair)
    ensures PairsGood(m, c, key, value, [], depth)
    ensures seen + [] == seen
  {
  }

  lemma MoveFirst(seen: seq<Dom>, nodes: seq<Dom>)
    requires nodes != []
    ensures seen + nodes == (seen + [nodes[0]]) + nodes[1..]
  {
  }

  /** Only a repeated element comes out as a list of nodes. */
  lemma OneIsParsed(m: ShapeMap, c: Codec, sh: Shape, d: Dom, depth: nat)
    requires Closed(m) && InMap(m, sh.kind)
    ensures Parse(m, c, sh, One(d), depth).Ok? ==> !Parse(m, c, sh, One(d), depth).value.PyNodes?
  {
    hide ParseMembers, ParseItems, ParseEntries;
  }

  /** The variables after an entry are its key and value. */
  lemma EntryOfPair(m: ShapeMap, c: Codec, key: Shape, value: Shape, upTo: seq<Dom>, pair: Pair, depth: nat)
    requires Closed(m) && InMap(m, key.kind) && InMap(m, value.kind)
    requires PairHolds(m, c, key, value, Below(upTo), pair, depth)
    ensures forall k, v :: EntryRead(m, c, key, value, upTo, k, v, depth) <==>
                           pair == Pair(Some(k), Some(v)) && Hashable(k)
  {
    hide Parse, WithTag, Below;
    var ks := KeyNodes(key, Below(upTo));
    if ks != [] {
      OneIsParsed(m, c, key, ks[|ks| - 1], depth);
    }
  }

  function Laid(parsed: map<Py, Py>, keys: seq<Py>, values: seq<Py>): map<Py, Py>
    requires |keys| == |values|
    decreases |keys|
  {
    if keys == [] then parsed else Laid(parsed[keys[0] := values[0]], keys[1..], values[1..])
  }

  lemma {:induction false} LaidKeys(parsed: map<Py, Py>, keys: seq<Py>, values: seq<Py>)
    requires |keys| == |values|
    ensures forall k :: k in Laid(parsed, keys, values) <==> k in parsed || k in keys
    ensures forall k :: k in parsed && k !in keys ==> Laid(parsed, keys, values)[k] == parsed[k]
    ensures forall i :: 0 <= i < |keys| && keys[i] !in keys[i + 1..] ==> Laid(parsed, keys, values)[keys[i]] == values[i]
    decreases |keys|
  {
    if keys != [] {
      LaidKeys(parsed[keys[0] := values[0]], keys[1..], values[1..]);
      assert forall k :: k in keys <==> k == keys[0] || k in keys[1..];
      forall i | 0 <= i < |keys| && keys[i] !in keys[i + 1..]
        ensures Laid(parsed, keys, values)[keys[i]] == values[i]
      {
        if i > 0 {
          assert keys[1..][i - 1] == keys[i] && values[1..][i - 1] == values[i];
          assert keys[1..][i..] == keys[i + 1..];
        }
      }
    }
  }

  lemma {:induction false} LastPlace(keys: seq<Py>, k: Py) returns (i: nat)
    requires k in keys
    ensures i < |keys| && keys[i] == k && k !in keys[i + 1..]
    decreases |keys|
  {
    var n := |keys| - 1;
    if keys[n] == k {
      i := n;
    } else {
      i := LastPlace(keys[..n], k);
      assert keys[i + 1..] == keys[..n][i + 1..] + [keys[n]];
    }
  }

  lemma LaidIff(keys: seq<Py>, values: seq<Py>, dict: map<Py, Py>)
    requires |keys| == |values|
    ensures dict == Laid(map[], keys, values) <==> LastWins(keys, values, dict)
  {
    LaidKeys(map[], keys, values);
    if LastWins(keys, values, dict) {
      forall k | k in dict
        ensures dict[k] == Laid(map[], keys, values)[k]
      {
        var i := LastPlace(keys, k);
      }
    }
  }

  ghost predicate EntriesFrom(m: ShapeMap, c: Codec, key: Shape, value: Shape, done: seq<Dom>, nodes: seq<Dom>,
                              keys: seq<Py>, values: seq<Py>, depth: nat)
    requires Closed(m) && InMap(m, key.kind) && InMap(m, value.kind)
  {
    && |keys| == |values| == |nodes|
    && PairsGood(m, c, key, value, Below(nodes), depth)
    && (forall i :: 0 <= i < |nodes| ==> EntryRead(m, c, key, value, done + nodes[..i + 1], keys[i], values[i], depth))
  }

  lemma PrefixStep(done: seq<Dom>, nodes: seq<Dom>, i: nat)
    requires 0 < i < |nodes|
    ensures done + nodes[..i + 1] == (done + [nodes[0]]) + nodes[1..][..i]
  {
  }

  lemma EntriesFromCons(m: ShapeMap, c: Codec, key: Shape, value: Shape, done: seq<Dom>, nodes: seq<Dom>,
                        keys: seq<Py>, values: seq<Py>, depth: nat)
    requires Closed(m) && InMap(m, key.kind) && InMap(m, value.kind)
    requires |keys| == |values| == |nodes| > 0
    ensures EntriesFrom(m, c, key, value, done, nodes, keys, values, depth) <==>
      && PairsGood(m, c, key, value, nodes[0].children, depth)
      && EntryRead(m, c, key, value, done + [nodes[0]], keys[0], values[0], depth)
      && EntriesFrom(m, c, key, value, done + [nodes[0]], nodes[1..], keys[1..], values[1..], depth)
  {
    hide EntryRead, PairRead, Below;
    var rest := nodes[1..];
    assert nodes == [nodes[0]] + rest;
    BelowConcat([nodes[0]], rest);
    BelowOne(nodes[0]);
    assert nodes[..1] == [nodes[0]];
    if EntriesFrom(m, c, key, value, done + [nodes[0]], rest, keys[1..], values[1..], depth) &&
       EntryRead(m, c, key, value, done + [nodes[0]], keys[0], values[0], depth) {
      forall i | 0 <= i < |nodes|
        ensures EntryRead(m, c, key, value, done + nodes[..i + 1], keys[i], values[i], depth)
      {
        if i > 0 {
          assert keys[i] == keys[1..][i - 1] && values[i] == values[1..][i - 1];
          PrefixStep(done, nodes, i);
          assert EntryRead(m, c, key, value, (done + [nodes[0]]) + rest[..(i - 1) + 1], keys[1..][i - 1], values[1..][i - 1], depth);
        }
      }
    }
    if EntriesFrom(m, c, key, value, done, nodes, keys, values, depth) {
      forall i | 0 <= i < |rest|
        ensures EntryRead(m, c, key, value, (done + [nodes[0]]) + rest[..i + 1], keys[1..][i], values[1..][i], depth)
      {
        assert keys[i + 1] == keys[1..][i] && values[i + 1] == values[1..][i];
        PrefixStep(done, nodes, i + 1);
        assert EntryRead(m, c, key, value, done + nodes[..(i + 1) + 1], keys[i + 1], values[i + 1], depth);
      }
    }
  }

  /** The variables after an entry: its children parse, and it has a key and a value. */
  lemma EntryStep(m: ShapeMap, c: Codec, key: Shape, value: Shape, done: seq<Dom>, nodes: seq<Dom>,
                  pair: Pair, parsed: map<Py, Py>, depth: nat) returns (next: Pair)
    requires Closed(m) && InMap(m, key.kind) && InMap(m, value.kind) && nodes != []
    requires PairHolds(m, c, key, value, Below(done), pair, depth)
    ensures
      var good := PairsGood(m, c, key, value, nodes[0].children, depth);
      var r := ParseEntries(m, c, key, value, nodes, pair, parsed, depth);
      && (good ==> PairHolds(m, c, key, value, Below(done + [nodes[0]]), next, depth))
      && (r.Ok? ==> good && next.key.Some? && next.value.Some? && Hashable(next.key.value))
      && (good && next.key.Some? && next.value.Some? && Hashable(next.key.value) ==>
            r == ParseEntries(m, c, key, value, nodes[1..], next, parsed[next.key.value := next.value.value], depth))
  {
    hide PairHolds, PairRead, PairsGood, ParsePairs, Below, Hashable;
    var children := nodes[0].children;
    BelowConcat(done, [nodes[0]]);
    BelowOne(nodes[0]);
    PairsRead(m, c, key, value, Below(done), children, pair, depth);
    var r := ParsePairs(m, c, key, value, children, pair, depth);
    next := if r.Ok? then r.value else pair;
  }

  lemma {:induction false} EntriesForth(m: ShapeMap, c: Codec, key: Shape, value: Shape, done: seq<Dom>, nodes: seq<Dom>,
                                        pair: Pair, parsed: map<Py, Py>, depth: nat) returns (keys: seq<Py>, values: seq<Py>)
    requires Closed(m) && InMap(m, key.kind) && InMap(m, value.kind)
    requires PairHolds(m, c, key, value, Below(done), pair, depth)
    requires ParseEntries(m, c, key, value, nodes, pair, parsed, depth).Ok?
    ensures EntriesFrom(m, c, key, value, done, nodes, keys, values, depth)
    ensures ParseEntries(m, c, key, value, nodes, pair, parsed, depth).value == Laid(parsed, keys, values)
    decreases |nodes|
  {
    if nodes == [] {
      keys, values := [], [];
    } else {
      hide PairHolds, PairRead, EntryRead, ParseEntries, Below, EntriesFrom, Hashable;
      var next := EntryStep(m, c, key, value, done, nodes, pair, parsed, depth);
      var k, v := next.key.value, next.value.value;
      EntryOfPair(m, c, key, value, done + [nodes[0]], next, depth);
      var ks, vs := EntriesForth(m, c, key, value, done + [nodes[0]], nodes[1..], next, parsed[k := v], depth);
      FromLengths(m, c, key, value, done + [nodes[0]], nodes[1..], ks, vs, depth);
      keys, values := [k] + ks, [v] + vs;
      assert keys[1..] == ks && values[1..] == vs;
      EntriesFromCons(m, c, key, value, done, nodes, keys, values, depth);
    }
  }

  lemma FromLengths(m: ShapeMap, c: Codec, key: Shape, value: Shape, done: seq<Dom>, nodes: seq<Dom>,
                    keys: seq<Py>, values: seq<Py>, depth: nat)
    requires Closed(m) && InMap(m, key.kind) && InMap(m, value.kind)
    requires EntriesFrom(m, c, key, value, done, nodes, keys, values, depth)
    ensures |keys| == |values| == |nodes|
  {
  }

  lemma {:induction false} EntriesBack(m: ShapeMap, c: Codec, key: Shape, value: Shape, done: seq<Dom>, nodes: seq<Dom>,
                                       pair: Pair, parsed: map<Py, Py>, keys: seq<Py>, values: seq<Py>, depth: nat)
    requires Closed(m) && InMap(m, key.kind) && InMap(m, value.kind)
    requires PairHolds(m, c, key, value, Below(done), pair, depth)
    requires |keys| == |values| == |nodes| && EntriesFrom(m, c, key, value, done, nodes, keys, values, depth)
    ensures ParseEntries(m, c, key, value, nodes, pair, parsed, depth) == Ok(Laid(parsed, keys, values))
    decreases |nodes|
  {
    if nodes != [] {
      hide PairHolds, PairRead, EntryRead, ParseEntries, Below, EntriesFrom, Hashable;
      EntriesFromCons(m, c, key, value, done, nodes, keys, values, depth);
      var next := EntryStep(m, c, key, value, done, nodes, pair, parsed, depth);
      EntryOfPair(m, c, key, value, done + [nodes[0]], next, depth);
      assert next == Pair(Some(keys[0]), Some(values[0]));
      EntriesBack(m, c, key, value, done + [nodes[0]], nodes[1..], next, parsed[keys[0] := values[0]], keys[1..], values[1..], depth);
    }
  }

  lemma NothingHeld(m: ShapeMap, c: Codec, key: Shape, value: Shape, depth: nat)
    requires Closed(m) && InMap(m, key.kind) && InMap(m, value.kind)
    ensures PairHolds(m, c, key, value, Below([]), Pair(None, None), depth)
  {
  }

  lemma FromStart(m: ShapeMap, c: Codec, key: Shape, value: Shape, nodes: seq<Dom>, keys: seq<Py>, values: seq<Py>, depth: nat)
    requires Closed(m) && InMap(m, key.kind) && InMap(m, value.kind)
    ensures EntriesFrom(m, c, key, value, [], nodes, keys, values, depth) <==>
            EntriesAre(m, c, key, value, nodes, keys, values, depth)
  {
    hide EntryRead, PairRead, Below;
    if |keys| == |values| == |nodes| {
      forall i | 0 <= i < |nodes|
        ensures EntryRead(m, c, key, value, [] + nodes[..i + 1], keys[i], values[i], depth) <==>
                EntryRead(m, c, key, value, nodes[..i + 1], keys[i], values[i], depth)
      {
        assert [] + nodes[..i + 1] == nodes[..i + 1];
      }
    }
  }

  lemma EntriesIff(m: ShapeMap, c: Codec, key: Shape, value: Shape, nodes: seq<Dom>, dict: map<Py, Py>, depth: nat)
    requires Closed(m) && InMap(m, key.kind) && InMap(m, value.kind)
    ensures ParseEntries(m, c, key, value, nodes, Pair(None, None), map[], depth) == Ok(dict) <==>
            EntriesRead(m, c, key, value, nodes, dict, depth)
  {
    hide PairHolds, EntryRead, PairRead, ParseEntries, Below, EntriesFrom, LastWins;
    NothingHeld(m, c, key, value, depth);
    if ParseEntries(m, c, key, value, nodes, Pair(None, None), map[], depth) == Ok(dict) {
      var keys, values := EntriesForth(m, c, key, value, [], nodes, Pair(None, None), map[], depth);
      FromStart(m, c, key, value, nodes, keys, values, depth);
      LaidIff(keys, values, dict);
    }
    if EntriesRead(m, c, key, value, nodes, dict, depth) {
      var keys, values :| EntriesAre(m, c, key, value, nodes, keys, values, depth) && LastWins(keys, values, dict);
      FromStart(m, c, key, value, nodes, keys, values, depth);
      EntriesBack(m, c, key, value, [], nodes, Pair(None, None), map[], keys, values, depth);
      LaidIff(keys, values, dict);
    }
  }

  // ----- Any shape

  lemma ScalarIff(c: Codec, t: ScalarType, ds: seq<Dom>, p: Py)
    requires ds != []
    ensures ParseScalar(c, t, Gather(ds)) == Ok(p) <==> ScalarRead(c, t, ds, p)
  {
    hide ReadInt;
  }

  lemma NodesOf(ds: seq<Dom>, flattened: bool)
    requires ds != []
    ensures Iterate(Gather(ds)) == Inside(ds)
    ensures Elements(Gather(ds), flattened) == if flattened then ds else Inside(ds)
  {
    if |ds| == 1 {
      assert ds == [ds[0]];
    }
  }

  lemma StructureIff(m: ShapeMap, c: Codec, sh: Shape, ds: seq<Dom>, p: Py, depth: nat)
    requires Closed(m) && InMap(m, sh.kind) && ds != [] && depth > 0
    requires sh.kind.Structure? && DistinctNames(sh.kind.members)
    ensures Parse(m, c, sh, Gather(ds), depth) == Ok(p) <==> Read(m, c, sh, ds, p, depth)
  {
    hide Gather, Iterate, ParseMembers, MembersRead, BuildNames, Inside;
    NodesOf(ds, false);
    if p.PyDict? {
      MembersIff(m, c, sh.kind.members, Inside(ds), p.entries, depth - 1);
    }
  }

  lemma ListIff(m: ShapeMap, c: Codec, sh: Shape, ds: seq<Dom>, p: Py, depth: nat)
    requires Closed(m) && InMap(m, sh.kind) && ds != [] && depth > 0 && sh.kind.List?
    ensures Parse(m, c, sh, Gather(ds), depth) == Ok(p) <==> Read(m, c, sh, ds, p, depth)
  {
    hide Gather, Elements, ParseItems, ItemsRead, Inside;
    NodesOf(ds, Flag(sh.traits.flattened));
    if p.PyList? {
      ItemsIff(m, c, Resolve(m, sh.kind.member), Elements(Gather(ds), Flag(sh.traits.flattened)), p.items, depth - 1);
    }
  }

  lemma MapIff(m: ShapeMap, c: Codec, sh: Shape, ds: seq<Dom>, p: Py, depth: nat)
    requires Closed(m) && InMap(m, sh.kind) && ds != [] && depth > 0 && sh.kind.Map?
    ensures Parse(m, c, sh, Gather(ds), depth) == Ok(p) <==> Read(m, c, sh, ds, p, depth)
  {
    hide Gather, Elements, ParseEntries, EntriesRead, Inside;
    NodesOf(ds, Flag(sh.traits.flattened));
    if p.PyDict? {
      EntriesIff(m, c, Resolve(m, sh.kind.key), Resolve(m, sh.kind.value), Elements(Gather(ds), Flag(sh.traits.flattened)),
        p.entries, depth - 1);
    }
  }

  /** Whatever the document: a node parses to a value exactly when it reads as that value. */
  lemma ParsesAsRead(m: ShapeMap, c: Codec, sh: Shape, ds: seq<Dom>, p: Py, depth: nat)
    requires Closed(m) && InMap(m, sh.kind) && ds != []
    requires sh.kind.Structure? ==> DistinctNames(sh.kind.members)
    ensures Parse(m, c, sh, Gather(ds), depth) == Ok(p) <==> depth > 0 && Read(m, c, sh, ds, p, depth)
  {
    if depth > 0 {
      match sh.kind
      case Structure(_, _) => StructureIff(m, c, sh, ds, p, depth);
      case List(_) => ListIff(m, c, sh, ds, p, depth);
      case Map(_, _) => MapIff(m, c, sh, ds, p, depth);
      case Scalar(t) => ScalarIff(c, t, ds, p);
    }
  }

  /** A structure whose flattened list goes by its elements' name: the children of that name, in order, are its items. */
  lemma NamedElementsRead(m: ShapeMap, c: Codec, sh: Shape, node: Dom, i: nat, tag: string, dict: map<Py, Py>, depth: nat)
    requires Closed(m) && InMap(m, sh.kind) && sh.kind.Structure? && DistinctNames(sh.kind.members)
    requires i < |sh.kind.members| && depth > 1
    requires
      var ref := sh.kind.members[i].ref;
      var kind := m[ref.shape].kind;
      InBody(m, ref) && kind.List? && SaysFlattened(m, ref) && SaysName(m, kind.member, tag)
    requires Parse(m, c, sh, One(node), depth) == Ok(PyDict(dict))
    ensures
      var Member(name, ref) := sh.kind.members[i];
      var element := Resolve(m, m[ref.shape].kind.member);
      var tagged := WithTag(node.children, tag);
      && (PyStr(name) in dict <==> tagged != [])
      && (tagged != [] ==>
            && dict[PyStr(name)].PyList?
            && ItemsRead(m, c, element, tagged, dict[PyStr(name)].items, depth - 2))
  {
    hide Parse, MembersRead, ItemsRead;
    assert Gather([node]) == One(node);
    ParsesAsRead(m, c, sh, [node], PyDict(dict), depth);
    NamedElements(m, c, sh.kind.members, i, tag, node.children, dict, depth - 1);
  }

  lemma NamedElements(m: ShapeMap, c: Codec, members: seq<Member>, i: nat, tag: string, children: seq<Dom>, dict: map<Py, Py>, depth: nat)
    requires Closed(m) && InMap(m, Structure(members, [])) && i < |members| && depth > 0
    requires
      var ref := members[i].ref;
      var kind := m[ref.shape].kind;
      InBody(m, ref) && kind.List? && SaysFlattened(m, ref) && SaysName(m, kind.member, tag)
    requires MembersRead(m, c, members, children, dict, depth)
    ensures
      var Member(name, ref) := members[i];
      var element := Resolve(m, m[ref.shape].kind.member);
      var tagged := WithTag(children, tag);
      && (PyStr(name) in dict <==> tagged != [])
      && (tagged != [] ==>
            && dict[PyStr(name)].PyList?
            && ItemsRead(m, c, element, tagged, dict[PyStr(name)].items, depth - 1))
  {
    hide Parse, ItemsRead, WithTag, Gather;
    var Member(name, ref) := members[i];
    var tagged := WithTag(children, tag);
    assert MemberRead(m, c, members[i], children, dict, depth);
    assert GoesBy(m, members[i], tag);
    if tagged != [] {
      ParsesAsRead(m, c, Resolve(m, ref), tagged, dict[PyStr(name)], depth);
    }
  }
}
