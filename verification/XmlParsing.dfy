/** The parser as it runs: dictionaries and lists filled in loops. */
module XmlParsing {
  import opened Results
  import opened Shapes
  import opened Xml
  import opened XmlSerializer
  import opened XmlParser

  method BuildNameToXmlNode(items: seq<Dom>) returns (xmlDict: map<string, Found>)
    ensures xmlDict == BuildNames(items)
  {
    xmlDict := map[];
    var i := 0;
    while i < |items|
      invariant 0 <= i <= |items|
      invariant xmlDict == BuildNames(items[..i])
    {
      var item := items[i];
      assert items[..i + 1][..i] == items[..i];
      if item.tag in xmlDict {
        match xmlDict[item.tag]
        case Many(ds) => xmlDict := xmlDict[item.tag := Many(ds + [item])];
        case One(d) => xmlDict := xmlDict[item.tag := Many([d, item])];
      } else {
        xmlDict := xmlDict[item.tag := One(item)];
      }
      i := i + 1;
    }
    assert items[..i] == items;
  }

  /** Dispatch on the type of the shape. */
  method ParseShape(m: ShapeMap, c: Codec, sh: Shape, node: Found, depth: nat) returns (r: Result<Py, ParseError>)
    requires Closed(m) && InMap(m, sh.kind)
    ensures r == Parse(m, c, sh, node, depth)
    decreases depth, 0
  {
    hide ParseMembers, ParseItems, ParseEntries, ParseScalar;
    if depth == 0 { return Err(RecursionError); }
    match sh.kind
    case Structure(members, _) =>
      r := HandleStructure(m, c, members, node, depth - 1);
    case List(member) =>
      r := HandleList(m, c, Resolve(m, member), Elements(node, Flag(sh.traits.flattened)), depth - 1);
    case Map(key, value) =>
      r := HandleMap(m, c, Resolve(m, key), Resolve(m, value), Elements(node, Flag(sh.traits.flattened)), depth - 1);
    case Scalar(t) =>
      r := ParseScalar(c, t, node);
  }

  function Listed(r: Result<seq<Py>, ParseError>): Result<Py, ParseError> {
    if r.Ok? then Ok(PyList(r.value)) else Err(r.error)
  }

  function AsDict(r: Result<map<Py, Py>, ParseError>): Result<Py, ParseError> {
    if r.Ok? then Ok(PyDict(r.value)) else Err(r.error)
  }

  lemma {:induction false} FailureStays(m: ShapeMap, c: Codec, members: seq<Member>, n: nat, names: map<string, Found>, depth: nat)
    requires Closed(m) && InMap(m, Structure(members, [])) && n <= |members|
    requires ParseMembers(m, c, members[..n], names, depth).Err?
    ensures ParseMembers(m, c, members, names, depth) == Err(ParseMembers(m, c, members[..n], names, depth).error)
    decreases |members|
  {
    hide ParseMember;
    if n < |members| {
      var init := members[..|members| - 1];
      assert init[..n] == members[..n];
      FailureStays(m, c, init, n, names, depth);
    } else {
      assert members[..n] == members;
    }
  }

  method HandleStructure(m: ShapeMap, c: Codec, members: seq<Member>, node: Found, depth: nat)
    returns (r: Result<Py, ParseError>)
    requires Closed(m) && InMap(m, Structure(members, []))
    ensures r == AsDict(ParseMembers(m, c, members, BuildNames(Iterate(node)), depth))
    decreases depth, 2
  {
    hide Parse;
    var parsed: map<Py, Py> := map[];
    var xmlDict := BuildNameToXmlNode(Iterate(node));
    var i := 0;
    while i < |members|
      invariant 0 <= i <= |members|
      invariant ParseMembers(m, c, members[..i], xmlDict, depth) == Ok(parsed)
    {
      var member := members[i];
      assert members[..i + 1][..i] == members[..i];
      var sh := Resolve(m, member.ref);
      if sh.traits.location.None? {
        var xmlName := MemberKeyName(m, sh, member.name);
        if xmlName in xmlDict {
          var value := ParseShape(m, c, sh, xmlDict[xmlName], depth);
          if value.Err? {
            FailureStays(m, c, members, i + 1, xmlDict, depth);
            return Err(value.error);
          }
          parsed := parsed[PyStr(member.name) := value.value];
        }
      }
      i := i + 1;
    }
    assert members[..i] == members;
    r := Ok(PyDict(parsed));
  }

  function Onto(parsed: seq<Py>, rest: Result<seq<Py>, ParseError>): Result<seq<Py>, ParseError> {
    if rest.Ok? then Ok(parsed + rest.value) else rest
  }

  lemma OntoNext(parsed: seq<Py>, item: Py, rest: Result<seq<Py>, ParseError>)
    ensures rest.Ok? ==> Onto(parsed, Ok([item] + rest.value)) == Onto(parsed + [item], rest)
    ensures rest.Err? ==> Onto(parsed, rest) == Onto(parsed + [item], rest)
  {
    if rest.Ok? { assert parsed + ([item] + rest.value) == parsed + [item] + rest.value; }
  }

  lemma OntoEnds(rest: Result<seq<Py>, ParseError>, parsed: seq<Py>)
    ensures Onto([], rest) == rest && Onto(parsed, Ok([])) == Ok(parsed)
    ensures forall e :: Onto(parsed, Err(e)) == Err(e)
  {
    assert parsed + [] == parsed;
    if rest.Ok? { assert [] + rest.value == rest.value; }
  }

  method HandleList(m: ShapeMap, c: Codec, member: Shape, items: seq<Dom>, depth: nat) returns (r: Result<Py, ParseError>)
    requires Closed(m) && InMap(m, member.kind)
    ensures r == Listed(ParseItems(m, c, member, items, depth))
    decreases depth, 2
  {
    hide Parse, Onto;
    var parsed: seq<Py> := [];
    var i := 0;
    OntoEnds(ParseItems(m, c, member, items, depth), parsed);
    assert items[0..] == items;
    while i < |items|
      invariant 0 <= i <= |items|
      invariant ParseItems(m, c, member, items, depth) == Onto(parsed, ParseItems(m, c, member, items[i..], depth))
    {
      assert items[i..][0] == items[i] && items[i..][1..] == items[i + 1..];
      var item := ParseShape(m, c, member, One(items[i]), depth);
      if item.Err? {
        OntoEnds(Ok([]), parsed);
        return Err(item.error);
      }
      OntoNext(parsed, item.value, ParseItems(m, c, member, items[i + 1..], depth));
      parsed := parsed + [item.value];
      i := i + 1;
    }
    OntoEnds(Ok([]), parsed);
    r := Ok(PyList(parsed));
  }

  /** The pairs of one entry; key and value are the loop variables that survive it. */
  method HandleEntry(m: ShapeMap, c: Codec, key: Shape, value: Shape, nodes: seq<Dom>, pair: Pair, depth: nat)
    returns (r: Result<Pair, ParseError>)
    requires Closed(m) && InMap(m, key.kind) && InMap(m, value.kind)
    ensures r == ParsePairs(m, c, key, value, nodes, pair, depth)
    decreases depth, 1
  {
    hide Parse;
    var keyName, valName := pair.key, pair.value;
    var i := 0;
    assert nodes[0..] == nodes;
    while i < |nodes|
      invariant 0 <= i <= |nodes|
      invariant ParsePairs(m, c, key, value, nodes, pair, depth) ==
                ParsePairs(m, c, key, value, nodes[i..], Pair(keyName, valName), depth)
    {
      var single := nodes[i];
      assert nodes[i..][0] == single && nodes[i..][1..] == nodes[i + 1..];
      if single.tag == NonEmptyOr(key.traits.name, "key") {
        var k := ParseShape(m, c, key, One(single), depth);
        if k.Err? { return Err(k.error); }
        keyName := Some(k.value);
      } else if single.tag == NonEmptyOr(value.traits.name, "value") {
        var v := ParseShape(m, c, value, One(single), depth);
        if v.Err? { return Err(v.error); }
        valName := Some(v.value);
      } else {
        return Err(UnknownTag(single.tag));
      }
      i := i + 1;
    }
    r := Ok(Pair(keyName, valName));
  }

  method HandleMap(m: ShapeMap, c: Codec, key: Shape, value: Shape, nodes: seq<Dom>, depth: nat)
    returns (r: Result<Py, ParseError>)
    requires Closed(m) && InMap(m, key.kind) && InMap(m, value.kind)
    ensures r == AsDict(ParseEntries(m, c, key, value, nodes, Pair(None, None), map[], depth))
    decreases depth, 2
  {
    hide Parse, ParsePairs;
    var parsed: map<Py, Py> := map[];
    var pair: Pair := Pair(None, None);
    var i := 0;
    assert nodes[0..] == nodes;
    while i < |nodes|
      invariant 0 <= i <= |nodes|
      invariant ParseEntries(m, c, key, value, nodes, Pair(None, None), map[], depth) ==
                ParseEntries(m, c, key, value, nodes[i..], pair, parsed, depth)
    {
      assert nodes[i..][0] == nodes[i] && nodes[i..][1..] == nodes[i + 1..];
      var p := HandleEntry(m, c, key, value, nodes[i].children, pair, depth);
      if p.Err? { return Err(p.error); }
      pair := p.value;
      if pair.key.None? || pair.value.None? { return Err(UnboundName); }
      if !Hashable(pair.key.value) { return Err(Unhashable); }
      parsed := parsed[pair.key.value := pair.value.value];
      i := i + 1;
    }
    r := Ok(PyDict(parsed));
  }
}
