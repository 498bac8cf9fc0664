/** BaseXMLResponseParser of botocore/parsers.py: XML elements become Python values. */
module XmlParser {
  import opened Results
  import opened Numerals
  import opened Shapes
  import opened Xml
  import XmlSerializer
  import opened S = XmlSerializer

  /** Parsed Python values; a dict is unordered. */
  datatype Py =
    | PyNone
    | PyBool(b: bool)
    | PyInt(i: int)
    | PyFloat(f: real)
    | PyStr(s: string)
    | PyBlob(bytes: seq<byte>)
    | PyTime(instant: int)
    | PyFile(id: int)
    | PyList(items: seq<Py>)
    | PyDict(entries: map<Py, Py>)
    | PyNodes(found: Found)

  datatype ParseError = RecursionError | ParseValueError | UnknownTag(tag: string) | NotText | UnboundName | Unhashable

  function Iterate(node: Found): seq<Dom> {
    match node
    case One(d) => d.children
    case Many(ds) => ds
  }

  /** A flattened collection with a single element is a list of that element. */
  function Elements(node: Found, flattened: bool): seq<Dom> {
    if flattened && node.One? then [node.node] else Iterate(node)
  }

  function BuildNames(items: seq<Dom>): map<string, Found>
  {
    if items == [] then map[]
    else
      var names := BuildNames(items[..|items| - 1]);
      AddName(names, items[|items| - 1])
  }

  function AddName(names: map<string, Found>, item: Dom): map<string, Found> {
    if item.tag in names then
      match names[item.tag]
      case Many(ds) => names[item.tag := Many(ds + [item])]
      case One(d) => names[item.tag := Many([d, item])]
    else names[item.tag := One(item)]
  }

  function MemberKeyName(m: ShapeMap, sh: Shape, memberName: string): string
    requires InMap(m, sh.kind)
  {
    if sh.kind.List? && Flag(sh.traits.flattened) && Resolve(m, sh.kind.member).traits.name.Some? then
      Resolve(m, sh.kind.member).traits.name.value
    else Or(sh.traits.name, memberName)
  }

  function NonEmptyOr(o: Option<string>, default: string): string {
    if o.Some? && o.value != "" then o.value else default
  }

  function ParseScalar(c: Codec, t: ScalarType, node: Found): Result<Py, ParseError> {
    match node
    case One(d) =>
      var text := Or(d.text, "");
      (match t
       case BooleanT => Ok(PyBool(text == "true"))
       case IntegerT => var i := ReadInt(text); if i.Some? then Ok(PyInt(i.value)) else Err(ParseValueError)
       case LongT => var i := ReadInt(text); if i.Some? then Ok(PyInt(i.value)) else Err(ParseValueError)
       case FloatT => var f := c.readFloat(text); if f.Some? then Ok(PyFloat(f.value)) else Err(ParseValueError)
       case DoubleT => var f := c.readFloat(text); if f.Some? then Ok(PyFloat(f.value)) else Err(ParseValueError)
       case TimestampT => var i := c.readTime(text); if i.Some? then Ok(PyTime(i.value)) else Err(ParseValueError)
       case BlobT => var b := c.unbase64(text); if b.Some? then Ok(PyBlob(b.value)) else Err(ParseValueError)
       case StringT => Ok(PyStr(text))
       case CharacterT => Ok(PyStr(text)))
    case Many(_) =>
      // A list has no text attribute, so the handlers see the list itself.
      if t.BooleanT? then Ok(PyBool(false))
      else if t.StringT? || t.CharacterT? then Ok(PyNodes(node))
      else Err(NotText)
  }

  predicate Hashable(p: Py) {
    !p.PyList? && !p.PyDict? && !(p.PyNodes? && p.found.Many?)
  }

  /** Parsing a node under a shape. `depth` is what is left of Python's recursion limit. */
  function Parse(m: ShapeMap, c: Codec, sh: Shape, node: Found, depth: nat): Result<Py, ParseError>
    requires Closed(m) && InMap(m, sh.kind)
    decreases depth, 0
  {
    if depth == 0 then Err(RecursionError)
    else
      match sh.kind
      case Structure(members, _) =>
        var entries :- ParseMembers(m, c, members, BuildNames(Iterate(node)), depth - 1);
        Ok(PyDict(entries))
      case List(member) =>
        var items :- ParseItems(m, c, Resolve(m, member), Elements(node, Flag(sh.traits.flattened)), depth - 1);
        Ok(PyList(items))
      case Map(key, value) =>
        var entries :- ParseEntries(m, c, Resolve(m, key), Resolve(m, value),
          Elements(node, Flag(sh.traits.flattened)), Pair(None, None), map[], depth - 1);
        Ok(PyDict(entries))
      case Scalar(t) => ParseScalar(c, t, node)
  }

  function ParseMembers(m: ShapeMap, c: Codec, members: seq<Member>, names: map<string, Found>, depth: nat)
    : Result<map<Py, Py>, ParseError>
    requires Closed(m) && InMap(m, Structure(members, []))
    decreases depth, 2, |members|
  {
    if members == [] then Ok(map[])
    else
      var last := members[|members| - 1];
      var parsed :- ParseMembers(m, c, members[..|members| - 1], names, depth);
      ParseMember(m, c, last, names, parsed, depth)
  }

  function ParseMember(m: ShapeMap, c: Codec, member: Member, names: map<string, Found>, parsed: map<Py, Py>, depth: nat)
    : Result<map<Py, Py>, ParseError>
    requires Closed(m) && member.ref.shape in m
    decreases depth, 1
  {
    var sh := Resolve(m, member.ref);
    var tag := MemberKeyName(m, sh, member.name);
    if sh.traits.location.Some? || tag !in names then Ok(parsed)
    else
      var value :- Parse(m, c, sh, names[tag], depth);
      Ok(parsed[PyStr(member.name) := value])
  }

  function ParseItems(m: ShapeMap, c: Codec, member: Shape, items: seq<Dom>, depth: nat): Result<seq<Py>, ParseError>
    requires Closed(m) && InMap(m, member.kind)
    decreases depth, 1, |items|
  {
    if items == [] then Ok([])
    else
      var first :- Parse(m, c, member, One(items[0]), depth);
      var rest :- ParseItems(m, c, member, items[1..], depth);
      Ok([first] + rest)
  }

  /** The local variables key_name and val_name, which outlive an entry. */
  datatype Pair = Pair(key: Option<Py>, value: Option<Py>)

  function ParsePairs(m: ShapeMap, c: Codec, key: Shape, value: Shape, nodes: seq<Dom>, pair: Pair, depth: nat)
    : Result<Pair, ParseError>
    requires Closed(m) && InMap(m, key.kind) && InMap(m, value.kind)
    decreases depth, 1, |nodes|
  {
    if nodes == [] then Ok(pair)
    else if nodes[0].tag == NonEmptyOr(key.traits.name, "key") then
      var k :- Parse(m, c, key, One(nodes[0]), depth);
      ParsePairs(m, c, key, value, nodes[1..], pair.(key := Some(k)), depth)
    else if nodes[0].tag == NonEmptyOr(value.traits.name, "value") then
      var v :- Parse(m, c, value, One(nodes[0]), depth);
      ParsePairs(m, c, key, value, nodes[1..], pair.(value := Some(v)), depth)
    else Err(UnknownTag(nodes[0].tag))
  }

  function ParseEntries(m: ShapeMap, c: Codec, key: Shape, value: Shape, nodes: seq<Dom>, pair: Pair, parsed: map<Py, Py>, depth: nat)
    : Result<map<Py, Py>, ParseError>
    requires Closed(m) && InMap(m, key.kind) && InMap(m, value.kind)
    decreases depth, 2, |nodes|
  {
    if nodes == [] then Ok(parsed)
    else
      var p :- ParsePairs(m, c, key, value, nodes[0].children, pair, depth);
      if p.key.None? || p.value.None? then Err(UnboundName)
      else if !Hashable(p.key.value) then Err(Unhashable)
      else ParseEntries(m, c, key, value, nodes[1..], p, parsed[p.key.value := p.value.value], depth)
  }
}
