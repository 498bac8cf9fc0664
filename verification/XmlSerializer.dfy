/** RestXMLSerializer of botocore/serialize.py: a value and its shape become XML elements. */
module XmlSerializer {
  import opened Results
  import opened Numerals
  import opened Shapes
  import opened Xml

  datatype SerError = KeyError(key: Value) | AttributeError | TypeError | ValueError | IndexError

  /** Text conversions of the Python libraries. */
  datatype Codec = Codec(
    str: Value -> string,
    readFloat: string -> Option<real>,
    utf8: string -> seq<byte>,
    base64: seq<byte> -> string,
    unbase64: string -> Option<seq<byte>>,
    asTime: Value -> Option<int>,
    timeText: int -> string,
    readTime: string -> Option<int>)

  function Flag(o: Option<bool>): bool {
    o == Some(true)
  }

  function Or(o: Option<string>, default: string): string {
    if o.Some? then o.value else default
  }

  function Truthy(v: Value): bool {
    match v
    case NoneV => false
    case Bool(b) => b
    case Int(i) => i != 0
    case Float(f) => f != 0.0
    case Str(s) => s != ""
    case Blob(bytes) => bytes != []
    case Time(_) => true
    case File(_) => true
    case Items(items) => items != []
    case Dict(entries) => entries != []
  }

  function StrOf(c: Codec, v: Value): string {
    match v
    case Str(s) => s
    case Int(i) => IntText(i)
    case Bool(b) => if b then "True" else "False"
    case _ => c.str(v)
  }

  /** The text node of a scalar. */
  function ScalarText(c: Codec, t: ScalarType, v: Value): Result<string, SerError> {
    match t
    case BooleanT => Ok(if Truthy(v) then "true" else "false")
    case BlobT =>
      if v.Blob? then Ok(c.base64(v.bytes))
      else if v.Str? then Ok(c.base64(c.utf8(v.s)))
      else Err(TypeError)
    case TimestampT =>
      var t := c.asTime(v);
      if t.Some? then Ok(c.timeText(t.value)) else Err(ValueError)
    case _ => Ok(StrOf(c, v))
  }

  function NamespaceAttrs(traits: Traits): map<string, Value> {
    match traits.xmlNamespace
    case None => map[]
    case Some(Namespace(uri, prefix)) =>
      map[(if prefix == "" then "xmlns" else "xmlns:" + prefix) := Str(uri)]
  }

  datatype Body = Body(attrs: map<string, Value>, children: seq<Xml>)

  /** The elements that serializing `v` appends to the current node. */
  function Ser(m: ShapeMap, c: Codec, sh: Shape, v: Value, name: string): Result<seq<Xml>, SerError>
    requires Closed(m) && InMap(m, sh.kind)
    decreases v, 1
  {
    match sh.kind
    case Structure(members, _) =>
      if !v.Dict? then Err(AttributeError)
      else
        var body :- SerFields(m, c, members, v.entries, NamespaceAttrs(sh.traits));
        Ok([Elem(name, body.attrs, None, body.children)])
    case List(ref) =>
      var member := Resolve(m, ref);
      if !v.Items? then Err(TypeError)
      else if Flag(sh.traits.flattened) then SerItems(m, c, member, v.items, name)
      else
        var children :- SerItems(m, c, member, v.items, Or(member.traits.name, "member"));
        Ok([Elem(name, map[], None, children)])
    case Map(keyRef, valueRef) =>
      if !v.Dict? then Err(AttributeError)
      else
        var children :- SerEntries(m, c, Resolve(m, keyRef), Resolve(m, valueRef), v.entries);
        Ok([Elem(name, map[], None, children)])
    case Scalar(t) =>
      var text :- ScalarText(c, t, v);
      Ok([Elem(name, map[], Some(text), [])])
  }

  /** The members of a structure: a None value ends the loop, attributes go to the structure's node. */
  function SerFields(m: ShapeMap, c: Codec, members: seq<Member>, entries: seq<Entry>, attrs: map<string, Value>)
    : Result<Body, SerError>
    requires Closed(m) && InMap(m, Structure(members, []))
    decreases entries, 0
  {
    if entries == [] then Ok(Body(attrs, []))
    else
      var Entry(key, value) := entries[0];
      assert (entries decreases to entries[0]);
      var found := if key.Str? then FindMember(members, key.s) else None;
      if found.None? then Err(KeyError(key))
      else
        var member := Resolve(m, found.value);
        if value.NoneV? then Ok(Body(attrs, []))
        else if Flag(member.traits.xmlAttribute) then
          if member.traits.name.None? then Err(KeyError(Str("name")))
          else SerFields(m, c, members, entries[1..], attrs[member.traits.name.value := value])
        else
          var first :- Ser(m, c, member, value, Or(member.traits.name, key.s));
          var rest :- SerFields(m, c, members, entries[1..], attrs);
          Ok(Body(rest.attrs, first + rest.children))
  }

  function SerItems(m: ShapeMap, c: Codec, member: Shape, items: seq<Value>, name: string): Result<seq<Xml>, SerError>
    requires Closed(m) && InMap(m, member.kind)
    decreases items, 0
  {
    if items == [] then Ok([])
    else
      var first :- Ser(m, c, member, items[0], name);
      var rest :- SerItems(m, c, member, items[1..], name);
      Ok(first + rest)
  }

  function SerEntries(m: ShapeMap, c: Codec, key: Shape, value: Shape, entries: seq<Entry>): Result<seq<Xml>, SerError>
    requires Closed(m) && InMap(m, key.kind) && InMap(m, value.kind)
    decreases entries, 0
  {
    if entries == [] then Ok([])
    else
      var Entry(dictKey, dictValue) := entries[0];
      assert (entries decreases to entries[0]);
      var k :- Ser(m, c, key, dictKey, Or(key.traits.name, "key"));
      var v :- Ser(m, c, value, dictValue, Or(value.traits.name, "value"));
      var rest :- SerEntries(m, c, key, value, entries[1..]);
      Ok([Elem("entry", map[], None, k + v)] + rest)
  }

  /** _serialize_body_params up to the text form: the first child of a pseudo root. */
  function SerializeBody(m: ShapeMap, c: Codec, sh: Shape, params: Value): Result<Xml, SerError>
    requires Closed(m) && InMap(m, sh.kind)
  {
    if sh.traits.name.None? then Err(KeyError(Str("name")))
    else
      var roots :- Ser(m, c, sh, params, sh.traits.name.value);
      if roots == [] then Err(TypeError) else Ok(roots[0])
  }
}
