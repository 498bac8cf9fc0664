/** QuerySerializer and EC2Serializer of botocore/serialize.py: a value becomes assignments to a flat dictionary. */
module QuerySerializer {
  import opened Results
  import opened Numerals
  import opened Assignments
  import opened Dots
  import opened Shapes
  import opened XmlSerializer

  /** EC2 capitalizes location names; upper is str.upper on one character. */
  datatype Protocol = Query | EC2(upper: char -> string)

  /** The assignments made, in order, and the exception that ended them. */
  datatype Run = Run(writes: seq<Write<Value>>, error: Option<SerError>)

  function Fail(e: SerError): Run {
    Run([], Some(e))
  }

  function Then(first: Run, rest: Run): Run {
    if first.error.Some? then first else Run(first.writes + rest.writes, rest.error)
  }

  /** _get_serialized_name. */
  function NameOf(p: Protocol, traits: Traits, default: string): Result<string, SerError> {
    match p
    case Query => Ok(Or(traits.name, default))
    case EC2(upper) =>
      if traits.queryName.Some? then Ok(traits.queryName.value)
      else if traits.name.Some? then
        var name := traits.name.value;
        if name == "" then Err(IndexError) else Ok(upper(name[0]) + name[1..])
      else Ok(default)
  }

  function MemberPrefix(prefix: string, name: string): string {
    if prefix != "" then prefix + "." + name else name
  }

  /** The name that replaces the last part of a flattened list's prefix. */
  function Renamed(p: Protocol, sh: Shape, member: Shape): Option<string> {
    if p.Query? && Flag(sh.traits.flattened) && Or(member.traits.name, "") != "" then member.traits.name else None
  }

  function ListPrefix(p: Protocol, sh: Shape, member: Shape, prefix: string): string {
    match Renamed(p, sh, member)
    case Some(name) =>
      var parts := SplitDots(prefix);
      JoinDots(parts[..|parts| - 1] + [name])
    case None => if p.EC2? || Flag(sh.traits.flattened) then prefix else prefix + ".member"
  }

  function MapPrefix(sh: Shape, prefix: string): string {
    if Flag(sh.traits.flattened) then prefix else prefix + ".entry"
  }

  /** What is stored for a scalar. */
  function Leaf(c: Codec, t: ScalarType, v: Value): Result<Value, SerError> {
    match t
    case BooleanT | BlobT | TimestampT =>
      var text :- ScalarText(c, t, v);
      Ok(Str(text))
    case _ => Ok(v)
  }

  function Ser(m: ShapeMap, c: Codec, p: Protocol, sh: Shape, v: Value, prefix: string): Run
    requires Closed(m) && InMap(m, sh.kind)
    decreases v, 1
  {
    match sh.kind
    case Structure(members, _) =>
      if !v.Dict? then Fail(AttributeError) else SerFields(m, c, p, members, v.entries, prefix)
    case List(ref) =>
      var member := Resolve(m, ref);
      if p.Query? && !Truthy(v) then Run([Write(prefix, Str(""))], None)
      else if !v.Items? then Fail(TypeError)
      else SerItems(m, c, p, member, v.items, ListPrefix(p, sh, member, prefix), 1)
    case Map(keyRef, valueRef) =>
      var key, value := Resolve(m, keyRef), Resolve(m, valueRef);
      var k, w := NameOf(p, key.traits, "key"), NameOf(p, value.traits, "value");
      if k.Err? then Fail(k.error)
      else if w.Err? then Fail(w.error)
      else if !v.Dict? then Fail(TypeError)
      else SerEntries(m, c, p, key, value, v.entries, MapPrefix(sh, prefix), 1, k.value, w.value)
    case Scalar(t) =>
      var leaf := Leaf(c, t, v);
      if leaf.Ok? then Run([Write(prefix, leaf.value)], None) else Fail(leaf.error)
  }

  function SerFields(m: ShapeMap, c: Codec, p: Protocol, members: seq<Member>, entries: seq<Entry>, prefix: string): Run
    requires Closed(m) && InMap(m, Structure(members, []))
    decreases entries, 0
  {
    if entries == [] then Run([], None)
    else
      assert (entries decreases to entries[0]);
      Then(SerField(m, c, p, members, entries[0], prefix), SerFields(m, c, p, members, entries[1..], prefix))
  }

  function SerField(m: ShapeMap, c: Codec, p: Protocol, members: seq<Member>, e: Entry, prefix: string): Run
    requires Closed(m) && InMap(m, Structure(members, []))
    decreases e, 2
  {
    var found := if e.key.Str? then FindMember(members, e.key.s) else None;
    if found.None? then Fail(KeyError(e.key))
    else
      var member := Resolve(m, found.value);
      match NameOf(p, member.traits, e.key.s)
      case Err(e) => Fail(e)
      case Ok(name) => Ser(m, c, p, member, e.value, MemberPrefix(prefix, name))
  }

  /** The elements, numbered from i. */
  function SerItems(m: ShapeMap, c: Codec, p: Protocol, member: Shape, items: seq<Value>, prefix: string, i: nat): Run
    requires Closed(m) && InMap(m, member.kind)
    decreases items, 0
  {
    if items == [] then Run([], None)
    else
      Then(Ser(m, c, p, member, items[0], prefix + "." + NatText(i)), SerItems(m, c, p, member, items[1..], prefix, i + 1))
  }

  function SerEntries(m: ShapeMap, c: Codec, p: Protocol, key: Shape, value: Shape, entries: seq<Entry>, prefix: string,
                      i: nat, k: string, w: string): Run
    requires Closed(m) && InMap(m, key.kind) && InMap(m, value.kind)
    decreases entries, 0
  {
    if entries == [] then Run([], None)
    else
      assert (entries decreases to entries[0]);
      Then(SerEntry(m, c, p, key, value, entries[0], prefix + "." + NatText(i), k, w),
           SerEntries(m, c, p, key, value, entries[1..], prefix, i + 1, k, w))
  }

  function SerEntry(m: ShapeMap, c: Codec, p: Protocol, key: Shape, value: Shape, e: Entry, prefix: string,
                    k: string, w: string): Run
    requires Closed(m) && InMap(m, key.kind) && InMap(m, value.kind)
    decreases e, 2
  {
    Then(Ser(m, c, p, key, e.key, prefix + "." + k), Ser(m, c, p, value, e.value, prefix + "." + w))
  }
}
