/** Shape models, shape references and the Python values that shapes describe (botocore/model.py). */
module Shapes {
  import opened Results

  /** The serialization and range attributes of a shape; a reference's own attributes win. */
  datatype Traits = Traits(
    name: Option<string>,
    queryName: Option<string>,
    flattened: Option<bool>,
    location: Option<string>,
    xmlAttribute: Option<bool>,
    xmlNamespace: Option<Namespace>,
    min: Option<int>,
    max: Option<int>)

  datatype Namespace = Namespace(uri: string, prefix: string)

  datatype ScalarType =
    StringT | CharacterT | IntegerT | LongT | FloatT | DoubleT | BooleanT | BlobT | TimestampT

  /** A reference to a shape by name, with member traits of its own. */
  datatype Ref = Ref(shape: string, traits: Traits)

  datatype Member = Member(name: string, ref: Ref)

  datatype Kind =
    | Structure(members: seq<Member>, required: seq<string>)
    | List(member: Ref)
    | Map(key: Ref, value: Ref)
    | Scalar(scalar: ScalarType)

  datatype Shape = Shape(kind: Kind, traits: Traits)

  /** The shapes of a service by name. Shapes may refer to each other in cycles. */
  type ShapeMap = map<string, Shape>

  function Over<T>(own: Option<T>, base: Option<T>): Option<T> {
    if own.Some? then own else base
  }

  function Merge(own: Traits, base: Traits): Traits {
    Traits(
      Over(own.name, base.name),
      Over(own.queryName, base.queryName),
      Over(own.flattened, base.flattened),
      Over(own.location, base.location),
      Over(own.xmlAttribute, base.xmlAttribute),
      Over(own.xmlNamespace, base.xmlNamespace),
      Over(own.min, base.min),
      Over(own.max, base.max))
  }

  function Refs(kind: Kind): seq<Ref> {
    match kind
    case Structure(members, _) => seq(|members|, i requires 0 <= i < |members| => members[i].ref)
    case List(member) => [member]
    case Map(key, value) => [key, value]
    case Scalar(_) => []
  }

  /** All references lead into a set of shapes. */
  predicate Reaches(kind: Kind, names: set<string>) {
    forall r :: r in Refs(kind) ==> r.shape in names
  }

  /** Every reference names a shape of the map. */
  ghost predicate Closed(m: ShapeMap) {
    forall n :: n in m ==> InMap(m, m[n].kind)
  }

  predicate InMap(m: ShapeMap, kind: Kind) {
    match kind
    case Structure(members, _) => forall i :: 0 <= i < |members| ==> members[i].ref.shape in m
    case List(member) => member.shape in m
    case Map(key, value) => key.shape in m && value.shape in m
    case Scalar(_) => true
  }

  function Resolve(m: ShapeMap, ref: Ref): Shape
    requires ref.shape in m
  {
    Shape(m[ref.shape].kind, Merge(ref.traits, m[ref.shape].traits))
  }

  /** An attribute of a reference has a value: its own, or else that of the shape it leads to. */
  predicate Says<T(==)>(own: Option<T>, base: Option<T>, value: T) {
    own == Some(value) || (own == None && base == Some(value))
  }

  predicate Silent<T>(own: Option<T>, base: Option<T>) {
    own.None? && base.None?
  }

  /** `key in members` and `members[key]` of a structure. */
  function FindMember(members: seq<Member>, key: string): (r: Option<Ref>)
    ensures r.Some? <==> exists i :: 0 <= i < |members| && members[i].name == key
    ensures r.Some? ==> exists i :: 0 <= i < |members| && members[i] == Member(key, r.value)
  {
    if members == [] then None
    else if members[0].name == key then
      assert members[0] == Member(key, members[0].ref);
      Some(members[0].ref)
    else
      var r := FindMember(members[1..], key);
      assert r.Some? ==> exists i :: 0 <= i < |members[1..]| && members[1..][i] == Member(key, r.value);
      assert forall i :: 0 <= i < |members[1..]| ==> members[1..][i] == members[i + 1];
      assert forall i :: 1 <= i < |members| ==> members[i] == members[1..][i - 1];
      r
  }

  newtype byte = x: int | 0 <= x < 256

  /** Python values as callers pass them; a dict keeps its iteration order. */
  datatype Value =
    | NoneV
    | Bool(b: bool)
    | Int(i: int)
    | Float(f: real)
    | Str(s: string)
    | Blob(bytes: seq<byte>)
    | Time(instant: int)
    | File(id: int)
    | Items(items: seq<Value>)
    | Dict(entries: seq<Entry>)

  datatype Entry = Entry(key: Value, value: Value)

  /** A Python dict holds every key once. */
  predicate DistinctKeys(entries: seq<Entry>) {
    forall i, j :: 0 <= i < j < |entries| ==> entries[i].key != entries[j].key
  }

  function FindEntry(entries: seq<Entry>, key: Value): (r: Option<Value>)
    ensures r.Some? <==> exists i :: 0 <= i < |entries| && entries[i].key == key
    ensures r.Some? ==> exists i :: 0 <= i < |entries| && entries[i] == Entry(key, r.value)
  {
    if entries == [] then None
    else if entries[0].key == key then
      assert entries[0] == Entry(key, entries[0].value);
      Some(entries[0].value)
    else
      var r := FindEntry(entries[1..], key);
      assert forall i :: 0 <= i < |entries[1..]| ==> entries[1..][i] == entries[i + 1];
      assert forall i :: 1 <= i < |entries| ==> entries[i] == entries[1..][i - 1];
      r
  }
}
