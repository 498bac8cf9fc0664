/** What botocore/validate.py reports about a value and a shape, and when it reports nothing. */
module Validator {
  import opened Results
  import opened Numerals
  import opened Shapes
  import opened XmlSerializer

  datatype Report =
    | Missing(name: string, required: string)
    | Unknown(name: string, param: Value)
    | InvalidType(name: string, param: Value)
    | InvalidRange(name: string, param: Value, min: Option<int>, max: Option<int>)
    | InvalidLength(name: string, length: nat, min: Option<int>, max: Option<int>)

  /** The reports so far, and whether a shape type without a validator ended the run. */
  datatype Checked = Checked(reports: seq<Report>, crashed: bool)

  function Then(first: Checked, rest: Checked): Checked {
    if first.crashed then first else Checked(first.reports + rest.reports, rest.crashed)
  }

  /** A value with the shape it is checked against and the name it is reported under. */
  datatype Spot = Spot(sh: Shape, v: Value, name: string)

  predicate InRange(x: real, traits: Traits) {
    (traits.min.Some? ==> x >= traits.min.value as real) && (traits.max.Some? ==> x <= traits.max.value as real)
  }

  function CheckLength(n: nat, at: Spot): seq<Report> {
    if InRange(n as real, at.sh.traits) then [] else [InvalidLength(at.name, n, at.sh.traits.min, at.sh.traits.max)]
  }

  /** The numbers of Python; a bool is one of its integers. */
  function Number(v: Value, fractions: bool): Option<real> {
    match v
    case Bool(b) => Some(if b then 1.0 else 0.0)
    case Int(i) => Some(i as real)
    case Float(f) => if fractions then Some(f) else None
    case _ => None
  }

  function CheckNumber(at: Spot, fractions: bool): seq<Report> {
    var x := Number(at.v, fractions);
    if x.None? then [InvalidType(at.name, at.v)]
    else if InRange(x.value, at.sh.traits) then []
    else [InvalidRange(at.name, at.v, at.sh.traits.min, at.sh.traits.max)]
  }

  predicate HasKey(entries: seq<Entry>, key: string) {
    FindEntry(entries, Str(key)).Some?
  }

  function MissingReports(required: seq<string>, entries: seq<Entry>, name: string): seq<Report> {
    if required == [] then []
    else (if HasKey(entries, required[0]) then [] else [Missing(name, required[0])])
         + MissingReports(required[1..], entries, name)
  }

  /** The shape reference of the member that a dict key names. */
  function Known(members: seq<Member>, key: Value): Option<Ref> {
    if key.Str? then FindMember(members, key.s) else None
  }

  function UnknownReports(members: seq<Member>, entries: seq<Entry>, name: string): seq<Report> {
    if entries == [] then []
    else (if Known(members, entries[0].key).Some? then [] else [Unknown(name, entries[0].key)])
         + UnknownReports(members, entries[1..], name)
  }

  /** The reports about the value itself, leaving out what it contains. */
  function Local(c: Codec, at: Spot): seq<Report> {
    match at.sh.kind
    case Structure(members, required) =>
      if at.v.Dict? then MissingReports(required, at.v.entries, at.name) + UnknownReports(members, at.v.entries, at.name)
      else [InvalidType(at.name, at.v)]
    case List(_) => if at.v.Items? then CheckLength(|at.v.items|, at) else [InvalidType(at.name, at.v)]
    case Map(_, _) => if at.v.Dict? then [] else [InvalidType(at.name, at.v)]
    case Scalar(t) =>
      match t
      case StringT => if at.v.Str? then CheckLength(|at.v.s|, at) else [InvalidType(at.name, at.v)]
      case CharacterT => []
      case IntegerT | LongT => CheckNumber(at, false)
      case FloatT | DoubleT => CheckNumber(at, true)
      case BooleanT => if at.v.Bool? then [] else [InvalidType(at.name, at.v)]
      case BlobT => if at.v.Blob? || at.v.Str? || at.v.File? then [] else [InvalidType(at.name, at.v)]
      case TimestampT => if c.asTime(at.v).Some? then [] else [InvalidType(at.name, at.v)]
  }

  /** No _validate_character exists. */
  predicate NoValidator(sh: Shape) {
    sh.kind == Scalar(CharacterT)
  }

  function FieldSpots(m: ShapeMap, c: Codec, members: seq<Member>, entries: seq<Entry>, name: string): (spots: seq<Spot>)
    requires Closed(m) && InMap(m, Structure(members, []))
    ensures forall i :: 0 <= i < |spots| ==> InMap(m, spots[i].sh.kind) && (entries decreases to spots[i].v)
  {
    if entries == [] then []
    else
      var e := entries[0];
      assert (entries decreases to e);
      var found := Known(members, e.key);
      (if found.Some? then [Spot(Resolve(m, found.value), e.value, name + "." + StrOf(c, e.key))] else [])
      + FieldSpots(m, c, members, entries[1..], name)
  }

  function EntrySpots(m: ShapeMap, c: Codec, key: Shape, value: Shape, entries: seq<Entry>, name: string): (spots: seq<Spot>)
    requires InMap(m, key.kind) && InMap(m, value.kind)
    ensures forall i :: 0 <= i < |spots| ==> InMap(m, spots[i].sh.kind) && (entries decreases to spots[i].v)
  {
    if entries == [] then []
    else
      var e := entries[0];
      assert (entries decreases to e);
      [Spot(key, e.key, name + " (key: " + StrOf(c, e.key) + ")"), Spot(value, e.value, name + "." + StrOf(c, e.key))]
      + EntrySpots(m, c, key, value, entries[1..], name)
  }

  /** What the value contains, in the order in which it is checked. */
  function Inside(m: ShapeMap, c: Codec, at: Spot): (spots: seq<Spot>)
    requires Closed(m) && InMap(m, at.sh.kind)
    ensures forall i :: 0 <= i < |spots| ==> InMap(m, spots[i].sh.kind) && (at.v decreases to spots[i].v)
  {
    match at.sh.kind
    case Structure(members, _) =>
      if at.v.Dict? then
        assert (at.v decreases to at.v.entries);
        FieldSpots(m, c, members, at.v.entries, at.name) else []
    case List(ref) =>
      if at.v.Items? then
        seq(|at.v.items|, i requires 0 <= i < |at.v.items| => ItemSpot(m, ref, at, i))
      else []
    case Map(key, value) =>
      if at.v.Dict? then
        assert (at.v decreases to at.v.entries);
        EntrySpots(m, c, Resolve(m, key), Resolve(m, value), at.v.entries, at.name) else []
    case Scalar(_) => []
  }

  function ItemSpot(m: ShapeMap, ref: Ref, at: Spot, i: nat): Spot
    requires ref.shape in m && at.v.Items? && i < |at.v.items|
  {
    Spot(Resolve(m, ref), at.v.items[i], at.name + "[" + NatText(i) + "]")
  }

  /** ParamValidator._validate. */
  function Check(m: ShapeMap, c: Codec, at: Spot): Checked
    requires Closed(m) && InMap(m, at.sh.kind)
    decreases at.v, 1, 0
  {
    Then(Checked(Local(c, at), NoValidator(at.sh)), CheckAll(m, c, Inside(m, c, at), at.v))
  }

  function CheckAll(m: ShapeMap, c: Codec, spots: seq<Spot>, ghost inside: Value): Checked
    requires Closed(m) && forall i :: 0 <= i < |spots| ==> InMap(m, spots[i].sh.kind) && (inside decreases to spots[i].v)
    decreases inside, 0, |spots|
  {
    if spots == [] then Checked([], false)
    else Then(Check(m, c, spots[0]), CheckAll(m, c, spots[1..], inside))
  }
}
