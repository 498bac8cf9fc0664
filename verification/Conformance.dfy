/** Validation is exact: it reports the violations of a shape, all of them, and nothing else. */
module Conformance {
  import opened Results
  import opened Numerals
  import opened Shapes
  import opened XmlSerializer
  import opened Validator

  /** The Python types a validator accepts. */
  predicate RightType(c: Codec, kind: Kind, v: Value) {
    match kind
    case Structure(_, _) | Map(_, _) => v.Dict?
    case List(_) => v.Items?
    case Scalar(t) =>
      match t
      case StringT => v.Str?
      case CharacterT => true
      case IntegerT | LongT => v.Int? || v.Bool?
      case FloatT | DoubleT => v.Int? || v.Bool? || v.Float?
      case BooleanT => v.Bool?
      case BlobT => v.Blob? || v.Str? || v.File?
      case TimestampT => c.asTime(v).Some?
  }

  predicate Between(x: real, min: Option<int>, max: Option<int>) {
    !(min.Some? && x < min.value as real) && !(max.Some? && x > max.value as real)
  }

  /** The min and max of lists and strings bound the length, those of numbers the value; a bool is one or zero. */
  predicate RightSize(sh: Shape, v: Value) {
    var min, max := sh.traits.min, sh.traits.max;
    match (sh.kind, v)
    case (List(_), Items(items)) => Between(|items| as real, min, max)
    case (Scalar(StringT), Str(s)) => Between(|s| as real, min, max)
    case (Scalar(t), Int(i)) => Numeric(t) ==> Between(i as real, min, max)
    case (Scalar(t), Float(f)) => Numeric(t) ==> Between(f, min, max)
    case (Scalar(t), Bool(b)) => Numeric(t) ==> Between(if b then 1.0 else 0.0, min, max)
    case _ => true
  }

  predicate Numeric(t: ScalarType) {
    t.IntegerT? || t.LongT? || t.FloatT? || t.DoubleT?
  }

  predicate Contains(entries: seq<Entry>, key: Value) {
    exists i :: 0 <= i < |entries| && entries[i].key == key
  }

  predicate IsMember(members: seq<Member>, key: Value) {
    key.Str? && exists i :: 0 <= i < |members| && members[i].name == key.s
  }

  lemma MemberIsFound(members: seq<Member>, key: Value)
    ensures IsMember(members, key) <==> Known(members, key).Some?
    ensures IsMember(members, key) ==> Known(members, key) == FindMember(members, key.s)
  {
  }

  /** A value fits a shape. */
  predicate Conforms(m: ShapeMap, c: Codec, sh: Shape, v: Value)
    requires Closed(m) && InMap(m, sh.kind)
    decreases v
  {
    && RightType(c, sh.kind, v) && RightSize(sh, v) && sh.kind != Scalar(CharacterT)
    && match sh.kind
       case Structure(members, required) =>
         && (forall i :: 0 <= i < |required| ==> Contains(v.entries, Str(required[i])))
         && (forall i :: 0 <= i < |v.entries| ==>
               && IsMember(members, v.entries[i].key)
               && Conforms(m, c, Resolve(m, FindMember(members, v.entries[i].key.s).value), v.entries[i].value))
       case List(ref) => forall i :: 0 <= i < |v.items| ==> Conforms(m, c, Resolve(m, ref), v.items[i])
       case Map(key, value) =>
         forall i :: 0 <= i < |v.entries| ==>
           Conforms(m, c, Resolve(m, key), v.entries[i].key) && Conforms(m, c, Resolve(m, value), v.entries[i].value)
       case Scalar(_) => true
  }

  // ----- Reports about the value itself

  /** What each kind of report asserts. */
  ghost predicate Violation(c: Codec, at: Spot, r: Report) {
    && r.name == at.name
    && match r
       case Missing(_, required) =>
         at.sh.kind.Structure? && at.v.Dict? && required in at.sh.kind.required && !Contains(at.v.entries, Str(required))
       case Unknown(_, param) =>
         at.sh.kind.Structure? && at.v.Dict? && !IsMember(at.sh.kind.members, param) && Contains(at.v.entries, param)
       case InvalidType(_, param) => param == at.v && !RightType(c, at.sh.kind, at.v)
       case InvalidRange(_, param, min, max) =>
         param == at.v && min == at.sh.traits.min && max == at.sh.traits.max
         && (at.v.Bool? || at.v.Int? || at.v.Float?) && RightType(c, at.sh.kind, at.v) && !RightSize(at.sh, at.v)
       case InvalidLength(_, n, min, max) =>
         min == at.sh.traits.min && max == at.sh.traits.max && RightType(c, at.sh.kind, at.v) && !RightSize(at.sh, at.v)
         && ((at.v.Str? && n == |at.v.s|) || (at.v.Items? && n == |at.v.items|))
  }

  lemma {:induction false} MissingExact(required: seq<string>, entries: seq<Entry>, name: string, r: Report)
    ensures r in MissingReports(required, entries, name) <==>
            r.Missing? && r.name == name && r.required in required && !Contains(entries, Str(r.required))
    decreases |required|
  {
    if required != [] {
      MissingExact(required[1..], entries, name, r);
      assert required == [required[0]] + required[1..];
    }
  }

  lemma {:induction false} UnknownExact(members: seq<Member>, entries: seq<Entry>, name: string, r: Report)
    ensures r in UnknownReports(members, entries, name) <==>
            r.Unknown? && r.name == name && !IsMember(members, r.param) && Contains(entries, r.param)
    decreases |entries|
  {
    if entries != [] {
      UnknownExact(members, entries[1..], name, r);
      MemberIsFound(members, entries[0].key);
      hide Known, IsMember;
      if r.Unknown? {
        assert Contains(entries, r.param) <==> entries[0].key == r.param || Contains(entries[1..], r.param) by {
          assert forall i :: 0 <= i < |entries[1..]| ==> entries[1..][i] == entries[i + 1];
          assert forall i :: 1 <= i < |entries| ==> entries[i] == entries[1..][i - 1];
        }
      }
    }
  }

  lemma LocalExact(c: Codec, at: Spot, r: Report)
    ensures r in Local(c, at) <==> Violation(c, at, r)
  {
    match at.sh.kind
    case Structure(_, _) => StructureExact(c, at, r);
    case List(_) =>
    case Map(_, _) =>
    case Scalar(_) => ScalarExact(c, at, r);
  }

  lemma StructureExact(c: Codec, at: Spot, r: Report)
    requires at.sh.kind.Structure?
    ensures r in Local(c, at) <==> Violation(c, at, r)
  {
    hide MissingReports, UnknownReports, IsMember, Contains;
    if at.v.Dict? {
      var Structure(members, required) := at.sh.kind;
      MissingExact(required, at.v.entries, at.name, r);
      UnknownExact(members, at.v.entries, at.name, r);
    }
  }

  lemma ScalarExact(c: Codec, at: Spot, r: Report)
    requires at.sh.kind.Scalar?
    ensures r in Local(c, at) <==> Violation(c, at, r)
  {
    hide MissingReports, UnknownReports, IsMember, Contains;
  }

  // ----- Reports about everything inside

  function KeyText(c: Codec, key: Value): string {
    match key
    case Str(s) => s
    case Int(i) => IntText(i)
    case Bool(true) => "True"
    case Bool(false) => "False"
    case _ => c.str(key)
  }

  /** What a value contains: known members, numbered items, and the keys and values of a map. */
  ghost predicate ChildOf(m: ShapeMap, c: Codec, at: Spot, child: Spot)
    requires Closed(m) && InMap(m, at.sh.kind)
  {
    && InMap(m, child.sh.kind)
    && match at.sh.kind
       case Structure(members, _) =>
         at.v.Dict? && exists i :: 0 <= i < |at.v.entries| && FieldChild(m, members, at.v.entries[i], at.name, child)
       case List(ref) =>
         at.v.Items? && exists i :: 0 <= i < |at.v.items| && ItemChild(Resolve(m, ref), at.v.items[i], i, at.name, child)
       case Map(key, value) =>
         var ks, vs := Resolve(m, key), Resolve(m, value);
         at.v.Dict? && exists i :: 0 <= i < |at.v.entries| && EntryChild(c, ks, vs, at.v.entries[i], at.name, child)
       case Scalar(_) => false
  }

  predicate FieldChild(m: ShapeMap, members: seq<Member>, e: Entry, name: string, child: Spot)
    requires Closed(m) && InMap(m, Structure(members, []))
  {
    IsMember(members, e.key) && child == Spot(Resolve(m, FindMember(members, e.key.s).value), e.value, name + "." + e.key.s)
  }

  predicate ItemChild(element: Shape, v: Value, i: int, name: string, child: Spot) {
    child == Spot(element, v, name + "[" + IntText(i) + "]")
  }

  predicate EntryChild(c: Codec, key: Shape, value: Shape, e: Entry, name: string, child: Spot) {
    || child == Spot(key, e.key, name + " (key: " + KeyText(c, e.key) + ")")
    || child == Spot(value, e.value, name + "." + KeyText(c, e.key))
  }

  lemma {:induction false} FieldChildren(m: ShapeMap, c: Codec, members: seq<Member>, entries: seq<Entry>, name: string, child: Spot)
    requires Closed(m) && InMap(m, Structure(members, []))
    ensures child in FieldSpots(m, c, members, entries, name) <==>
            exists i :: 0 <= i < |entries| && FieldChild(m, members, entries[i], name, child)
    decreases |entries|
  {
    if entries != [] {
      FieldChildren(m, c, members, entries[1..], name, child);
      MemberIsFound(members, entries[0].key);
      hide Known, IsMember, FindMember, Resolve;
      assert child in FieldSpots(m, c, members, entries, name) <==>
        FieldChild(m, members, entries[0], name, child) || child in FieldSpots(m, c, members, entries[1..], name);
      hide FieldChild, FieldSpots;
      assert forall i :: 1 <= i < |entries| ==> entries[i] == entries[1..][i - 1];
      assert forall i :: 0 <= i < |entries[1..]| ==> entries[1..][i] == entries[i + 1];
    }
  }

  lemma {:induction false} EntryChildren(m: ShapeMap, c: Codec, key: Shape, value: Shape, entries: seq<Entry>, name: string, child: Spot)
    requires InMap(m, key.kind) && InMap(m, value.kind)
    ensures child in EntrySpots(m, c, key, value, entries, name) <==>
            exists i :: 0 <= i < |entries| && EntryChild(c, key, value, entries[i], name, child)
    decreases |entries|
  {
    if entries != [] {
      EntryChildren(m, c, key, value, entries[1..], name, child);
      assert KeyText(c, entries[0].key) == StrOf(c, entries[0].key);
      hide KeyText, StrOf;
      assert child in EntrySpots(m, c, key, value, entries, name) <==>
        EntryChild(c, key, value, entries[0], name, child) || child in EntrySpots(m, c, key, value, entries[1..], name);
      hide EntryChild, EntrySpots;
      assert forall i :: 1 <= i < |entries| ==> entries[i] == entries[1..][i - 1];
      assert forall i :: 0 <= i < |entries[1..]| ==> entries[1..][i] == entries[i + 1];
    }
  }

  /** The validator goes on to exactly what the value contains. */
  lemma ChildrenExact(m: ShapeMap, c: Codec, at: Spot, child: Spot)
    requires Closed(m) && InMap(m, at.sh.kind)
    ensures child in Inside(m, c, at) <==> ChildOf(m, c, at, child)
  {
    match at.sh.kind
    case Structure(members, _) =>
      if at.v.Dict? {
        FieldChildren(m, c, members, at.v.entries, at.name, child);
        hide FieldSpots, FieldChild;
      }
    case List(ref) =>
      if at.v.Items? {
        var spots := Inside(m, c, at);
        assert forall i :: 0 <= i < |spots| ==> ItemChild(Resolve(m, ref), at.v.items[i], i, at.name, spots[i]);
      }
    case Map(key, value) =>
      if at.v.Dict? {
        EntryChildren(m, c, Resolve(m, key), Resolve(m, value), at.v.entries, at.name, child);
        hide EntrySpots, EntryChild;
      }
    case Scalar(_) =>
  }

  /** A way down from a value. */
  ghost predicate Leads(m: ShapeMap, c: Codec, at: Spot, way: seq<Spot>)
    requires Closed(m) && InMap(m, at.sh.kind)
    decreases |way|
  {
    way != [] ==> ChildOf(m, c, at, way[0]) && Leads(m, c, way[0], way[1..])
  }

  function EndOf(at: Spot, way: seq<Spot>): Spot {
    if way == [] then at else way[|way| - 1]
  }

  ghost predicate Violated(m: ShapeMap, c: Codec, at: Spot, r: Report)
    requires Closed(m) && InMap(m, at.sh.kind)
  {
    exists way :: Leads(m, c, at, way) && Violation(c, EndOf(at, way), r)
  }

  lemma ViolatedInside(m: ShapeMap, c: Codec, at: Spot, r: Report)
    requires Closed(m) && InMap(m, at.sh.kind)
    ensures Violated(m, c, at, r) <==>
      (Violation(c, at, r) || exists i :: 0 <= i < |Inside(m, c, at)| && Violated(m, c, Inside(m, c, at)[i], r))
  {
    hide Violation, Inside, ChildOf;
    var spots := Inside(m, c, at);
    if Violated(m, c, at, r) {
      var way :| Leads(m, c, at, way) && Violation(c, EndOf(at, way), r);
      if way != [] {
        ChildrenExact(m, c, at, way[0]);
        var i :| 0 <= i < |spots| && spots[i] == way[0];
        assert EndOf(way[0], way[1..]) == EndOf(at, way);
        assert Leads(m, c, spots[i], way[1..]);
      }
    }
    if Violation(c, at, r) {
      assert Leads(m, c, at, []) && EndOf(at, []) == at;
    }
    if i :| 0 <= i < |spots| && Violated(m, c, spots[i], r) {
      var way :| Leads(m, c, spots[i], way) && Violation(c, EndOf(spots[i], way), r);
      ChildrenExact(m, c, at, spots[i]);
      assert ([spots[i]] + way)[1..] == way && EndOf(at, [spots[i]] + way) == EndOf(spots[i], way);
      assert Leads(m, c, at, [spots[i]] + way);
    }
  }

  /** Every report names a violation somewhere in the value, and unless the run was cut short every violation is
      reported. */
  lemma {:induction false} ReportsExact(m: ShapeMap, c: Codec, at: Spot, r: Report)
    requires Closed(m) && InMap(m, at.sh.kind)
    ensures r in Check(m, c, at).reports ==> Violated(m, c, at, r)
    ensures !Check(m, c, at).crashed && Violated(m, c, at, r) ==> r in Check(m, c, at).reports
    decreases at.v, 1, 0
  {
    LocalExact(c, at, r);
    AllExact(m, c, Inside(m, c, at), at.v, r);
    ViolatedInside(m, c, at, r);
    hide Local, Inside, Violated, Violation, CheckAll;
  }

  lemma {:induction false} AllExact(m: ShapeMap, c: Codec, spots: seq<Spot>, inside: Value, r: Report)
    requires Closed(m) && forall i :: 0 <= i < |spots| ==> InMap(m, spots[i].sh.kind) && (inside decreases to spots[i].v)
    ensures r in CheckAll(m, c, spots, inside).reports ==> exists i :: 0 <= i < |spots| && Violated(m, c, spots[i], r)
    ensures !CheckAll(m, c, spots, inside).crashed ==>
      forall i :: 0 <= i < |spots| && Violated(m, c, spots[i], r) ==> r in CheckAll(m, c, spots, inside).reports
    decreases inside, 0, |spots|
  {
    if spots != [] {
      ReportsExact(m, c, spots[0], r);
      AllExact(m, c, spots[1..], inside, r);
      hide Violated, Check;
      assert forall i :: 1 <= i < |spots| ==> spots[i] == spots[1..][i - 1];
    }
  }

  // ----- No report at all

  predicate Clean(r: Checked) {
    r.reports == [] && !r.crashed
  }

  lemma CleanThen(first: Checked, rest: Checked)
    ensures Clean(Then(first, rest)) <==> Clean(first) && Clean(rest)
  {
  }

  /** The conditions on the value itself. */
  predicate LocallyFits(c: Codec, sh: Shape, v: Value) {
    && RightType(c, sh.kind, v) && RightSize(sh, v) && sh.kind != Scalar(CharacterT)
    && (sh.kind.Structure? ==>
          && (forall i :: 0 <= i < |sh.kind.required| ==> Contains(v.entries, Str(sh.kind.required[i])))
          && (forall i :: 0 <= i < |v.entries| ==> IsMember(sh.kind.members, v.entries[i].key)))
  }

  lemma {:induction false} NoneMissing(required: seq<string>, entries: seq<Entry>, name: string)
    ensures MissingReports(required, entries, name) == [] <==>
            forall i :: 0 <= i < |required| ==> Contains(entries, Str(required[i]))
    decreases |required|
  {
    if required != [] {
      NoneMissing(required[1..], entries, name);
      assert HasKey(entries, required[0]) <==> Contains(entries, Str(required[0]));
      hide HasKey, Contains;
      assert forall i :: 1 <= i < |required| ==> required[i] == required[1..][i - 1];
      assert forall i :: 0 <= i < |required[1..]| ==> required[1..][i] == required[i + 1];
    }
  }

  lemma {:induction false} NoneUnknown(members: seq<Member>, entries: seq<Entry>, name: string)
    ensures UnknownReports(members, entries, name) == [] <==>
            forall i :: 0 <= i < |entries| ==> IsMember(members, entries[i].key)
    decreases |entries|
  {
    if entries != [] {
      NoneUnknown(members, entries[1..], name);
      MemberIsFound(members, entries[0].key);
      hide Known, IsMember;
      assert forall i :: 1 <= i < |entries| ==> entries[i] == entries[1..][i - 1];
      assert forall i :: 0 <= i < |entries[1..]| ==> entries[1..][i] == entries[i + 1];
    }
  }

  lemma LocalFits(c: Codec, at: Spot)
    ensures Clean(Checked(Local(c, at), NoValidator(at.sh))) <==> LocallyFits(c, at.sh, at.v)
  {
    match at.sh.kind
    case Structure(members, required) => StructureFits(c, at, members, required);
    case List(_) =>
    case Map(_, _) =>
    case Scalar(_) => ScalarFits(c, at);
  }

  lemma StructureFits(c: Codec, at: Spot, members: seq<Member>, required: seq<string>)
    requires at.sh.kind == Structure(members, required)
    ensures Clean(Checked(Local(c, at), NoValidator(at.sh))) <==> LocallyFits(c, at.sh, at.v)
  {
    if at.v.Dict? {
      NoneMissing(required, at.v.entries, at.name);
      NoneUnknown(members, at.v.entries, at.name);
    }
    hide MissingReports, UnknownReports, IsMember, Contains;
  }

  lemma ScalarFits(c: Codec, at: Spot)
    requires at.sh.kind.Scalar?
    ensures Clean(Checked(Local(c, at), NoValidator(at.sh))) <==> LocallyFits(c, at.sh, at.v)
  {
    hide MissingReports, UnknownReports, IsMember, Contains;
  }

  ghost predicate AllConform(m: ShapeMap, c: Codec, spots: seq<Spot>)
    requires Closed(m) && forall i :: 0 <= i < |spots| ==> InMap(m, spots[i].sh.kind)
  {
    forall i :: 0 <= i < |spots| ==> Conforms(m, c, spots[i].sh, spots[i].v)
  }

  /** A value conforms when it fits locally and everything inside conforms. */
  lemma ConformsByParts(m: ShapeMap, c: Codec, at: Spot)
    requires Closed(m) && InMap(m, at.sh.kind)
    ensures Conforms(m, c, at.sh, at.v) <==> LocallyFits(c, at.sh, at.v) && AllConform(m, c, Inside(m, c, at))
  {
    match at.sh.kind
    case Structure(members, _) =>
      if at.v.Dict? && forall i :: 0 <= i < |at.v.entries| ==> IsMember(members, at.v.entries[i].key) {
        FieldsConform(m, c, members, at.v.entries, at.name);
        hide FieldSpots, RightSize, Contains, IsMember;
      }
    case List(ref) =>
      if at.v.Items? {
        var spots := Inside(m, c, at);
        assert forall i :: 0 <= i < |spots| ==> spots[i].sh == Resolve(m, ref) && spots[i].v == at.v.items[i];
        hide RightSize;
      }
    case Map(key, value) =>
      if at.v.Dict? {
        EntriesConform(m, c, Resolve(m, key), Resolve(m, value), at.v.entries, at.name);
        hide EntrySpots;
      }
    case Scalar(_) =>
  }

  lemma AllConformJoin(m: ShapeMap, c: Codec, a: seq<Spot>, b: seq<Spot>)
    requires Closed(m)
    requires forall i :: 0 <= i < |a| ==> InMap(m, a[i].sh.kind)
    requires forall i :: 0 <= i < |b| ==> InMap(m, b[i].sh.kind)
    ensures AllConform(m, c, a + b) <==> AllConform(m, c, a) && AllConform(m, c, b)
  {
    hide Conforms;
    assert forall i :: 0 <= i < |a| ==> (a + b)[i] == a[i];
    assert forall i :: 0 <= i < |b| ==> (a + b)[i + |a|] == b[i];
  }

  lemma OneConforms(m: ShapeMap, c: Codec, spot: Spot)
    requires Closed(m) && InMap(m, spot.sh.kind)
    ensures AllConform(m, c, [spot]) <==> Conforms(m, c, spot.sh, spot.v)
  {
    hide Conforms;
    assert [spot][0] == spot;
  }

  predicate FieldConforms(m: ShapeMap, c: Codec, members: seq<Member>, e: Entry)
    requires Closed(m) && InMap(m, Structure(members, []))
  {
    IsMember(members, e.key) && Conforms(m, c, Resolve(m, FindMember(members, e.key.s).value), e.value)
  }

  lemma {:induction false} FieldsConform(m: ShapeMap, c: Codec, members: seq<Member>, entries: seq<Entry>, name: string)
    requires Closed(m) && InMap(m, Structure(members, []))
    requires forall i :: 0 <= i < |entries| ==> IsMember(members, entries[i].key)
    ensures AllConform(m, c, FieldSpots(m, c, members, entries, name)) <==>
      forall i :: 0 <= i < |entries| ==> FieldConforms(m, c, members, entries[i])
    decreases |entries|
  {
    if entries != [] {
      FieldsConform(m, c, members, entries[1..], name);
      MemberIsFound(members, entries[0].key);
      hide Conforms, Known, IsMember, AllConform;
      var e := entries[0];
      var spot := Spot(Resolve(m, Known(members, e.key).value), e.value, name + "." + StrOf(c, e.key));
      var rest := FieldSpots(m, c, members, entries[1..], name);
      assert FieldSpots(m, c, members, entries, name) == [spot] + rest;
      AllConformJoin(m, c, [spot], rest);
      OneConforms(m, c, spot);
      assert Conforms(m, c, spot.sh, spot.v) <==> FieldConforms(m, c, members, e);
      hide FieldSpots;
      AllFieldsConform(m, c, members, entries);
    }
  }

  lemma AllFieldsConform(m: ShapeMap, c: Codec, members: seq<Member>, entries: seq<Entry>)
    requires Closed(m) && InMap(m, Structure(members, [])) && entries != []
    ensures (forall i :: 0 <= i < |entries| ==> FieldConforms(m, c, members, entries[i])) <==>
            FieldConforms(m, c, members, entries[0]) && forall i :: 0 <= i < |entries[1..]| ==> FieldConforms(m, c, members, entries[1..][i])
  {
    hide FieldConforms;
    if i :| 1 <= i < |entries| && !FieldConforms(m, c, members, entries[i]) {
      assert !FieldConforms(m, c, members, entries[1..][i - 1]);
    }
    assert forall i :: 0 <= i < |entries[1..]| ==> entries[1..][i] == entries[i + 1];
  }

  predicate EntryConforms(m: ShapeMap, c: Codec, key: Shape, value: Shape, e: Entry)
    requires Closed(m) && InMap(m, key.kind) && InMap(m, value.kind)
  {
    Conforms(m, c, key, e.key) && Conforms(m, c, value, e.value)
  }

  lemma {:induction false} EntriesConform(m: ShapeMap, c: Codec, key: Shape, value: Shape, entries: seq<Entry>, name: string)
    requires Closed(m) && InMap(m, key.kind) && InMap(m, value.kind)
    ensures AllConform(m, c, EntrySpots(m, c, key, value, entries, name)) <==>
      forall i :: 0 <= i < |entries| ==> EntryConforms(m, c, key, value, entries[i])
    decreases |entries|
  {
    if entries != [] {
      EntriesConform(m, c, key, value, entries[1..], name);
      hide Conforms, AllConform;
      var e := entries[0];
      var pair := [Spot(key, e.key, name + " (key: " + StrOf(c, e.key) + ")"), Spot(value, e.value, name + "." + StrOf(c, e.key))];
      var rest := EntrySpots(m, c, key, value, entries[1..], name);
      assert EntrySpots(m, c, key, value, entries, name) == pair + rest;
      AllConformJoin(m, c, pair, rest);
      AllConformJoin(m, c, [pair[0]], [pair[1]]);
      OneConforms(m, c, pair[0]);
      OneConforms(m, c, pair[1]);
      assert pair == [pair[0]] + [pair[1]];
      assert AllConform(m, c, pair) <==> EntryConforms(m, c, key, value, e);
      hide EntrySpots, EntryConforms;
      assert forall i :: 1 <= i < |entries| ==> entries[i] == entries[1..][i - 1];
      assert forall i :: 0 <= i < |entries[1..]| ==> entries[1..][i] == entries[i + 1];
    }
  }

  /** Validation ends without a report exactly for the values that conform. */
  lemma {:induction false} NoReportsIffConforms(m: ShapeMap, c: Codec, at: Spot)
    requires Closed(m) && InMap(m, at.sh.kind)
    ensures Clean(Check(m, c, at)) <==> Conforms(m, c, at.sh, at.v)
    decreases at.v, 1, 0
  {
    LocalFits(c, at);
    ConformsByParts(m, c, at);
    var spots := Inside(m, c, at);
    AllCleanIffConform(m, c, spots, at.v);
    hide Local, Inside, LocallyFits, AllConform, Conforms, CheckAll, Clean;
    CleanThen(Checked(Local(c, at), NoValidator(at.sh)), CheckAll(m, c, spots, at.v));
  }

  lemma {:induction false} AllCleanIffConform(m: ShapeMap, c: Codec, spots: seq<Spot>, inside: Value)
    requires Closed(m) && forall i :: 0 <= i < |spots| ==> InMap(m, spots[i].sh.kind) && (inside decreases to spots[i].v)
    ensures Clean(CheckAll(m, c, spots, inside)) <==> AllConform(m, c, spots)
    decreases inside, 0, |spots|
  {
    if spots != [] {
      NoReportsIffConforms(m, c, spots[0]);
      AllCleanIffConform(m, c, spots[1..], inside);
      CleanThen(Check(m, c, spots[0]), CheckAll(m, c, spots[1..], inside));
      hide Clean, Check, Conforms;
      assert forall i :: 1 <= i < |spots| ==> spots[i] == spots[1..][i - 1];
      assert forall i :: 0 <= i < |spots[1..]| ==> spots[1..][i] == spots[i + 1];
    }
  }

  // ----- The order of the reports

  function Joined(m: ShapeMap, c: Codec, spots: seq<Spot>): seq<Report>
    requires Closed(m) && forall i :: 0 <= i < |spots| ==> InMap(m, spots[i].sh.kind)
  {
    if spots == [] then [] else Check(m, c, spots[0]).reports + Joined(m, c, spots[1..])
  }

  /** The reports about a value come before those about what it contains, which come in its order. */
  lemma OwnReportsFirst(m: ShapeMap, c: Codec, at: Spot)
    requires Closed(m) && InMap(m, at.sh.kind) && !Check(m, c, at).crashed
    ensures Check(m, c, at).reports == Local(c, at) + Joined(m, c, Inside(m, c, at))
  {
    InOrder(m, c, Inside(m, c, at), at.v);
    hide Inside, Local, CheckAll;
  }

  lemma {:induction false} InOrder(m: ShapeMap, c: Codec, spots: seq<Spot>, inside: Value)
    requires Closed(m) && forall i :: 0 <= i < |spots| ==> InMap(m, spots[i].sh.kind) && (inside decreases to spots[i].v)
    requires !CheckAll(m, c, spots, inside).crashed
    ensures CheckAll(m, c, spots, inside).reports == Joined(m, c, spots)
    decreases |spots|
  {
    if spots != [] {
      hide Check;
      InOrder(m, c, spots[1..], inside);
    }
  }
}
