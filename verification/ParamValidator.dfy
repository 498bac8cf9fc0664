/** The validator as it runs: methods that append to one shared list of errors. */
module ParamValidators {
  import opened Results
  import opened Numerals
  import opened Shapes
  import opened XmlSerializer
  import opened Validator

  class ValidationErrors {
    var errors: seq<Report>

    constructor ()
      ensures errors == []
    {
      errors := [];
    }

    method HasErrors() returns (r: bool)
      ensures r <==> errors != []
    {
      r := errors != [];
    }

    method Add(r: Report)
      modifies this
      ensures errors == old(errors) + [r]
    {
      errors := errors + [r];
    }
  }

  /** The list of errors after a run that began with `before`. */
  predicate Did(before: seq<Report>, after: seq<Report>, crashed: bool, r: Checked) {
    crashed == r.crashed && after == before + r.reports
  }

  lemma DidThen(before: seq<Report>, mid: seq<Report>, after: seq<Report>, crashed: bool, first: Checked, rest: Checked)
    requires Did(before, mid, first.crashed, first)
    requires if first.crashed then after == mid && crashed else Did(mid, after, crashed, rest)
    ensures Did(before, after, crashed, Then(first, rest))
  {
  }

  /** What has been reported so far leaves `rest` of the whole. */
  ghost predicate Leaving(before: seq<Report>, now: seq<Report>, rest: Checked, whole: Checked) {
    exists done: seq<Report> :: now == before + done && whole == Then(Checked(done, false), rest)
  }

  lemma LeavingAll(before: seq<Report>, whole: Checked)
    ensures Leaving(before, before, whole, whole)
  {
    assert before == before + [] && whole == Then(Checked([], false), whole);
  }

  lemma OneStep(before: seq<Report>, now: seq<Report>, next: seq<Report>, crashed: bool, first: Checked, rest: Checked, whole: Checked)
    requires Leaving(before, now, Then(first, rest), whole) && Did(now, next, crashed, first)
    ensures if crashed then Did(before, next, crashed, whole) else Leaving(before, next, rest, whole)
  {
    var done: seq<Report> :| now == before + done && whole == Then(Checked(done, false), Then(first, rest));
    assert next == before + (done + first.reports);
    if !crashed {
      assert done + (first.reports + rest.reports) == (done + first.reports) + rest.reports;
      assert whole == Then(Checked(done + first.reports, false), rest);
    }
  }

  lemma LeavingNothing(before: seq<Report>, now: seq<Report>, whole: Checked)
    requires Leaving(before, now, Checked([], false), whole)
    ensures Did(before, now, false, whole)
  {
    var done: seq<Report> :| now == before + done && whole == Then(Checked(done, false), Checked([], false));
    assert done + [] == done;
  }

  /** range_check. */
  method RangeCheck(x: real, sh: Shape, report: Report, errors: ValidationErrors)
    modifies errors
    ensures errors.errors == old(errors.errors) + if InRange(x, sh.traits) then [] else [report]
  {
    var failed := false;
    if sh.traits.min.Some? {
      if x < sh.traits.min.value as real { failed := true; }
    }
    if sh.traits.max.Some? {
      if x > sh.traits.max.value as real { failed := true; }
    }
    if failed { errors.Add(report); }
  }

  method Validate(m: ShapeMap, c: Codec, params: Value, sh: Shape) returns (errors: ValidationErrors, crashed: bool)
    requires Closed(m) && InMap(m, sh.kind)
    ensures fresh(errors)
    ensures Did([], errors.errors, crashed, Check(m, c, Spot(sh, params, "")))
  {
    errors := new ValidationErrors();
    crashed := ValidateValue(m, c, Spot(sh, params, ""), errors);
  }

  method ValidateValue(m: ShapeMap, c: Codec, at: Spot, errors: ValidationErrors) returns (crashed: bool)
    requires Closed(m) && InMap(m, at.sh.kind)
    modifies errors
    ensures Did(old(errors.errors), errors.errors, crashed, Check(m, c, at))
    decreases at.v, 1, 0
  {
    ghost var before := errors.errors;
    match at.sh.kind {
      case Structure(_, _) => crashed := ValidateStructure(m, c, at, errors);
      case List(_) => crashed := ValidateList(m, c, at, errors);
      case Map(_, _) => crashed := ValidateMap(m, c, at, errors);
      case Scalar(t) =>
        if t == CharacterT { return true; }
        ValidateScalar(c, at, errors);
        crashed := false;
    }
  }

  method ValidateScalar(c: Codec, at: Spot, errors: ValidationErrors)
    requires at.sh.kind.Scalar? && !NoValidator(at.sh)
    modifies errors
    ensures errors.errors == old(errors.errors) + Local(c, at)
  {
    match at.sh.kind.scalar
    case StringT =>
      if !at.v.Str? { errors.Add(InvalidType(at.name, at.v)); return; }
      RangeCheck(|at.v.s| as real, at.sh, InvalidLength(at.name, |at.v.s|, at.sh.traits.min, at.sh.traits.max), errors);
    case IntegerT | LongT => ValidateNumber(at, false, errors);
    case FloatT | DoubleT => ValidateNumber(at, true, errors);
    case BooleanT => if !at.v.Bool? { errors.Add(InvalidType(at.name, at.v)); }
    case BlobT =>
      if at.v.Blob? || at.v.Str? { return; }
      else if at.v.File? { return; }
      else { errors.Add(InvalidType(at.name, at.v)); }
    case TimestampT => if c.asTime(at.v).None? { errors.Add(InvalidType(at.name, at.v)); }
    case CharacterT => assert false;
  }

  method ValidateNumber(at: Spot, fractions: bool, errors: ValidationErrors)
    modifies errors
    ensures errors.errors == old(errors.errors) + CheckNumber(at, fractions)
  {
    var x := Number(at.v, fractions);
    if x.None? { errors.Add(InvalidType(at.name, at.v)); return; }
    RangeCheck(x.value, at.sh, InvalidRange(at.name, at.v, at.sh.traits.min, at.sh.traits.max), errors);
  }

  method ValidateStructure(m: ShapeMap, c: Codec, at: Spot, errors: ValidationErrors) returns (crashed: bool)
    requires Closed(m) && InMap(m, at.sh.kind) && at.sh.kind.Structure?
    modifies errors
    ensures Did(old(errors.errors), errors.errors, crashed, Check(m, c, at))
    decreases at.v, 0, 1
  {
    if !at.v.Dict? {
      errors.Add(InvalidType(at.name, at.v));
      return false;
    }
    ghost var before := errors.errors;
    var members, required, entries := at.sh.kind.members, at.sh.kind.required, at.v.entries;
    ReportMissing(required, entries, at.name, errors);
    var known := ReportUnknown(m, c, members, entries, at.name, errors);
    ghost var local := Checked(Local(c, at), false);
    assert errors.errors == before + local.reports;
    ghost var mid := errors.errors;
    assert known == Inside(m, c, at);
    crashed := ValidateAll(m, c, known, at.v, errors);
    hide Local, Inside, CheckAll;
    DidThen(before, mid, errors.errors, crashed, local, CheckAll(m, c, known, at.v));
  }

  method ReportMissing(required: seq<string>, entries: seq<Entry>, name: string, errors: ValidationErrors)
    modifies errors
    ensures errors.errors == old(errors.errors) + MissingReports(required, entries, name)
  {
    assert required[0..] == required;
    for i := 0 to |required|
      invariant errors.errors + MissingReports(required[i..], entries, name) ==
                old(errors.errors) + MissingReports(required, entries, name)
    {
      assert required[i..][0] == required[i] && required[i..][1..] == required[i + 1..];
      if !HasKey(entries, required[i]) { errors.Add(Missing(name, required[i])); }
    }
  }

  lemma UnknownStep(m: ShapeMap, c: Codec, members: seq<Member>, entries: seq<Entry>, i: nat, name: string)
    requires Closed(m) && InMap(m, Structure(members, [])) && i < |entries|
    ensures
      var e, found := entries[i], Known(members, entries[i].key);
      && UnknownReports(members, entries[i..], name) ==
           (if found.Some? then [] else [Unknown(name, e.key)]) + UnknownReports(members, entries[i + 1..], name)
      && FieldSpots(m, c, members, entries[i..], name) ==
           (if found.Some? then [Spot(Resolve(m, found.value), e.value, name + "." + StrOf(c, e.key))] else [])
           + FieldSpots(m, c, members, entries[i + 1..], name)
  {
    hide Known;
    assert entries[i..][0] == entries[i] && entries[i..][1..] == entries[i + 1..];
  }

  /** The loop over the params: unknown ones are reported, known ones are kept for later. */
  method ReportUnknown(m: ShapeMap, c: Codec, members: seq<Member>, entries: seq<Entry>, name: string, errors: ValidationErrors)
    returns (known: seq<Spot>)
    requires Closed(m) && InMap(m, Structure(members, []))
    modifies errors
    ensures errors.errors == old(errors.errors) + UnknownReports(members, entries, name)
    ensures known == FieldSpots(m, c, members, entries, name)
  {
    known := [];
    ghost var reports, spots := UnknownReports(members, entries, name), FieldSpots(m, c, members, entries, name);
    ghost var all := errors.errors + reports;
    assert entries[0..] == entries && [] + spots == spots;
    hide UnknownReports, FieldSpots, Known, Joins;
    assert Joins(errors.errors, reports, all) && Joins(known, spots, spots) by { JoinsAll(errors.errors, reports); JoinsAll([], spots); }
    for i := 0 to |entries|
      invariant Joins(errors.errors, UnknownReports(members, entries[i..], name), all)
      invariant Joins(known, FieldSpots(m, c, members, entries[i..], name), spots)
    {
      var e := entries[i];
      var found := Known(members, e.key);
      UnknownStep(m, c, members, entries, i, name);
      ghost var moreReports := UnknownReports(members, entries[i + 1..], name);
      ghost var moreSpots := FieldSpots(m, c, members, entries[i + 1..], name);
      if found.None? {
        JoinsOne(errors.errors, Unknown(name, e.key), moreReports, all);
        JoinsNone(known, moreSpots, spots);
        errors.Add(Unknown(name, e.key));
      } else {
        var spot := Spot(Resolve(m, found.value), e.value, name + "." + StrOf(c, e.key));
        JoinsOne(known, spot, moreSpots, spots);
        JoinsNone(errors.errors, moreReports, all);
        known := known + [spot];
      }
    }
    NoUnknown(m, c, members, name);
    assert entries[|entries|..] == [];
    JoinsEnd(errors.errors, all);
    JoinsEnd(known, spots);
  }

  lemma NoUnknown(m: ShapeMap, c: Codec, members: seq<Member>, name: string)
    requires Closed(m) && InMap(m, Structure(members, []))
    ensures UnknownReports(members, [], name) == [] && FieldSpots(m, c, members, [], name) == []
  {
  }

  /** The part done and the part left make the whole. */
  predicate Joins<T(==)>(done: seq<T>, rest: seq<T>, all: seq<T>) {
    done + rest == all
  }

  lemma JoinsAll<T>(a: seq<T>, b: seq<T>)
    ensures Joins(a, b, a + b) && ([] + b == b)
  {
  }

  lemma JoinsOne<T>(done: seq<T>, x: T, rest: seq<T>, all: seq<T>)
    requires Joins(done, [x] + rest, all)
    ensures Joins(done + [x], rest, all)
  {
    assert done + ([x] + rest) == (done + [x]) + rest;
  }

  lemma JoinsNone<T>(done: seq<T>, rest: seq<T>, all: seq<T>)
    requires Joins(done, [] + rest, all)
    ensures Joins(done, rest, all)
  {
    assert [] + rest == rest;
  }

  lemma JoinsEnd<T>(done: seq<T>, all: seq<T>)
    requires Joins(done, [], all)
    ensures done == all
  {
    assert done + [] == done;
  }

  /** The loop over the known params. */
  method ValidateAll(m: ShapeMap, c: Codec, spots: seq<Spot>, inside: Value, errors: ValidationErrors) returns (crashed: bool)
    requires Closed(m) && forall i :: 0 <= i < |spots| ==> InMap(m, spots[i].sh.kind) && (inside decreases to spots[i].v)
    modifies errors
    ensures Did(old(errors.errors), errors.errors, crashed, CheckAll(m, c, spots, inside))
    decreases inside, 0, 0
  {
    ghost var before, whole := errors.errors, CheckAll(m, c, spots, inside);
    LeavingAll(before, whole);
    assert spots[0..] == spots;
    hide Check, Leaving, Did;
    for i := 0 to |spots|
      invariant Leaving(before, errors.errors, CheckAll(m, c, spots[i..], inside), whole)
    {
      assert spots[i..][0] == spots[i] && spots[i..][1..] == spots[i + 1..];
      ghost var now := errors.errors;
      crashed := ValidateValue(m, c, spots[i], errors);
      OneStep(before, now, errors.errors, crashed, Check(m, c, spots[i]), CheckAll(m, c, spots[i + 1..], inside), whole);
      if crashed { return; }
    }
    LeavingNothing(before, errors.errors, whole);
    crashed := false;
  }

  lemma ListChecks(m: ShapeMap, c: Codec, at: Spot)
    requires Closed(m) && InMap(m, at.sh.kind) && at.sh.kind.List? && at.v.Items?
    ensures Check(m, c, at) == Then(Checked(CheckLength(|at.v.items|, at), false), CheckAll(m, c, Inside(m, c, at), at.v))
  {
    hide CheckAll, Inside;
  }

  lemma ListSpots(m: ShapeMap, c: Codec, at: Spot)
    requires Closed(m) && InMap(m, at.sh.kind) && at.sh.kind.List? && at.v.Items?
    ensures
      var spots := Inside(m, c, at);
      |spots| == |at.v.items| && forall i :: 0 <= i < |spots| ==> spots[i] == ItemSpot(m, at.sh.kind.member, at, i)
  {
    hide ItemSpot;
  }

  method ValidateList(m: ShapeMap, c: Codec, at: Spot, errors: ValidationErrors) returns (crashed: bool)
    requires Closed(m) && InMap(m, at.sh.kind) && at.sh.kind.List?
    modifies errors
    ensures Did(old(errors.errors), errors.errors, crashed, Check(m, c, at))
    decreases at.v, 0, 1
  {
    if !at.v.Items? {
      errors.Add(InvalidType(at.name, at.v));
      return false;
    }
    hide Check, CheckAll, Inside, InMap, Resolve;
    ghost var before := errors.errors;
    var items, traits := at.v.items, at.sh.traits;
    RangeCheck(|items| as real, at.sh, InvalidLength(at.name, |items|, traits.min, traits.max), errors);
    ghost var mid := errors.errors;
    crashed := ValidateItems(m, c, at, errors);
    ListChecks(m, c, at);
    DidThen(before, mid, errors.errors, crashed, Checked(CheckLength(|items|, at), false), CheckAll(m, c, Inside(m, c, at), at.v));
  }

  /** The loop over the items of a list. */
  method ValidateItems(m: ShapeMap, c: Codec, at: Spot, errors: ValidationErrors) returns (crashed: bool)
    requires Closed(m) && InMap(m, at.sh.kind) && at.sh.kind.List? && at.v.Items?
    modifies errors
    ensures Did(old(errors.errors), errors.errors, crashed, CheckAll(m, c, Inside(m, c, at), at.v))
    decreases at.v, 0, 0
  {
    hide Check, Leaving, Did, Inside;
    ghost var before := errors.errors;
    ghost var spots := Inside(m, c, at);
    ghost var whole := CheckAll(m, c, spots, at.v);
    ListSpots(m, c, at);
    LeavingAll(before, whole);
    assert spots[0..] == spots;
    for i := 0 to |at.v.items|
      invariant Leaving(before, errors.errors, CheckAll(m, c, spots[i..], at.v), whole)
    {
      assert spots[i..][0] == spots[i] && spots[i..][1..] == spots[i + 1..];
      ghost var now := errors.errors;
      crashed := ValidateValue(m, c, ItemSpot(m, at.sh.kind.member, at, i), errors);
      OneStep(before, now, errors.errors, crashed, Check(m, c, spots[i]), CheckAll(m, c, spots[i + 1..], at.v), whole);
      if crashed { return; }
    }
    LeavingNothing(before, errors.errors, whole);
    crashed := false;
  }

  lemma EntrySpotsFirst(m: ShapeMap, c: Codec, key: Shape, value: Shape, entries: seq<Entry>, name: string)
    requires InMap(m, key.kind) && InMap(m, value.kind) && entries != []
    ensures EntrySpots(m, c, key, value, entries, name) ==
            [KeySpot(c, key, entries[0], name), ValueSpot(c, value, entries[0], name)]
            + EntrySpots(m, c, key, value, entries[1..], name)
  {
    hide InMap, StrOf;
  }

  lemma NoEntrySpots(m: ShapeMap, c: Codec, key: Shape, value: Shape, name: string)
    requires InMap(m, key.kind) && InMap(m, value.kind)
    ensures EntrySpots(m, c, key, value, [], name) == []
  {
  }

  lemma {:induction false} EntrySpotsAt(m: ShapeMap, c: Codec, key: Shape, value: Shape, entries: seq<Entry>, name: string, i: nat)
    requires InMap(m, key.kind) && InMap(m, value.kind)
    ensures
      var spots := EntrySpots(m, c, key, value, entries, name);
      && |spots| == 2 * |entries|
      && (i < |entries| ==> spots[2 * i] == KeySpot(c, key, entries[i], name) && spots[2 * i + 1] == ValueSpot(c, value, entries[i], name))
    decreases |entries|
  {
    hide EntrySpots, InMap, KeySpot, ValueSpot;
    if entries == [] {
      NoEntrySpots(m, c, key, value, name);
    } else {
      EntrySpotsFirst(m, c, key, value, entries, name);
      EntrySpotsAt(m, c, key, value, entries[1..], name, if i > 0 then i - 1 else 0);
    }
  }

  function KeySpot(c: Codec, key: Shape, e: Entry, name: string): Spot {
    Spot(key, e.key, name + " (key: " + StrOf(c, e.key) + ")")
  }

  function ValueSpot(c: Codec, value: Shape, e: Entry, name: string): Spot {
    Spot(value, e.value, name + "." + StrOf(c, e.key))
  }

  /** The checks of the map's entries from number i on. */
  ghost function FromEntry(m: ShapeMap, c: Codec, at: Spot, i: nat): Checked
    requires Closed(m) && InMap(m, at.sh.kind) && at.sh.kind.Map? && at.v.Dict? && i <= |at.v.entries|
  {
    EntrySpotsAt(m, c, Resolve(m, at.sh.kind.key), Resolve(m, at.sh.kind.value), at.v.entries, at.name, i);
    CheckAll(m, c, Inside(m, c, at)[2 * i..], at.v)
  }

  function PairCheck(m: ShapeMap, c: Codec, key: Shape, value: Shape, e: Entry, name: string): Checked
    requires Closed(m) && InMap(m, key.kind) && InMap(m, value.kind)
  {
    Then(Check(m, c, KeySpot(c, key, e, name)), Check(m, c, ValueSpot(c, value, e, name)))
  }

  lemma FirstEntry(m: ShapeMap, c: Codec, at: Spot)
    requires Closed(m) && InMap(m, at.sh.kind) && at.sh.kind.Map? && at.v.Dict?
    ensures Check(m, c, at) == FromEntry(m, c, at, 0)
    ensures FromEntry(m, c, at, |at.v.entries|) == Checked([], false)
  {
    var spots := Inside(m, c, at);
    EntrySpotsAt(m, c, Resolve(m, at.sh.kind.key), Resolve(m, at.sh.kind.value), at.v.entries, at.name, 0);
    assert spots[0..] == spots && spots[2 * |at.v.entries|..] == [];
    var rest := CheckAll(m, c, spots, at.v);
    assert [] + rest.reports == rest.reports;
  }

  lemma NextEntry(m: ShapeMap, c: Codec, at: Spot, i: nat)
    requires Closed(m) && InMap(m, at.sh.kind) && at.sh.kind.Map? && at.v.Dict? && i < |at.v.entries|
    ensures
      var key, value := Resolve(m, at.sh.kind.key), Resolve(m, at.sh.kind.value);
      FromEntry(m, c, at, i) == Then(PairCheck(m, c, key, value, at.v.entries[i], at.name), FromEntry(m, c, at, i + 1))
  {
    hide Check, CheckAll, Then, KeySpot, ValueSpot, EntrySpots, FieldSpots;
    EntrySpotsAt(m, c, Resolve(m, at.sh.kind.key), Resolve(m, at.sh.kind.value), at.v.entries, at.name, i);
    NextTwo(m, c, Inside(m, c, at), 2 * i, at.v);
  }

  lemma NextTwo(m: ShapeMap, c: Codec, spots: seq<Spot>, k: nat, inside: Value)
    requires Closed(m) && forall i :: 0 <= i < |spots| ==> InMap(m, spots[i].sh.kind) && (inside decreases to spots[i].v)
    requires k + 1 < |spots|
    ensures CheckAll(m, c, spots[k..], inside) ==
            Then(Then(Check(m, c, spots[k]), Check(m, c, spots[k + 1])), CheckAll(m, c, spots[k + 2..], inside))
  {
    hide Check, Then;
    assert spots[k..][1..] == spots[k + 1..] && spots[k + 1..][1..] == spots[k + 2..];
    ThenAssociates(Check(m, c, spots[k]), Check(m, c, spots[k + 1]), CheckAll(m, c, spots[k + 2..], inside));
  }

  lemma ThenAssociates(a: Checked, b: Checked, c: Checked)
    ensures Then(Then(a, b), c) == Then(a, Then(b, c))
  {
    assert (a.reports + b.reports) + c.reports == a.reports + (b.reports + c.reports);
  }

  method ValidateMap(m: ShapeMap, c: Codec, at: Spot, errors: ValidationErrors) returns (crashed: bool)
    requires Closed(m) && InMap(m, at.sh.kind) && at.sh.kind.Map?
    modifies errors
    ensures Did(old(errors.errors), errors.errors, crashed, Check(m, c, at))
    decreases at.v, 0, 0
  {
    if !at.v.Dict? {
      errors.Add(InvalidType(at.name, at.v));
      return false;
    }
    ghost var before := errors.errors;
    var key, value, entries := Resolve(m, at.sh.kind.key), Resolve(m, at.sh.kind.value), at.v.entries;
    FirstEntry(m, c, at);
    LeavingAll(before, FromEntry(m, c, at, 0));
    hide Check, Then, Leaving, Did, FromEntry, PairCheck, Resolve;
    for i := 0 to |entries|
      invariant Leaving(before, errors.errors, FromEntry(m, c, at, i), FromEntry(m, c, at, 0))
    {
      assert (at.v decreases to entries[i]);
      ghost var now := errors.errors;
      NextEntry(m, c, at, i);
      crashed := ValidateEntry(m, c, key, value, entries[i], at.name, errors);
      OneStep(before, now, errors.errors, crashed, PairCheck(m, c, key, value, entries[i], at.name), FromEntry(m, c, at, i + 1),
              FromEntry(m, c, at, 0));
      if crashed { return; }
    }
    LeavingNothing(before, errors.errors, FromEntry(m, c, at, 0));
    crashed := false;
  }

  /** One turn of the loop over a map: the key, then the value. */
  method ValidateEntry(m: ShapeMap, c: Codec, key: Shape, value: Shape, e: Entry, name: string, errors: ValidationErrors)
    returns (crashed: bool)
    requires Closed(m) && InMap(m, key.kind) && InMap(m, value.kind)
    modifies errors
    ensures Did(old(errors.errors), errors.errors, crashed, PairCheck(m, c, key, value, e, name))
    decreases e, 2, 0
  {
    hide Check;
    ghost var before := errors.errors;
    crashed := ValidateValue(m, c, KeySpot(c, key, e, name), errors);
    if crashed { return; }
    ghost var mid := errors.errors;
    crashed := ValidateValue(m, c, ValueSpot(c, value, e, name), errors);
    DidThen(before, mid, errors.errors, crashed, Check(m, c, KeySpot(c, key, e, name)), Check(m, c, ValueSpot(c, value, e, name)));
  }
}
