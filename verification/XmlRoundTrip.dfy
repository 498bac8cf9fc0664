/** Parsing what RestXMLSerializer writes gives the value back. */
module XmlRoundTrip {
  import opened Results
  import opened Numerals
  import opened Shapes
  import opened Xml
  import opened XmlSerializer
  import opened XmlParser
  import opened Codecs

  predicate FlatList(sh: Shape) {
    sh.kind.List? && Flag(sh.traits.flattened)
  }

  predicate FlatMap(sh: Shape) {
    sh.kind.Map? && Flag(sh.traits.flattened)
  }

  /** The tag under which the serializer writes a member. */
  function Tag(m: ShapeMap, member: Member): string
    requires member.ref.shape in m
  {
    Or(Resolve(m, member.ref).traits.name, member.name)
  }

  /** Written in the body, under the tag the parser will look for. */
  predicate GoodMember(m: ShapeMap, member: Member)
    requires Closed(m) && member.ref.shape in m
  {
    var sh := Resolve(m, member.ref);
    && sh.traits.location.None?
    && !Flag(sh.traits.xmlAttribute)
    && !FlatMap(sh)
    && MemberKeyName(m, sh, member.name) == Tag(m, member)
  }

  predicate GoodKind(m: ShapeMap, names: set<string>, kind: Kind)
    requires Closed(m) && InMap(m, kind)
  {
    match kind
    case Structure(members, _) =>
      && (forall i :: 0 <= i < |members| ==> members[i].ref.shape in names && GoodMember(m, members[i]))
      && (forall i, j :: 0 <= i < j < |members| ==>
            members[i].name != members[j].name && Tag(m, members[i]) != Tag(m, members[j]))
    case List(ref) =>
      var sh := Resolve(m, ref);
      ref.shape in names && !FlatList(sh) && !FlatMap(sh)
    case Map(k, v) =>
      var ks, vs := Resolve(m, k), Resolve(m, v);
      && k.shape in names && v.shape in names
      && ks.kind.Scalar? && !FlatList(vs) && !FlatMap(vs)
      && ks.traits.name != Some("") && vs.traits.name != Some("")
      && Or(ks.traits.name, "key") != Or(vs.traits.name, "value")
    case Scalar(_) => true
  }

  /** A set of well-formed shapes closed under reference; cycles are allowed. */
  ghost predicate WellFormed(m: ShapeMap, names: set<string>)
    requires Closed(m)
  {
    forall n :: n in names ==> n in m && GoodKind(m, names, m[n].kind)
  }

  ghost predicate WellFormedAt(m: ShapeMap, names: set<string>, sh: Shape) {
    Closed(m) && WellFormed(m, names) && InMap(m, sh.kind) && GoodKind(m, names, sh.kind) && !FlatMap(sh)
  }

  ghost predicate ScalarConforms(t: ScalarType, v: Value) {
    match t
    case StringT => v.Str?
    case CharacterT => v.Str?
    case IntegerT => v.Int?
    case LongT => v.Int?
    case FloatT => v.Float? && IsDouble(v.f)
    case DoubleT => v.Float? && IsDouble(v.f)
    case BooleanT => v.Bool?
    case BlobT => v.Blob?
    case TimestampT => v.Time?
  }

  ghost predicate Conforms(m: ShapeMap, sh: Shape, v: Value)
    requires Closed(m) && InMap(m, sh.kind)
    decreases v
  {
    match sh.kind
    case Structure(members, _) =>
      && v.Dict? && DistinctKeys(v.entries)
      && forall e :: e in v.entries ==> FieldConforms(m, members, e)
    case List(ref) => v.Items? && forall x :: x in v.items ==> Conforms(m, Resolve(m, ref), x)
    case Map(key, value) =>
      && v.Dict? && DistinctKeys(v.entries)
      && forall e :: e in v.entries ==> EntryConforms(m, Resolve(m, key), Resolve(m, value), e)
    case Scalar(t) => ScalarConforms(t, v)
  }

  ghost predicate FieldConforms(m: ShapeMap, members: seq<Member>, e: Entry)
    requires Closed(m) && InMap(m, Structure(members, []))
    decreases e
  {
    var Entry(key, value) := e;
    && key.Str? && FindMember(members, key.s).Some?
    && (value.NoneV? || Conforms(m, Resolve(m, FindMember(members, key.s).value), value))
  }

  ghost predicate EntryConforms(m: ShapeMap, key: Shape, value: Shape, e: Entry)
    requires Closed(m) && InMap(m, key.kind) && InMap(m, value.kind)
    decreases e
  {
    var Entry(k, v) := e;
    Conforms(m, key, k) && Conforms(m, value, v)
  }

  /** The value as a parsed Python object. */
  function Denote(v: Value): Py
    decreases v
  {
    match v
    case NoneV => PyNone
    case Bool(b) => PyBool(b)
    case Int(i) => PyInt(i)
    case Float(f) => PyFloat(f)
    case Str(s) => PyStr(s)
    case Blob(bytes) => PyBlob(bytes)
    case Time(t) => PyTime(t)
    case File(id) => PyFile(id)
    case Items(items) => PyList(DenoteItems(items))
    case Dict(entries) => PyDict(DenoteEntries(entries))
  }

  function DenoteItems(items: seq<Value>): (r: seq<Py>)
    ensures |r| == |items|
    decreases items
  {
    if items == [] then [] else [Denote(items[0])] + DenoteItems(items[1..])
  }

  function DenoteEntries(entries: seq<Entry>): map<Py, Py>
    decreases entries
  {
    if entries == [] then map[]
    else
      var Entry(key, value) := entries[0];
      assert (entries decreases to entries[0]);
      map[Denote(key) := Denote(value)] + DenoteEntries(entries[1..])
  }

  /** A structure member that leaves no element behind: a flattened list with no items. */
  predicate Vanishes(sh: Shape, v: Value) {
    FlatList(sh) && v == Items([])
  }

  /** What reaches the reader: members up to the first None, without empty flattened lists. */
  function Seen(m: ShapeMap, sh: Shape, v: Value): Py
    requires Closed(m) && InMap(m, sh.kind)
    decreases v
  {
    match sh.kind
    case Structure(members, _) => if v.Dict? then PyDict(SeenFields(m, members, v.entries)) else PyNone
    case List(ref) => if v.Items? then PyList(SeenItems(m, Resolve(m, ref), v.items)) else PyNone
    case Map(key, value) => if v.Dict? then PyDict(SeenEntries(m, Resolve(m, value), v.entries)) else PyNone
    case Scalar(_) => Denote(v)
  }

  function SeenFields(m: ShapeMap, members: seq<Member>, entries: seq<Entry>): map<Py, Py>
    requires Closed(m) && InMap(m, Structure(members, []))
    decreases entries
  {
    if entries == [] then map[]
    else
      var Entry(key, value) := entries[0];
      assert (entries decreases to entries[0]);
      if value.NoneV? || !key.Str? || FindMember(members, key.s).None? then map[]
      else
        var sh := Resolve(m, FindMember(members, key.s).value);
        var rest := SeenFields(m, members, entries[1..]);
        if Vanishes(sh, value) then rest else map[PyStr(key.s) := Seen(m, sh, value)] + rest
  }

  function SeenItems(m: ShapeMap, sh: Shape, items: seq<Value>): (r: seq<Py>)
    requires Closed(m) && InMap(m, sh.kind)
    ensures |r| == |items|
    decreases items
  {
    if items == [] then [] else [Seen(m, sh, items[0])] + SeenItems(m, sh, items[1..])
  }

  function SeenEntries(m: ShapeMap, sh: Shape, entries: seq<Entry>): map<Py, Py>
    requires Closed(m) && InMap(m, sh.kind)
    decreases entries
  {
    if entries == [] then map[]
    else
      var Entry(key, value) := entries[0];
      assert (entries decreases to entries[0]);
      map[Denote(key) := Seen(m, sh, value)] + SeenEntries(m, sh, entries[1..])
  }

  /** Nesting depth of a value. */
  function Height(v: Value): nat
    decreases v
  {
    match v
    case Items(items) => 1 + ItemsHeight(items)
    case Dict(entries) => 1 + EntriesHeight(entries)
    case _ => 1
  }

  function Max(a: nat, b: nat): nat {
    if a < b then b else a
  }

  function ItemsHeight(items: seq<Value>): (h: nat)
    decreases items
  {
    if items == [] then 0 else Max(Height(items[0]), ItemsHeight(items[1..]))
  }

  function EntriesHeight(entries: seq<Entry>): nat
    decreases entries
  {
    if entries == [] then 0
    else
      var Entry(key, value) := entries[0];
      assert (entries decreases to entries[0]);
      Max(Max(Height(key), Height(value)), EntriesHeight(entries[1..]))
  }

  // ----- What the serializer writes

  ghost predicate Written(m: ShapeMap, c: Codec, sh: Shape, v: Value, name: string)
    requires Closed(m) && InMap(m, sh.kind)
  {
    var r := Ser(m, c, sh, v, name);
    && r.Ok?
    && |r.value| == (if FlatList(sh) then |v.items| else 1)
    && forall i :: 0 <= i < |r.value| ==> r.value[i].tag == name
  }

  /** A conforming value is written, one element per node, under the tag it was given. */
  lemma {:induction false} SerWrites(m: ShapeMap, names: set<string>, c: Codec, sh: Shape, v: Value, name: string)
    requires WellFormedAt(m, names, sh) && Faithful(c) && Conforms(m, sh, v)
    ensures FlatList(sh) ==> v.Items?
    ensures Written(m, c, sh, v, name)
    decreases v, 1
  {
    match sh.kind
    case Structure(members, _) =>
      FieldsWrite(m, names, c, members, v.entries, NamespaceAttrs(sh.traits));
    case List(ref) =>
      var member := Resolve(m, ref);
      ItemsWrite(m, names, c, member, v.items, if Flag(sh.traits.flattened) then name else Or(member.traits.name, "member"));
    case Map(key, value) =>
      EntriesWrite(m, names, c, Resolve(m, key), Resolve(m, value), v.entries);
    case Scalar(t) =>
  }

  lemma FieldShape(m: ShapeMap, names: set<string>, members: seq<Member>, key: string)
    requires Closed(m) && WellFormed(m, names)
    requires InMap(m, Structure(members, [])) && GoodKind(m, names, Structure(members, []))
    requires FindMember(members, key).Some?
    ensures WellFormedAt(m, names, Resolve(m, FindMember(members, key).value))
    ensures !Flag(Resolve(m, FindMember(members, key).value).traits.xmlAttribute)
    ensures GoodMember(m, Member(key, FindMember(members, key).value))
  {
    var ref := FindMember(members, key).value;
    var i :| 0 <= i < |members| && members[i] == Member(key, ref);
    assert GoodMember(m, members[i]) && ref.shape in names;
  }

  lemma {:induction false} FieldsWrite(m: ShapeMap, names: set<string>, c: Codec, members: seq<Member>,
                                       entries: seq<Entry>, attrs: map<string, Value>)
    requires Closed(m) && WellFormed(m, names) && Faithful(c)
    requires InMap(m, Structure(members, [])) && GoodKind(m, names, Structure(members, []))
    requires forall e :: e in entries ==> FieldConforms(m, members, e)
    ensures SerFields(m, c, members, entries, attrs).Ok?
    ensures SerFields(m, c, members, entries, attrs).value.attrs == attrs
    decreases entries, 0
  {
    if entries != [] {
      var Entry(key, value) := entries[0];
      assert FieldConforms(m, members, entries[0]);
      assert (entries decreases to entries[0]);
      if !value.NoneV? {
        FieldShape(m, names, members, key.s);
        var sh := Resolve(m, FindMember(members, key.s).value);
        SerWrites(m, names, c, sh, value, Or(sh.traits.name, key.s));
        FieldsWrite(m, names, c, members, entries[1..], attrs);
      }
    }
  }

  lemma {:induction false} ItemsWrite(m: ShapeMap, names: set<string>, c: Codec, sh: Shape, items: seq<Value>, name: string)
    requires WellFormedAt(m, names, sh) && !FlatList(sh) && Faithful(c)
    requires forall x :: x in items ==> Conforms(m, sh, x)
    ensures SerItems(m, c, sh, items, name).Ok?
    ensures |SerItems(m, c, sh, items, name).value| == |items|
    ensures forall i :: 0 <= i < |items| ==> SerItems(m, c, sh, items, name).value[i].tag == name
    decreases items, 0
  {
    if items != [] {
      SerWrites(m, names, c, sh, items[0], name);
      ItemsWrite(m, names, c, sh, items[1..], name);
    }
  }

  lemma {:induction false} EntriesWrite(m: ShapeMap, names: set<string>, c: Codec, key: Shape, value: Shape, entries: seq<Entry>)
    requires WellFormedAt(m, names, key) && WellFormedAt(m, names, value)
    requires !FlatList(key) && !FlatList(value) && Faithful(c)
    requires forall e :: e in entries ==> EntryConforms(m, key, value, e)
    ensures SerEntries(m, c, key, value, entries).Ok?
    decreases entries, 0
  {
    if entries != [] {
      var Entry(k, v) := entries[0];
      assert EntryConforms(m, key, value, entries[0]);
      assert (entries decreases to entries[0]);
      SerWrites(m, names, c, key, k, Or(key.traits.name, "key"));
      SerWrites(m, names, c, value, v, Or(value.traits.name, "value"));
      EntriesWrite(m, names, c, key, value, entries[1..]);
    }
  }

  // ----- What the parser finds

  lemma {:induction false} WithTagSnoc(init: seq<Dom>, last: Dom, tag: string)
    ensures WithTag(init + [last], tag) == WithTag(init, tag) + if last.tag == tag then [last] else []
  {
    WithTagConcat(init, [last], tag);
    WithTagUniform([last], last.tag, tag);
  }

  lemma AddNameGathers(names: map<string, Found>, item: Dom, tag: string, before: seq<Dom>)
    requires tag in names <==> before != []
    requires tag in names ==> names[tag] == Gather(before)
    ensures
      var after := before + if item.tag == tag then [item] else [];
      && (tag in AddName(names, item) <==> after != [])
      && (tag in AddName(names, item) ==> AddName(names, item)[tag] == Gather(after))
  {
    if item.tag == tag && |before| == 1 {
      assert before + [item] == [before[0], item];
    }
  }

  lemma BuildNamesSnoc(init: seq<Dom>, last: Dom)
    ensures BuildNames(init + [last]) == AddName(BuildNames(init), last)
  {
    assert (init + [last])[..|init|] == init;
  }

  /** The child table of the parser: one element or all elements of each tag, in document order. */
  lemma {:induction false} BuildNamesGathers(items: seq<Dom>, tag: string)
    ensures tag in BuildNames(items) <==> WithTag(items, tag) != []
    ensures tag in BuildNames(items) ==> BuildNames(items)[tag] == Gather(WithTag(items, tag))
    decreases |items|
  {
    if items != [] {
      hide AddName, WithTag, Gather, BuildNames;
      var init, last := items[..|items| - 1], items[|items| - 1];
      assert items == init + [last];
      BuildNamesGathers(init, tag);
      WithTagSnoc(init, last, tag);
      BuildNamesSnoc(init, last);
      AddNameGathers(BuildNames(init), last, tag, WithTag(init, tag));
    }
  }

  /** The member `name` as the serializer's loop reaches it, before any None. */
  function Visible(entries: seq<Entry>, name: string): (r: Option<Value>)
    ensures r.Some? ==> Entry(Str(name), r.value) in entries && !r.value.NoneV?
  {
    if entries == [] || entries[0].value.NoneV? then None
    else if entries[0].key == Str(name) then
      assert entries[0] == Entry(Str(name), entries[0].value);
      Some(entries[0].value)
    else Visible(entries[1..], name)
  }

  /** The elements written for a member. */
  function Group(m: ShapeMap, c: Codec, sh: Shape, v: Option<Value>, tag: string): seq<Xml>
    requires Closed(m) && InMap(m, sh.kind)
  {
    if v.None? || Ser(m, c, sh, v.value, tag).Err? then [] else Ser(m, c, sh, v.value, tag).value
  }

  lemma FoundIsMember(m: ShapeMap, names: set<string>, members: seq<Member>, i: nat)
    requires Closed(m) && InMap(m, Structure(members, [])) && GoodKind(m, names, Structure(members, []))
    requires i < |members|
    ensures FindMember(members, members[i].name) == Some(members[i].ref)
  {
    var ref := FindMember(members, members[i].name).value;
    var j :| 0 <= j < |members| && members[j] == Member(members[i].name, ref);
    assert i == j;
  }

  lemma TagsIdentifyMembers(m: ShapeMap, names: set<string>, members: seq<Member>, i: nat, key: string)
    requires Closed(m) && InMap(m, Structure(members, [])) && GoodKind(m, names, Structure(members, []))
    requires i < |members| && key != members[i].name && FindMember(members, key).Some?
    ensures Tag(m, Member(key, FindMember(members, key).value)) != Tag(m, members[i])
  {
    var ref := FindMember(members, key).value;
    var j :| 0 <= j < |members| && members[j] == Member(key, ref);
    hide FindMember, Tag;
    if i < j {
      assert Tag(m, members[i]) != Tag(m, members[j]);
    } else {
      assert Tag(m, members[j]) != Tag(m, members[i]);
    }
  }

  /** Among the written children, those with a member's tag are exactly the ones written for it. */
  lemma {:induction false} ChildrenOfMember(m: ShapeMap, names: set<string>, c: Codec, members: seq<Member>,
                                            entries: seq<Entry>, attrs: map<string, Value>, ns: string, i: nat)
    requires Closed(m) && WellFormed(m, names) && Faithful(c)
    requires InMap(m, Structure(members, [])) && GoodKind(m, names, Structure(members, []))
    requires forall e :: e in entries ==> FieldConforms(m, members, e)
    requires DistinctKeys(entries) && i < |members|
    requires SerFields(m, c, members, entries, attrs).Ok?
    ensures WithTag(RereadAll(SerFields(m, c, members, entries, attrs).value.children, ns), Tag(m, members[i])) ==
            RereadAll(Group(m, c, Resolve(m, members[i].ref), Visible(entries, members[i].name), Tag(m, members[i])), ns)
    decreases |entries|
  {
    hide Ser, Reread, Conforms, Faithful, WellFormed;
    if entries != [] && !entries[0].value.NoneV? {
      FirstFieldChildren(m, names, c, members, entries, attrs, ns, i);
      ChildrenOfMember(m, names, c, members, entries[1..], attrs, ns, i);
      if entries[0].key == Str(members[i].name) {
        InvisibleLater(entries, members[i].name);
      }
    }
  }

  /** The first field's elements come first; they have a member's tag exactly when the field is that member. */
  lemma FirstFieldChildren(m: ShapeMap, names: set<string>, c: Codec, members: seq<Member>,
                           entries: seq<Entry>, attrs: map<string, Value>, ns: string, i: nat)
    requires Closed(m) && WellFormed(m, names) && Faithful(c)
    requires InMap(m, Structure(members, [])) && GoodKind(m, names, Structure(members, []))
    requires entries != [] && !entries[0].value.NoneV? && FieldConforms(m, members, entries[0])
    requires i < |members| && SerFields(m, c, members, entries, attrs).Ok?
    ensures SerFields(m, c, members, entries[1..], attrs).Ok?
    ensures
      var sh, tag := Resolve(m, members[i].ref), Tag(m, members[i]);
      WithTag(RereadAll(SerFields(m, c, members, entries, attrs).value.children, ns), tag) ==
        (if entries[0].key == Str(members[i].name) then RereadAll(Group(m, c, sh, Some(entries[0].value), tag), ns) else []) +
        WithTag(RereadAll(SerFields(m, c, members, entries[1..], attrs).value.children, ns), tag)
  {
    hide Ser, Reread, Conforms, Faithful, WellFormed;
    var Entry(key, value) := entries[0];
    var tag := Tag(m, members[i]);
    FieldShape(m, names, members, key.s);
    var sh := Resolve(m, FindMember(members, key.s).value);
    var name := Or(sh.traits.name, key.s);
    SerWrites(m, names, c, sh, value, name);
    var first, rest := Ser(m, c, sh, value, name).value, SerFields(m, c, members, entries[1..], attrs).value.children;
    RereadConcat(first, rest, ns);
    WithTagConcat(RereadAll(first, ns), RereadAll(rest, ns), tag);
    WithTagUniform(RereadAll(first, ns), name, tag);
    if key.s == members[i].name {
      FoundIsMember(m, names, members, i);
    } else {
      TagsIdentifyMembers(m, names, members, i, key.s);
    }
  }

  lemma InvisibleLater(entries: seq<Entry>, name: string)
    requires DistinctKeys(entries) && entries != [] && entries[0].key == Str(name)
    ensures Visible(entries[1..], name) == None
  {
    assert forall j :: 0 <= j < |entries[1..]| ==> entries[1..][j] == entries[j + 1];
  }

  /** Lookup in what the reader sees of a structure. */
  lemma {:induction false} SeenMember(m: ShapeMap, members: seq<Member>, entries: seq<Entry>, name: string)
    requires Closed(m) && InMap(m, Structure(members, []))
    requires forall e :: e in entries ==> FieldConforms(m, members, e)
    requires DistinctKeys(entries) && FindMember(members, name).Some?
    ensures
      var sh, v := Resolve(m, FindMember(members, name).value), Visible(entries, name);
      var seen := SeenFields(m, members, entries);
      && (PyStr(name) in seen <==> v.Some? && !Vanishes(sh, v.value))
      && (PyStr(name) in seen ==> seen[PyStr(name)] == Seen(m, sh, v.value))
    decreases |entries|
  {
    if entries != [] && !entries[0].value.NoneV? {
      assert FieldConforms(m, members, entries[0]);
      SeenMember(m, members, entries[1..], name);
      if entries[0].key == Str(name) {
        InvisibleLater(entries, name);
      }
    }
  }

  lemma {:induction false} SeenKeysAreMembers(m: ShapeMap, members: seq<Member>, entries: seq<Entry>)
    requires Closed(m) && InMap(m, Structure(members, []))
    ensures forall k :: k in SeenFields(m, members, entries) ==>
              k.PyStr? && exists i :: 0 <= i < |members| && members[i].name == k.s
    decreases |entries|
  {
    if entries != [] {
      SeenKeysAreMembers(m, members, entries[1..]);
    }
  }

  ghost predicate MemberParses(m: ShapeMap, c: Codec, member: Member, found: map<string, Found>, seen: map<Py, Py>, depth: nat)
    requires Closed(m) && member.ref.shape in m
  {
    var sh := Resolve(m, member.ref);
    var tag := MemberKeyName(m, sh, member.name);
    && sh.traits.location.None?
    && (tag in found <==> PyStr(member.name) in seen)
    && (tag in found ==> Parse(m, c, sh, found[tag], depth) == Ok(seen[PyStr(member.name)]))
  }

  function Restrict(seen: map<Py, Py>, members: seq<Member>): map<Py, Py> {
    map k | k in seen && exists i :: 0 <= i < |members| && k == PyStr(members[i].name) :: seen[k]
  }

  lemma RestrictSnoc(seen: map<Py, Py>, init: seq<Member>, last: Member)
    ensures Restrict(seen, init + [last]) ==
            if PyStr(last.name) in seen then Restrict(seen, init)[PyStr(last.name) := seen[PyStr(last.name)]]
            else Restrict(seen, init)
  {
    var all := init + [last];
    assert all[|init|] == last;
    assert forall i :: 0 <= i < |init| ==> all[i] == init[i];
  }

  lemma MemberStep(m: ShapeMap, c: Codec, member: Member, found: map<string, Found>, seen: map<Py, Py>,
                   parsed: map<Py, Py>, depth: nat)
    requires Closed(m) && member.ref.shape in m && MemberParses(m, c, member, found, seen, depth)
    ensures ParseMember(m, c, member, found, parsed, depth) ==
            Ok(if PyStr(member.name) in seen then parsed[PyStr(member.name) := seen[PyStr(member.name)]] else parsed)
  {
    hide Parse;
  }

  lemma {:induction false} MembersAssemble(m: ShapeMap, c: Codec, members: seq<Member>,
                                           found: map<string, Found>, seen: map<Py, Py>, depth: nat)
    requires Closed(m) && InMap(m, Structure(members, []))
    requires forall i :: 0 <= i < |members| ==> MemberParses(m, c, members[i], found, seen, depth)
    ensures ParseMembers(m, c, members, found, depth) == Ok(Restrict(seen, members))
    decreases |members|
  {
    hide MemberParses, ParseMember;
    if members != [] {
      var init, last := members[..|members| - 1], members[|members| - 1];
      assert MemberParses(m, c, members[|members| - 1], found, seen, depth);
      MembersAssemble(m, c, init, found, seen, depth);
      MemberStep(m, c, last, found, seen, Restrict(seen, init), depth);
      RestrictSnoc(seen, init, last);
      assert members == init + [last];
    }
  }

  lemma HeightOfEntry(entries: seq<Entry>, e: Entry)
    requires e in entries
    ensures Height(e.key) <= EntriesHeight(entries) && Height(e.value) <= EntriesHeight(entries)
    decreases |entries|
  {
    if e != entries[0] {
      HeightOfEntry(entries[1..], e);
    }
  }

  // ----- The round trip

  /** Parsing, at any sufficient depth and under any inherited namespace, undoes serializing. */
  lemma {:induction false} RoundTrip(m: ShapeMap, names: set<string>, c: Codec, sh: Shape, v: Value,
                                     name: string, ns: string, depth: nat)
    requires WellFormedAt(m, names, sh) && Faithful(c) && Conforms(m, sh, v)
    requires !Vanishes(sh, v) && depth >= Height(v)
    ensures Written(m, c, sh, v, name) && Ser(m, c, sh, v, name).value != []
    ensures Parse(m, c, sh, Gather(RereadAll(Ser(m, c, sh, v, name).value, ns)), depth) == Ok(Seen(m, sh, v))
    decreases v, 2
  {
    SerWrites(m, names, c, sh, v, name);
    match sh.kind
    case Structure(_, _) => StructureRoundTrip(m, names, c, sh, v, name, ns, depth);
    case List(_) => ListRoundTrip(m, names, c, sh, v, name, ns, depth);
    case Map(_, _) => MapRoundTrip(m, names, c, sh, v, name, ns, depth);
    case Scalar(t) =>
      if v.Int? { ReadIntOfText(v.i); }
  }

  function Inner(attrs: map<string, Value>, ns: string): string {
    if "xmlns" in attrs && attrs["xmlns"].Str? then attrs["xmlns"].s else ns
  }

  lemma SerStructure(m: ShapeMap, c: Codec, sh: Shape, v: Value, name: string, ns: string)
    requires Closed(m) && InMap(m, sh.kind) && sh.kind.Structure? && v.Dict? && Ser(m, c, sh, v, name).Ok?
    ensures SerFields(m, c, sh.kind.members, v.entries, NamespaceAttrs(sh.traits)).Ok?
    ensures
      var body := SerFields(m, c, sh.kind.members, v.entries, NamespaceAttrs(sh.traits)).value;
      RereadAll(Ser(m, c, sh, v, name).value, ns) ==
        [Dom(Inner(body.attrs, ns), name, None, RereadAll(body.children, Inner(body.attrs, ns)))]
  {
    hide SerFields;
  }

  lemma {:induction false} StructureRoundTrip(m: ShapeMap, names: set<string>, c: Codec, sh: Shape, v: Value,
                                              name: string, ns: string, depth: nat)
    requires WellFormedAt(m, names, sh) && Faithful(c) && Conforms(m, sh, v)
    requires sh.kind.Structure? && Written(m, c, sh, v, name) && depth >= Height(v)
    ensures Parse(m, c, sh, Gather(RereadAll(Ser(m, c, sh, v, name).value, ns)), depth) == Ok(Seen(m, sh, v))
    decreases v, 1
  {
    hide Ser, SerFields, SeenFields, ParseMembers, MemberParses, BuildNames, Faithful;
    var members, attrs := sh.kind.members, NamespaceAttrs(sh.traits);
    SerStructure(m, c, sh, v, name, ns);
    var body := SerFields(m, c, members, v.entries, attrs).value;
    var children := RereadAll(body.children, Inner(body.attrs, ns));
    var found, seen := BuildNames(children), SeenFields(m, members, v.entries);
    forall i | 0 <= i < |members|
      ensures MemberParses(m, c, members[i], found, seen, depth - 1)
    {
      MemberRoundTrip(m, names, c, members, v, attrs, Inner(body.attrs, ns), depth, i);
    }
    MembersAssemble(m, c, members, found, seen, depth - 1);
    SeenKeysAreMembers(m, members, v.entries);
    assert Restrict(seen, members) == seen;
  }

  /** What the parser's table holds for one member of a structure. */
  lemma MemberFound(m: ShapeMap, names: set<string>, c: Codec, members: seq<Member>, entries: seq<Entry>,
                    attrs: map<string, Value>, ns: string, i: nat)
    requires Closed(m) && WellFormed(m, names) && Faithful(c)
    requires InMap(m, Structure(members, [])) && GoodKind(m, names, Structure(members, []))
    requires DistinctKeys(entries) && forall e :: e in entries ==> FieldConforms(m, members, e)
    requires i < |members| && SerFields(m, c, members, entries, attrs).Ok?
    ensures
      var found := BuildNames(RereadAll(SerFields(m, c, members, entries, attrs).value.children, ns));
      var sh, tag, field := Resolve(m, members[i].ref), Tag(m, members[i]), Visible(entries, members[i].name);
      && WellFormedAt(m, names, sh)
      && (field.Some? ==> Conforms(m, sh, field.value) && Written(m, c, sh, field.value, tag))
      && (tag in found <==> field.Some? && !Vanishes(sh, field.value))
      && (tag in found ==> Ser(m, c, sh, field.value, tag).value != [])
      && (tag in found ==> found[tag] == Gather(RereadAll(Ser(m, c, sh, field.value, tag).value, ns)))
  {
    hide Ser, SerFields, BuildNames, Reread, Faithful, Conforms;
    var member, tag := members[i], Tag(m, members[i]);
    var sh, field := Resolve(m, member.ref), Visible(entries, member.name);
    FoundIsMember(m, names, members, i);
    FieldShape(m, names, members, member.name);
    ChildrenOfMember(m, names, c, members, entries, attrs, ns, i);
    BuildNamesGathers(RereadAll(SerFields(m, c, members, entries, attrs).value.children, ns), tag);
    if field.Some? {
      assert FieldConforms(m, members, Entry(Str(member.name), field.value));
      SerWrites(m, names, c, sh, field.value, tag);
    }
  }

  lemma {:induction false} MemberRoundTrip(m: ShapeMap, names: set<string>, c: Codec, members: seq<Member>, v: Value,
                                           attrs: map<string, Value>, ns: string, depth: nat, i: nat)
    requires Closed(m) && WellFormed(m, names) && Faithful(c)
    requires InMap(m, Structure(members, [])) && GoodKind(m, names, Structure(members, []))
    requires v.Dict? && DistinctKeys(v.entries) && forall e :: e in v.entries ==> FieldConforms(m, members, e)
    requires depth >= Height(v) && i < |members|
    requires SerFields(m, c, members, v.entries, attrs).Ok?
    ensures MemberParses(m, c, members[i],
              BuildNames(RereadAll(SerFields(m, c, members, v.entries, attrs).value.children, ns)),
              SeenFields(m, members, v.entries), depth - 1)
    decreases v, 0
  {
    hide Ser, SerFields, SeenFields, Parse, BuildNames, Reread, Faithful, Conforms, Written;
    var member, tag := members[i], Tag(m, members[i]);
    var sh, field := Resolve(m, member.ref), Visible(v.entries, member.name);
    assert GoodMember(m, member);
    FoundIsMember(m, names, members, i);
    MemberFound(m, names, c, members, v.entries, attrs, ns, i);
    SeenMember(m, members, v.entries, member.name);
    if field.Some? {
      HeightOfEntry(v.entries, Entry(Str(member.name), field.value));
      if !Vanishes(sh, field.value) {
        FieldIsSmaller(v, member.name, field.value);
        RoundTrip(m, names, c, sh, field.value, tag, ns, depth - 1);
      }
    }
  }

  lemma FieldIsSmaller(v: Value, name: string, value: Value)
    requires v.Dict? && Entry(Str(name), value) in v.entries
    ensures (v decreases to value)
  {
    var i :| 0 <= i < |v.entries| && v.entries[i] == Entry(Str(name), value);
    assert (v.entries decreases to v.entries[i]);
  }

  lemma {:induction false} ListRoundTrip(m: ShapeMap, names: set<string>, c: Codec, sh: Shape, v: Value,
                                         name: string, ns: string, depth: nat)
    requires WellFormedAt(m, names, sh) && Faithful(c) && Conforms(m, sh, v)
    requires sh.kind.List? && !Vanishes(sh, v) && Written(m, c, sh, v, name) && depth >= Height(v)
    ensures Parse(m, c, sh, Gather(RereadAll(Ser(m, c, sh, v, name).value, ns)), depth) == Ok(Seen(m, sh, v))
    decreases v, 1
  {
    var member := Resolve(m, sh.kind.member);
    var flat := Flag(sh.traits.flattened);
    var tag := if flat then name else Or(member.traits.name, "member");
    ItemsRoundTrip(m, names, c, member, v.items, tag, ns, depth - 1);
    var xs := SerItems(m, c, member, v.items, tag).value;
    if flat {
      assert Elements(Gather(RereadAll(xs, ns)), true) == RereadAll(xs, ns);
    } else {
      assert Ser(m, c, sh, v, name).value == [Elem(name, map[], None, xs)];
    }
  }

  lemma {:induction false} ItemsRoundTrip(m: ShapeMap, names: set<string>, c: Codec, sh: Shape, items: seq<Value>,
                                          name: string, ns: string, depth: nat)
    requires WellFormedAt(m, names, sh) && !FlatList(sh) && Faithful(c)
    requires forall x :: x in items ==> Conforms(m, sh, x)
    requires depth >= ItemsHeight(items)
    ensures SerItems(m, c, sh, items, name).Ok?
    ensures ParseItems(m, c, sh, RereadAll(SerItems(m, c, sh, items, name).value, ns), depth) ==
            Ok(SeenItems(m, sh, items))
    decreases items, 0
  {
    ItemsWrite(m, names, c, sh, items, name);
    if items != [] {
      RoundTrip(m, names, c, sh, items[0], name, ns, depth);
      ItemsRoundTrip(m, names, c, sh, items[1..], name, ns, depth);
      var first, rest := Ser(m, c, sh, items[0], name).value, SerItems(m, c, sh, items[1..], name).value;
      assert first == [first[0]];
      var ds := RereadAll(first + rest, ns);
      assert (first + rest)[1..] == rest;
      assert ds[0] == Reread(first[0], ns) && ds[1..] == RereadAll(rest, ns);
    }
  }

  lemma {:induction false} MapRoundTrip(m: ShapeMap, names: set<string>, c: Codec, sh: Shape, v: Value,
                                        name: string, ns: string, depth: nat)
    requires WellFormedAt(m, names, sh) && Faithful(c) && Conforms(m, sh, v)
    requires sh.kind.Map? && Written(m, c, sh, v, name) && depth >= Height(v)
    ensures Parse(m, c, sh, Gather(RereadAll(Ser(m, c, sh, v, name).value, ns)), depth) == Ok(Seen(m, sh, v))
    decreases v, 1
  {
    var key, value := Resolve(m, sh.kind.key), Resolve(m, sh.kind.value);
    EntriesRoundTrip(m, names, c, key, value, v.entries, ns, Pair(None, None), map[], depth - 1);
    var xs := SerEntries(m, c, key, value, v.entries).value;
    assert Ser(m, c, sh, v, name).value == [Elem(name, map[], None, xs)];
    assert map[] + SeenEntries(m, value, v.entries) == SeenEntries(m, value, v.entries);
  }

  ghost predicate GoodEntryShapes(m: ShapeMap, names: set<string>, key: Shape, value: Shape) {
    && WellFormedAt(m, names, key) && WellFormedAt(m, names, value)
    && key.kind.Scalar? && !FlatList(value)
    && key.traits.name != Some("") && value.traits.name != Some("")
    && Or(key.traits.name, "key") != Or(value.traits.name, "value")
  }

  function EntryElement(m: ShapeMap, c: Codec, key: Shape, value: Shape, e: Entry): Xml
    requires Closed(m) && InMap(m, key.kind) && InMap(m, value.kind)
    requires Ser(m, c, key, e.key, Or(key.traits.name, "key")).Ok?
    requires Ser(m, c, value, e.value, Or(value.traits.name, "value")).Ok?
  {
    Elem("entry", map[], None,
      Ser(m, c, key, e.key, Or(key.traits.name, "key")).value + Ser(m, c, value, e.value, Or(value.traits.name, "value")).value)
  }

  lemma SerEntriesCons(m: ShapeMap, c: Codec, key: Shape, value: Shape, entries: seq<Entry>, ns: string)
    requires Closed(m) && InMap(m, key.kind) && InMap(m, value.kind) && entries != []
    requires SerEntries(m, c, key, value, entries).Ok?
    ensures Ser(m, c, key, entries[0].key, Or(key.traits.name, "key")).Ok?
    ensures Ser(m, c, value, entries[0].value, Or(value.traits.name, "value")).Ok?
    ensures SerEntries(m, c, key, value, entries[1..]).Ok?
    ensures RereadAll(SerEntries(m, c, key, value, entries).value, ns) ==
            [Reread(EntryElement(m, c, key, value, entries[0]), ns)] +
            RereadAll(SerEntries(m, c, key, value, entries[1..]).value, ns)
  {
    hide Ser, Reread;
    var x, rest := EntryElement(m, c, key, value, entries[0]), SerEntries(m, c, key, value, entries[1..]).value;
    assert ([x] + rest)[1..] == rest;
  }

  lemma ParseEntriesCons(m: ShapeMap, c: Codec, key: Shape, value: Shape, d: Dom, ds: seq<Dom>, pair: Pair,
                         parsed: map<Py, Py>, depth: nat, k: Py, v: Py)
    requires Closed(m) && InMap(m, key.kind) && InMap(m, value.kind) && Hashable(k)
    requires ParsePairs(m, c, key, value, d.children, pair, depth) == Ok(Pair(Some(k), Some(v)))
    ensures ParseEntries(m, c, key, value, [d] + ds, pair, parsed, depth) ==
            ParseEntries(m, c, key, value, ds, Pair(Some(k), Some(v)), parsed[k := v], depth)
  {
    hide ParsePairs;
    assert ([d] + ds)[1..] == ds;
  }

  lemma {:induction false} EntriesRoundTrip(m: ShapeMap, names: set<string>, c: Codec, key: Shape, value: Shape,
                                            entries: seq<Entry>, ns: string, pair: Pair, parsed: map<Py, Py>, depth: nat)
    requires GoodEntryShapes(m, names, key, value) && Faithful(c)
    requires forall e :: e in entries ==> EntryConforms(m, key, value, e)
    requires depth >= EntriesHeight(entries)
    ensures SerEntries(m, c, key, value, entries).Ok?
    ensures ParseEntries(m, c, key, value, RereadAll(SerEntries(m, c, key, value, entries).value, ns), pair, parsed, depth) ==
            Ok(parsed + SeenEntries(m, value, entries))
    decreases entries, 1
  {
    hide Ser, SerEntries, Reread, ParsePairs, ParseEntries, Parse, Seen, SeenEntries, EntryConforms, Conforms,
      Faithful, Denote, EntryElement, WellFormed, GoodKind;
    EntriesWrite(m, names, c, key, value, entries);
    if entries == [] {
      NoEntries(m, c, key, value, ns, pair, parsed, depth);
    } else {
      var e, rest := entries[0], entries[1..];
      assert (entries decreases to entries[0]);
      var pk, pv := Denote(e.key), Seen(m, value, e.value);
      HeightOfEntry(entries, e);
      SerEntriesCons(m, c, key, value, entries, ns);
      EntryRoundTrip(m, names, c, key, value, e, ns, pair, depth);
      EntriesRoundTrip(m, names, c, key, value, rest, ns, Pair(Some(pk), Some(pv)), parsed[pk := pv], depth);
      ParseEntriesCons(m, c, key, value, Reread(EntryElement(m, c, key, value, e), ns),
        RereadAll(SerEntries(m, c, key, value, rest).value, ns), pair, parsed, depth, pk, pv);
      SeenEntriesCons(m, value, entries);
      assert parsed[pk := pv] + SeenEntries(m, value, rest) == parsed + (map[pk := pv] + SeenEntries(m, value, rest));
    }
  }

  lemma NoEntries(m: ShapeMap, c: Codec, key: Shape, value: Shape, ns: string, pair: Pair, parsed: map<Py, Py>, depth: nat)
    requires Closed(m) && InMap(m, key.kind) && InMap(m, value.kind)
    ensures SerEntries(m, c, key, value, []) == Ok([])
    ensures ParseEntries(m, c, key, value, RereadAll([], ns), pair, parsed, depth) == Ok(parsed + SeenEntries(m, value, []))
  {
    assert parsed + map[] == parsed;
  }

  lemma SeenEntriesCons(m: ShapeMap, sh: Shape, entries: seq<Entry>)
    requires Closed(m) && InMap(m, sh.kind) && entries != []
    ensures SeenEntries(m, sh, entries) ==
            map[Denote(entries[0].key) := Seen(m, sh, entries[0].value)] + SeenEntries(m, sh, entries[1..])
  {
  }

  lemma ParseTwo(m: ShapeMap, c: Codec, key: Shape, value: Shape, dk: Dom, dv: Dom, pair: Pair, depth: nat, k: Py, v: Py)
    requires Closed(m) && InMap(m, key.kind) && InMap(m, value.kind)
    requires key.traits.name != Some("") && value.traits.name != Some("")
    requires dk.tag == Or(key.traits.name, "key") && dv.tag == Or(value.traits.name, "value") && dk.tag != dv.tag
    requires Parse(m, c, key, One(dk), depth) == Ok(k) && Parse(m, c, value, One(dv), depth) == Ok(v)
    ensures ParsePairs(m, c, key, value, [dk, dv], pair, depth) == Ok(Pair(Some(k), Some(v)))
  {
    hide Parse;
    assert [dk, dv][1..] == [dv] && [dv][1..] == [];
    assert ParsePairs(m, c, key, value, [], Pair(Some(k), Some(v)), depth) == Ok(Pair(Some(k), Some(v)));
    assert ParsePairs(m, c, key, value, [dv], pair.(key := Some(k)), depth) == Ok(Pair(Some(k), Some(v)));
  }

  lemma ChildrenOfEntry(m: ShapeMap, c: Codec, key: Shape, value: Shape, e: Entry, ns: string)
    requires Closed(m) && InMap(m, key.kind) && InMap(m, value.kind)
    requires !FlatList(key) && !FlatList(value)
    requires Written(m, c, key, e.key, Or(key.traits.name, "key"))
    requires Written(m, c, value, e.value, Or(value.traits.name, "value"))
    ensures
      var ks := Ser(m, c, key, e.key, Or(key.traits.name, "key")).value;
      var vs := Ser(m, c, value, e.value, Or(value.traits.name, "value")).value;
      && Gather(RereadAll(ks, ns)) == One(Reread(ks[0], ns)) && Gather(RereadAll(vs, ns)) == One(Reread(vs[0], ns))
      && Reread(EntryElement(m, c, key, value, e), ns).children == [Reread(ks[0], ns), Reread(vs[0], ns)]
  {
    hide Ser;
    var ks := Ser(m, c, key, e.key, Or(key.traits.name, "key")).value;
    var vs := Ser(m, c, value, e.value, Or(value.traits.name, "value")).value;
    assert ks == [ks[0]] && vs == [vs[0]];
    RereadConcat(ks, vs, ns);
  }

  lemma {:induction false} EntryRoundTrip(m: ShapeMap, names: set<string>, c: Codec, key: Shape, value: Shape,
                                          e: Entry, ns: string, pair: Pair, depth: nat)
    requires GoodEntryShapes(m, names, key, value) && Faithful(c) && EntryConforms(m, key, value, e)
    requires depth >= Height(e.key) && depth >= Height(e.value)
    ensures Ser(m, c, key, e.key, Or(key.traits.name, "key")).Ok?
    ensures Ser(m, c, value, e.value, Or(value.traits.name, "value")).Ok?
    ensures Hashable(Denote(e.key))
    ensures ParsePairs(m, c, key, value, Reread(EntryElement(m, c, key, value, e), ns).children, pair, depth) ==
            Ok(Pair(Some(Denote(e.key)), Some(Seen(m, value, e.value))))
    decreases e
  {
    hide Ser, Parse, ParsePairs, Reread, Faithful, WellFormed, EntryElement;
    var Entry(k, v) := e;
    var kTag, vTag := Or(key.traits.name, "key"), Or(value.traits.name, "value");
    RoundTrip(m, names, c, key, k, kTag, ns, depth);
    RoundTrip(m, names, c, value, v, vTag, ns, depth);
    ChildrenOfEntry(m, c, key, value, e, ns);
    ParseTwo(m, c, key, value, RereadAll(Ser(m, c, key, k, kTag).value, ns)[0],
      RereadAll(Ser(m, c, value, v, vTag).value, ns)[0], pair, depth, Denote(k), Seen(m, value, v));
  }
}
