/** Whole request bodies: what a reader gets back, and exactly when that is everything. */
module XmlBody {
  import opened Results
  import opened Numerals
  import opened Shapes
  import opened Xml
  import opened XmlSerializer
  import opened XmlParser
  import opened XmlRoundTrip
  import opened Codecs

  /** No None member and no empty flattened list at any depth. */
  predicate NothingDropped(m: ShapeMap, sh: Shape, v: Value)
    requires Closed(m) && InMap(m, sh.kind)
    decreases v
  {
    match sh.kind
    case Structure(members, _) => v.Dict? ==> forall e :: e in v.entries ==> FieldKept(m, members, e)
    case List(ref) => v.Items? ==> forall x :: x in v.items ==> NothingDropped(m, Resolve(m, ref), x)
    case Map(_, value) => v.Dict? ==> forall e :: e in v.entries ==> EntryKept(m, Resolve(m, value), e)
    case Scalar(_) => true
  }

  predicate FieldKept(m: ShapeMap, members: seq<Member>, e: Entry)
    requires Closed(m) && InMap(m, Structure(members, []))
    decreases e
  {
    var Entry(key, value) := e;
    key.Str? && FindMember(members, key.s).Some? ==>
      var sh := Resolve(m, FindMember(members, key.s).value);
      !value.NoneV? && !Vanishes(sh, value) && NothingDropped(m, sh, value)
  }

  predicate EntryKept(m: ShapeMap, sh: Shape, e: Entry)
    requires Closed(m) && InMap(m, sh.kind)
    decreases e
  {
    var Entry(_, value) := e;
    NothingDropped(m, sh, value)
  }

  lemma {:induction false} DenotedKeys(entries: seq<Entry>)
    ensures forall k :: k in DenoteEntries(entries) <==> exists i :: 0 <= i < |entries| && Denote(entries[i].key) == k
    decreases |entries|
  {
    if entries != [] {
      var rest := entries[1..];
      DenotedKeys(rest);
      assert DenoteEntries(entries) == map[Denote(entries[0].key) := Denote(entries[0].value)] + DenoteEntries(rest);
      forall k
        ensures k in DenoteEntries(entries) <==> exists i :: 0 <= i < |entries| && Denote(entries[i].key) == k
      {
        if k in DenoteEntries(rest) {
          var i :| 0 <= i < |rest| && Denote(rest[i].key) == k;
          assert entries[i + 1] == rest[i];
        }
        if i :| 0 <= i < |entries| && Denote(entries[i].key) == k && i > 0 {
          assert rest[i - 1] == entries[i];
        }
      }
    }
  }

  lemma {:induction false} SeenEntryKeys(m: ShapeMap, sh: Shape, entries: seq<Entry>)
    requires Closed(m) && InMap(m, sh.kind)
    ensures SeenEntries(m, sh, entries).Keys == DenoteEntries(entries).Keys
    decreases |entries|
  {
    if entries != [] {
      SeenEntryKeys(m, sh, entries[1..]);
    }
  }

  lemma ScalarsStayApart(t: ScalarType, a: Value, b: Value)
    requires ScalarConforms(t, a) && ScalarConforms(t, b) && Denote(a) == Denote(b)
    ensures a == b
  {
  }

  lemma FirstKeyIsNew(entries: seq<Entry>, t: ScalarType)
    requires entries != [] && DistinctKeys(entries)
    requires forall e :: e in entries ==> ScalarConforms(t, e.key)
    ensures Denote(entries[0].key) !in DenoteEntries(entries[1..])
  {
    DenotedKeys(entries[1..]);
    var k := Denote(entries[0].key);
    if k in DenoteEntries(entries[1..]) {
      var i :| 0 <= i < |entries[1..]| && Denote(entries[1..][i].key) == k;
      assert entries[1..][i] == entries[i + 1];
      ScalarsStayApart(t, entries[0].key, entries[i + 1].key);
      assert false;
    }
  }

  lemma InsertAgrees(k: Py, a: Py, b: Py, m1: map<Py, Py>, m2: map<Py, Py>)
    requires k !in m1 && k !in m2
    ensures map[k := a] + m1 == map[k := b] + m2 <==> a == b && m1 == m2
  {
    if map[k := a] + m1 == map[k := b] + m2 {
      assert (map[k := a] + m1)[k] == a && (map[k := b] + m2)[k] == b;
      assert m1 == (map[k := a] + m1) - {k};
      assert m2 == (map[k := b] + m2) - {k};
    }
  }

  /** The reader sees the whole value exactly when nothing in it is dropped. */
  lemma {:induction false} SeenIsAll(m: ShapeMap, names: set<string>, sh: Shape, v: Value)
    requires WellFormedAt(m, names, sh) && Conforms(m, sh, v)
    ensures Seen(m, sh, v) == Denote(v) <==> NothingDropped(m, sh, v)
    decreases v, 1
  {
    hide SeenFields, SeenItems, SeenEntries, DenoteItems, DenoteEntries, FieldKept, EntryKept;
    match sh.kind
    case Structure(members, _) => FieldsSeen(m, names, members, v.entries);
    case List(ref) => ListSeen(m, names, sh, v);
    case Map(key, value) => EntriesSeen(m, names, Resolve(m, key), Resolve(m, value), v.entries);
    case Scalar(_) =>
  }

  lemma ListSeen(m: ShapeMap, names: set<string>, sh: Shape, v: Value)
    requires WellFormedAt(m, names, sh) && Conforms(m, sh, v) && sh.kind.List?
    ensures Seen(m, sh, v) == Denote(v) <==> NothingDropped(m, sh, v)
    decreases v, 0
  {
    hide SeenItems, DenoteItems, WellFormed, GoodKind, FlatMap, ScalarConforms;
    ListMember(m, names, sh);
    var member := Resolve(m, sh.kind.member);
    ListParts(m, sh, v);
    hide Seen, Denote, NothingDropped, Conforms;
    ItemsSeen(m, names, member, v.items);
  }

  lemma ListMember(m: ShapeMap, names: set<string>, sh: Shape)
    requires WellFormedAt(m, names, sh) && sh.kind.List?
    ensures WellFormedAt(m, names, Resolve(m, sh.kind.member))
  {
  }

  lemma ListParts(m: ShapeMap, sh: Shape, v: Value)
    requires Closed(m) && InMap(m, sh.kind) && sh.kind.List? && Conforms(m, sh, v)
    ensures
      var member := Resolve(m, sh.kind.member);
      && v.Items? && (forall x :: x in v.items ==> Conforms(m, member, x))
      && Seen(m, sh, v) == PyList(SeenItems(m, member, v.items)) && Denote(v) == PyList(DenoteItems(v.items))
      && (NothingDropped(m, sh, v) <==> forall x :: x in v.items ==> NothingDropped(m, member, x))
  {
    hide SeenItems, DenoteItems;
  }

  lemma {:induction false} ItemsSeen(m: ShapeMap, names: set<string>, sh: Shape, items: seq<Value>)
    requires WellFormedAt(m, names, sh)
    requires forall x :: x in items ==> Conforms(m, sh, x)
    ensures SeenItems(m, sh, items) == DenoteItems(items) <==> forall x :: x in items ==> NothingDropped(m, sh, x)
    decreases items, 0
  {
    if items != [] {
      hide Conforms, NothingDropped, Seen, Denote, WellFormed, GoodKind;
      var rest := items[1..];
      SeenIsAll(m, names, sh, items[0]);
      ItemsSeen(m, names, sh, rest);
      AllKept(m, sh, items);
      ConsAgrees(Seen(m, sh, items[0]), SeenItems(m, sh, rest), Denote(items[0]), DenoteItems(rest));
    }
  }

  lemma AllKept(m: ShapeMap, sh: Shape, items: seq<Value>)
    requires Closed(m) && InMap(m, sh.kind) && items != []
    ensures (forall x :: x in items ==> NothingDropped(m, sh, x)) <==>
            NothingDropped(m, sh, items[0]) && forall x :: x in items[1..] ==> NothingDropped(m, sh, x)
  {
    hide NothingDropped;
    assert items == [items[0]] + items[1..];
  }

  lemma ConsAgrees(a: Py, more: seq<Py>, b: Py, others: seq<Py>)
    ensures [a] + more == [b] + others <==> a == b && more == others
  {
    assert ([a] + more)[0] == a && ([a] + more)[1..] == more;
    assert ([b] + others)[0] == b && ([b] + others)[1..] == others;
  }

  lemma {:induction false} EntriesSeen(m: ShapeMap, names: set<string>, key: Shape, value: Shape, entries: seq<Entry>)
    requires WellFormedAt(m, names, value) && InMap(m, key.kind) && key.kind.Scalar? && DistinctKeys(entries)
    requires forall e :: e in entries ==> EntryConforms(m, key, value, e)
    ensures SeenEntries(m, value, entries) == DenoteEntries(entries) <==>
            forall e :: e in entries ==> EntryKept(m, value, e)
    decreases entries, 0
  {
    if entries != [] {
      var e, rest := entries[0], entries[1..];
      assert (entries decreases to entries[0]);
      EntriesSeen(m, names, key, value, rest);
      EntryIsSeen(m, names, key, value, e);
      forall x | x in entries ensures ScalarConforms(key.kind.scalar, x.key) {
        KeyConforms(m, key, value, x);
      }
      FirstKeyIsNew(entries, key.kind.scalar);
      SeenEntryKeys(m, value, rest);
      hide Conforms, NothingDropped, Seen, Denote, WellFormed, GoodKind, EntryConforms, EntryKept;
      InsertAgrees(Denote(e.key), Seen(m, value, e.value), Denote(e.value), SeenEntries(m, value, rest), DenoteEntries(rest));
      assert entries == [e] + rest;
    }
  }

  lemma KeyConforms(m: ShapeMap, key: Shape, value: Shape, e: Entry)
    requires Closed(m) && InMap(m, key.kind) && InMap(m, value.kind) && key.kind.Scalar? && EntryConforms(m, key, value, e)
    ensures ScalarConforms(key.kind.scalar, e.key)
  {
    var Entry(k, _) := e;
    assert Conforms(m, key, k);
  }

  lemma {:induction false} EntryIsSeen(m: ShapeMap, names: set<string>, key: Shape, value: Shape, e: Entry)
    requires WellFormedAt(m, names, value) && InMap(m, key.kind) && EntryConforms(m, key, value, e)
    ensures Seen(m, value, e.value) == Denote(e.value) <==> EntryKept(m, value, e)
    decreases e
  {
    var Entry(_, v) := e;
    SeenIsAll(m, names, value, v);
  }

  lemma {:induction false} FieldsSeen(m: ShapeMap, names: set<string>, members: seq<Member>, entries: seq<Entry>)
    requires Closed(m) && WellFormed(m, names)
    requires InMap(m, Structure(members, [])) && GoodKind(m, names, Structure(members, []))
    requires DistinctKeys(entries) && forall e :: e in entries ==> FieldConforms(m, members, e)
    ensures SeenFields(m, members, entries) == DenoteEntries(entries) <==>
            forall e :: e in entries ==> FieldKept(m, members, e)
    decreases entries, 0
  {
    if entries != [] {
      var e, rest := entries[0], entries[1..];
      assert (entries decreases to entries[0]);
      assert FieldConforms(m, members, e);
      FieldsSeen(m, names, members, rest);
      forall x | x in entries ensures ScalarConforms(StringT, x.key) {
        assert FieldConforms(m, members, x);
      }
      FirstKeyIsNew(entries, StringT);
      SeenFieldKeys(m, members, rest);
      FieldIsSeen(m, names, members, e);
      FirstFieldSeen(m, members, entries);
      assert entries == [e] + rest;
    }
  }

  lemma {:induction false} FieldIsSeen(m: ShapeMap, names: set<string>, members: seq<Member>, e: Entry)
    requires Closed(m) && WellFormed(m, names)
    requires InMap(m, Structure(members, [])) && GoodKind(m, names, Structure(members, []))
    requires FieldConforms(m, members, e)
    ensures
      var sh := Resolve(m, FindMember(members, e.key.s).value);
      FieldKept(m, members, e) <==>
        !e.value.NoneV? && !Vanishes(sh, e.value) && Seen(m, sh, e.value) == Denote(e.value)
    decreases e
  {
    var Entry(key, value) := e;
    FieldShape(m, names, members, key.s);
    if !value.NoneV? {
      SeenIsAll(m, names, Resolve(m, FindMember(members, key.s).value), value);
    }
  }

  lemma {:induction false} SeenFieldKeys(m: ShapeMap, members: seq<Member>, entries: seq<Entry>)
    requires Closed(m) && InMap(m, Structure(members, []))
    ensures SeenFields(m, members, entries).Keys <= DenoteEntries(entries).Keys
    decreases |entries|
  {
    if entries != [] {
      SeenFieldKeys(m, members, entries[1..]);
    }
  }

  lemma FirstFieldSeen(m: ShapeMap, members: seq<Member>, entries: seq<Entry>)
    requires Closed(m) && InMap(m, Structure(members, []))
    requires entries != [] && FieldConforms(m, members, entries[0])
    requires Denote(entries[0].key) !in DenoteEntries(entries[1..])
    requires SeenFields(m, members, entries[1..]).Keys <= DenoteEntries(entries[1..]).Keys
    ensures
      var e := entries[0];
      var sh := Resolve(m, FindMember(members, e.key.s).value);
      SeenFields(m, members, entries) == DenoteEntries(entries) <==>
        && !e.value.NoneV? && !Vanishes(sh, e.value) && Seen(m, sh, e.value) == Denote(e.value)
        && SeenFields(m, members, entries[1..]) == DenoteEntries(entries[1..])
  {
    hide Conforms, Seen, WellFormed;
    var e, rest := entries[0], entries[1..];
    var sh, k := Resolve(m, FindMember(members, e.key.s).value), Denote(e.key);
    assert k in DenoteEntries(entries);
    if !e.value.NoneV? && !Vanishes(sh, e.value) {
      InsertAgrees(k, Seen(m, sh, e.value), Denote(e.value), SeenFields(m, members, rest), DenoteEntries(rest));
    }
  }

  /** A body reads back as the value itself, exactly when no None and no empty flattened list is in it. */
  lemma BodyRoundTrip(m: ShapeMap, names: set<string>, c: Codec, sh: Shape, params: Value, depth: nat)
    requires WellFormedAt(m, names, sh) && Faithful(c) && Conforms(m, sh, params)
    requires sh.kind.Structure? && sh.traits.name.Some? && depth >= Height(params)
    ensures SerializeBody(m, c, sh, params).Ok?
    ensures
      var parsed := Parse(m, c, sh, One(Reread(SerializeBody(m, c, sh, params).value, "")), depth);
      && parsed == Ok(Seen(m, sh, params))
      && (parsed == Ok(Denote(params)) <==> NothingDropped(m, sh, params))
  {
    var name := sh.traits.name.value;
    RoundTrip(m, names, c, sh, params, name, "", depth);
    SeenIsAll(m, names, sh, params);
    hide Ser, Parse, Seen, Denote, NothingDropped, Reread, Conforms, WellFormed, Height, Faithful;
    var xs := Ser(m, c, sh, params, name).value;
    assert xs == [xs[0]];
  }

  /** A None member ends the loop over a structure: the members after it are not written, whatever they are. */
  lemma {:induction false} NoneHidesLaterMembers(m: ShapeMap, c: Codec, members: seq<Member>, before: seq<Entry>, key: string,
                                                 after: seq<Entry>, attrs: map<string, Value>)
    requires Closed(m) && InMap(m, Structure(members, [])) && FindMember(members, key).Some?
    ensures SerFields(m, c, members, before + ([Entry(Str(key), NoneV)] + after), attrs) == SerFields(m, c, members, before, attrs)
    decreases |before|
  {
    var entries := before + ([Entry(Str(key), NoneV)] + after);
    if before == [] {
      assert entries == [Entry(Str(key), NoneV)] + after;
    } else {
      assert entries[0] == before[0] && entries[1..] == before[1..] + ([Entry(Str(key), NoneV)] + after);
      hide Ser;
      forall more: map<string, Value>
        ensures SerFields(m, c, members, entries[1..], more) == SerFields(m, c, members, before[1..], more)
      {
        NoneHidesLaterMembers(m, c, members, before[1..], key, after, more);
      }
    }
  }

  // ----- Namespaces

  /** No member that becomes an attribute has this name. */
  predicate NoAttribute(m: ShapeMap, members: seq<Member>, name: string)
    requires Closed(m) && InMap(m, Structure(members, []))
  {
    forall i :: 0 <= i < |members| ==>
      var traits := Resolve(m, members[i].ref).traits;
      traits.xmlAttribute == Some(true) ==> traits.name != Some(name)
  }

  lemma {:induction false} FieldsKeepAttribute(m: ShapeMap, c: Codec, members: seq<Member>, entries: seq<Entry>,
                                               attrs: map<string, Value>, name: string)
    requires Closed(m) && InMap(m, Structure(members, [])) && NoAttribute(m, members, name)
    requires SerFields(m, c, members, entries, attrs).Ok?
    ensures
      var written := SerFields(m, c, members, entries, attrs).value.attrs;
      (name in written <==> name in attrs) && (name in attrs ==> written[name] == attrs[name])
    decreases |entries|
  {
    if entries != [] {
      hide Ser, Resolve;
      var Entry(key, value) := entries[0];
      var ref := FindMember(members, key.s).value;
      var i :| 0 <= i < |members| && members[i] == Member(key.s, ref);
      var traits := Resolve(m, members[i].ref).traits;
      if !value.NoneV? {
        if Flag(traits.xmlAttribute) {
          FieldsKeepAttribute(m, c, members, entries[1..], attrs[traits.name.value := value], name);
        } else {
          FieldsKeepAttribute(m, c, members, entries[1..], attrs, name);
        }
      }
    }
  }

  /** A structure opens the namespace its shape names without a prefix; any other element is in the one around it. */
  lemma NamespaceOfElement(m: ShapeMap, c: Codec, sh: Shape, v: Value, name: string, around: string)
    requires Closed(m) && InMap(m, sh.kind) && !FlatList(sh) && Ser(m, c, sh, v, name).Ok?
    requires sh.kind.Structure? ==> NoAttribute(m, sh.kind.members, "xmlns")
    ensures |Ser(m, c, sh, v, name).value| == 1
    ensures Reread(Ser(m, c, sh, v, name).value[0], around).namespace ==
            match sh.traits.xmlNamespace
            case Some(ns) => if sh.kind.Structure? && ns.prefix == "" then ns.uri else around
            case None => around
  {
    if sh.kind.Structure? {
      var attrs := NamespaceAttrs(sh.traits);
      FieldsKeepAttribute(m, c, sh.kind.members, v.entries, attrs, "xmlns");
      hide SerFields;
      if sh.traits.xmlNamespace.Some? && sh.traits.xmlNamespace.value.prefix != "" {
        NotPlain(sh.traits.xmlNamespace.value.prefix);
      }
    }
  }

  lemma NotPlain(prefix: string)
    ensures "xmlns:" + prefix != "xmlns"
  {
    assert |"xmlns:" + prefix| > |"xmlns"|;
  }

  /** With a prefix the structure only declares it, as an attribute of its own. */
  lemma PrefixDeclared(m: ShapeMap, c: Codec, sh: Shape, v: Value, name: string, ns: Namespace)
    requires Closed(m) && InMap(m, sh.kind) && sh.kind.Structure? && Ser(m, c, sh, v, name).Ok?
    requires sh.traits.xmlNamespace == Some(ns) && ns.prefix != ""
    requires NoAttribute(m, sh.kind.members, "xmlns:" + ns.prefix)
    ensures
      var attrs := Ser(m, c, sh, v, name).value[0].attrs;
      "xmlns:" + ns.prefix in attrs && attrs["xmlns:" + ns.prefix] == Str(ns.uri)
  {
    FieldsKeepAttribute(m, c, sh.kind.members, v.entries, NamespaceAttrs(sh.traits), "xmlns:" + ns.prefix);
    hide SerFields;
  }

  // ----- Tags and texts

  /** The text of a scalar as it is written. */
  predicate TextIs(c: Codec, t: ScalarType, v: Value, text: string) {
    match t
    case BooleanT =>
      text == if v in {NoneV, Bool(false), Int(0), Float(0.0), Str(""), Blob([]), Items([]), Dict([])} then "false" else "true"
    case BlobT => (v.Blob? && text == c.base64(v.bytes)) || (v.Str? && text == c.base64(c.utf8(v.s)))
    case TimestampT => c.asTime(v).Some? && text == c.timeText(c.asTime(v).value)
    case _ =>
      match v
      case Str(s) => text == s
      case Int(i) => text == IntText(i)
      case Bool(b) => text == if b then "True" else "False"
      case _ => text == c.str(v)
  }

  lemma ScalarElement(m: ShapeMap, c: Codec, sh: Shape, v: Value, name: string, text: string)
    requires Closed(m) && sh.kind.Scalar?
    ensures Ser(m, c, sh, v, name) == Ok([Elem(name, map[], Some(text), [])]) <==> TextIs(c, sh.kind.scalar, v, text)
  {
    var t := sh.kind.scalar;
    assert ScalarText(c, t, v) == Ok(text) <==> TextIs(c, t, v, text) by {
      ScalarTextIs(c, t, v, text);
    }
    hide ScalarText, TextIs;
    if Ser(m, c, sh, v, name) == Ok([Elem(name, map[], Some(text), [])]) {
      assert Ser(m, c, sh, v, name).value[0].text == Some(text);
    }
  }

  lemma ScalarTextIs(c: Codec, t: ScalarType, v: Value, text: string)
    ensures ScalarText(c, t, v) == Ok(text) <==> TextIs(c, t, v, text)
  {
  }

  predicate Tagged(xs: seq<Xml>, tag: string) {
    forall i :: 0 <= i < |xs| ==> xs[i].tag == tag
  }

  /** Whatever a value becomes stands under the name it was given. */
  lemma {:induction false} ElementsTagged(m: ShapeMap, c: Codec, sh: Shape, v: Value, name: string)
    requires Closed(m) && InMap(m, sh.kind) && Ser(m, c, sh, v, name).Ok?
    ensures Tagged(Ser(m, c, sh, v, name).value, name)
    decreases v, 1
  {
    if sh.kind.List? && Flag(sh.traits.flattened) {
      ItemsTagged(m, c, Resolve(m, sh.kind.member), v.items, name);
    }
  }

  lemma {:induction false} ItemsTagged(m: ShapeMap, c: Codec, sh: Shape, items: seq<Value>, name: string)
    requires Closed(m) && InMap(m, sh.kind) && SerItems(m, c, sh, items, name).Ok?
    ensures Tagged(SerItems(m, c, sh, items, name).value, name)
    decreases items, 0
  {
    if items != [] {
      ElementsTagged(m, c, sh, items[0], name);
      ItemsTagged(m, c, sh, items[1..], name);
    }
  }

  /** The items of a list stand under the name of its elements, and under "member" if they have none. */
  lemma ListElement(m: ShapeMap, c: Codec, sh: Shape, v: Value, name: string)
    requires Closed(m) && InMap(m, sh.kind) && sh.kind.List? && Ser(m, c, sh, v, name).Ok?
    requires sh.traits.flattened != Some(true)
    ensures
      var xs := Ser(m, c, sh, v, name).value;
      var word := match Resolve(m, sh.kind.member).traits.name case Some(own) => own case None => "member";
      |xs| == 1 && xs[0].tag == name && xs[0].attrs == map[] && xs[0].text == None && Tagged(xs[0].children, word)
  {
    var member := Resolve(m, sh.kind.member);
    ItemsTagged(m, c, member, v.items, Or(member.traits.name, "member"));
  }

  /** An entry: what the key becomes, then what the value becomes. */
  ghost predicate EntryWritten(x: Xml, keyWord: string, valueWord: string) {
    && x.tag == "entry" && x.attrs == map[] && x.text == None
    && exists n :: 0 <= n <= |x.children| && Tagged(x.children[..n], keyWord) && Tagged(x.children[n..], valueWord)
  }

  lemma {:induction false} EntriesTagged(m: ShapeMap, c: Codec, key: Shape, value: Shape, entries: seq<Entry>)
    requires Closed(m) && InMap(m, key.kind) && InMap(m, value.kind) && SerEntries(m, c, key, value, entries).Ok?
    ensures
      var xs := SerEntries(m, c, key, value, entries).value;
      |xs| == |entries| && forall i :: 0 <= i < |xs| ==> EntryWritten(xs[i], Or(key.traits.name, "key"), Or(value.traits.name, "value"))
    decreases entries, 0
  {
    if entries != [] {
      var e := entries[0];
      assert (entries decreases to e);
      var k, w := Or(key.traits.name, "key"), Or(value.traits.name, "value");
      EntriesTagged(m, c, key, value, entries[1..]);
      ElementsTagged(m, c, key, e.key, k);
      ElementsTagged(m, c, value, e.value, w);
      hide Ser, Tagged;
      EntryOf(Ser(m, c, key, e.key, k).value, Ser(m, c, value, e.value, w).value, k, w);
      hide EntryWritten, Or;
    }
  }

  lemma EntryOf(ks: seq<Xml>, vs: seq<Xml>, k: string, w: string)
    requires Tagged(ks, k) && Tagged(vs, w)
    ensures EntryWritten(Elem("entry", map[], None, ks + vs), k, w)
  {
    assert (ks + vs)[..|ks|] == ks && (ks + vs)[|ks|..] == vs;
  }

  /** A map holds one "entry" for each pair, with its key and value under their names or under "key" and "value". */
  lemma MapElement(m: ShapeMap, c: Codec, sh: Shape, v: Value, name: string)
    requires Closed(m) && InMap(m, sh.kind) && sh.kind.Map? && Ser(m, c, sh, v, name).Ok?
    ensures v.Dict?
    ensures
      var xs := Ser(m, c, sh, v, name).value;
      var keyWord := match Resolve(m, sh.kind.key).traits.name case Some(own) => own case None => "key";
      var valueWord := match Resolve(m, sh.kind.value).traits.name case Some(own) => own case None => "value";
      && |xs| == 1 && xs[0].tag == name && xs[0].attrs == map[] && xs[0].text == None && |xs[0].children| == |v.entries|
      && forall i :: 0 <= i < |v.entries| ==> EntryWritten(xs[0].children[i], keyWord, valueWord)
  {
    EntriesTagged(m, c, Resolve(m, sh.kind.key), Resolve(m, sh.kind.value), v.entries);
    hide EntryWritten, SerEntries;
  }

  /** The body's root stands under the name of the input shape. */
  lemma RootTagged(m: ShapeMap, c: Codec, sh: Shape, params: Value)
    requires Closed(m) && InMap(m, sh.kind) && SerializeBody(m, c, sh, params).Ok?
    ensures sh.traits.name == Some(SerializeBody(m, c, sh, params).value.tag)
  {
    ElementsTagged(m, c, sh, params, sh.traits.name.value);
    hide Ser;
  }
}
