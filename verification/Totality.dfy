/** A value that passes validation never makes a serializer look up an unknown member, nor fail but for a file. */
module Totality {
  import opened Results
  import opened Numerals
  import opened Shapes
  import opened Xml
  import opened Validator
  import opened Conformance
  import X = XmlSerializer
  import Q = QuerySerializer
  import J = JsonSerializer

  /** A file-like object, which validation lets pass as a blob although only a payload can be one. */
  predicate HasFile(v: Value)
    decreases v
  {
    match v
    case File(_) => true
    case Items(items) => exists i :: 0 <= i < |items| && HasFile(items[i])
    case Dict(entries) => exists i :: 0 <= i < |entries| && (HasFile(entries[i].key) || HasFile(entries[i].value))
    case _ => false
  }

  /** Serialization succeeds, or fails because of a file. */
  predicate Fine(error: Option<X.SerError>, hasFile: bool) {
    error.Some? ==> error.value == X.TypeError && hasFile
  }

  function ErrorOf<T>(r: Result<T, X.SerError>): Option<X.SerError> {
    if r.Err? then Some(r.error) else None
  }

  lemma ScalarFine(m: ShapeMap, c: X.Codec, sh: Shape, v: Value)
    requires Closed(m) && sh.kind.Scalar? && Conforms(m, c, sh, v)
    ensures Fine(ErrorOf(X.ScalarText(c, sh.kind.scalar, v)), HasFile(v))
    ensures Fine(ErrorOf(Q.Leaf(c, sh.kind.scalar, v)), HasFile(v))
    ensures Fine(ErrorOf(J.Leaf(c, sh.kind.scalar, v)), HasFile(v))
  {
  }

  // ----- JSON

  lemma {:induction false} JsonTotal(m: ShapeMap, c: X.Codec, sh: Shape, v: Value)
    requires Closed(m) && InMap(m, sh.kind) && Conforms(m, c, sh, v)
    ensures Fine(ErrorOf(J.Ser(m, c, sh, v)), HasFile(v))
    decreases v, 1
  {
    match sh.kind
    case Structure(members, _) => JsonFields(m, c, members, v.entries);
    case List(ref) => JsonItems(m, c, Resolve(m, ref), v.items);
    case Map(_, ref) => JsonEntries(m, c, Resolve(m, ref), v.entries);
    case Scalar(_) => ScalarFine(m, c, sh, v);
  }

  lemma {:induction false} JsonFields(m: ShapeMap, c: X.Codec, members: seq<Member>, entries: seq<Entry>)
    requires Closed(m) && InMap(m, Structure(members, []))
    requires forall i :: 0 <= i < |entries| ==> FieldConforms(m, c, members, entries[i])
    ensures Fine(ErrorOf(J.SerFields(m, c, members, entries)), HasFile(Dict(entries)))
    decreases entries, 0
  {
    if entries != [] {
      var e := entries[0];
      assert (entries decreases to e) && FieldConforms(m, c, members, e);
      JsonTotal(m, c, Resolve(m, Known(members, e.key).value), e.value);
      JsonFields(m, c, members, entries[1..]);
      FileInRest(entries);
    }
  }

  lemma FileInRest(entries: seq<Entry>)
    requires entries != []
    ensures HasFile(entries[0].key) || HasFile(entries[0].value) || HasFile(Dict(entries[1..])) ==> HasFile(Dict(entries))
  {
    assert forall i :: 0 <= i < |entries[1..]| ==> entries[1..][i] == entries[i + 1];
  }

  lemma FileInLater(items: seq<Value>)
    requires items != []
    ensures HasFile(items[0]) || HasFile(Items(items[1..])) ==> HasFile(Items(items))
  {
    assert forall i :: 0 <= i < |items[1..]| ==> items[1..][i] == items[i + 1];
  }

  lemma {:induction false} JsonItems(m: ShapeMap, c: X.Codec, member: Shape, items: seq<Value>)
    requires Closed(m) && InMap(m, member.kind)
    requires forall i :: 0 <= i < |items| ==> Conforms(m, c, member, items[i])
    ensures Fine(ErrorOf(J.SerItems(m, c, member, items)), HasFile(Items(items)))
    decreases items, 0
  {
    if items != [] {
      JsonTotal(m, c, member, items[0]);
      JsonItems(m, c, member, items[1..]);
      FileInLater(items);
    }
  }

  lemma {:induction false} JsonEntries(m: ShapeMap, c: X.Codec, value: Shape, entries: seq<Entry>)
    requires Closed(m) && InMap(m, value.kind)
    requires forall i :: 0 <= i < |entries| ==> Conforms(m, c, value, entries[i].value)
    ensures Fine(ErrorOf(J.SerEntries(m, c, value, entries)), HasFile(Dict(entries)))
    decreases entries, 0
  {
    if entries != [] {
      assert (entries decreases to entries[0]);
      JsonTotal(m, c, value, entries[0].value);
      JsonEntries(m, c, value, entries[1..]);
      FileInRest(entries);
    }
  }

  // ----- XML

  /** The XML attributes of the shapes that a request can reach have names. */
  ghost predicate AttributesNamed(m: ShapeMap, names: set<string>)
    requires Closed(m)
  {
    forall n :: n in names ==> n in m && Reaches(m[n].kind, names) && NamedHere(m, m[n].kind)
  }

  predicate NamedHere(m: ShapeMap, kind: Kind)
    requires Closed(m) && InMap(m, kind)
  {
    kind.Structure? ==>
      forall i :: 0 <= i < |kind.members| ==>
        var traits := Resolve(m, kind.members[i].ref).traits;
        X.Flag(traits.xmlAttribute) ==> traits.name.Some?
  }

  ghost predicate Named(m: ShapeMap, names: set<string>, kind: Kind) {
    Closed(m) && AttributesNamed(m, names) && InMap(m, kind) && Reaches(kind, names) && NamedHere(m, kind)
  }

  lemma NamedBelow(m: ShapeMap, names: set<string>, kind: Kind, ref: Ref)
    requires Named(m, names, kind) && ref in Refs(kind)
    ensures ref.shape in m && Named(m, names, Resolve(m, ref).kind)
  {
  }

  lemma KnownRef(members: seq<Member>, required: seq<string>, key: Value)
    requires Known(members, key).Some?
    ensures Known(members, key).value in Refs(Structure(members, required))
    ensures exists i :: 0 <= i < |members| && members[i] == Member(key.s, Known(members, key).value)
  {
    var i :| 0 <= i < |members| && members[i] == Member(key.s, Known(members, key).value);
    assert Refs(Structure(members, required))[i] == members[i].ref;
  }

  lemma {:induction false} XmlTotal(m: ShapeMap, c: X.Codec, names: set<string>, sh: Shape, v: Value, name: string)
    requires Named(m, names, sh.kind) && Conforms(m, c, sh, v)
    ensures Fine(ErrorOf(X.Ser(m, c, sh, v, name)), HasFile(v))
    decreases v, 1
  {
    match sh.kind
    case Structure(members, required) =>
      XmlFields(m, c, names, members, required, v.entries, X.NamespaceAttrs(sh.traits));
    case List(ref) =>
      var member := Resolve(m, ref);
      NamedBelow(m, names, sh.kind, ref);
      XmlItems(m, c, names, member, v.items, if X.Flag(sh.traits.flattened) then name else X.Or(member.traits.name, "member"));
    case Map(key, value) =>
      NamedBelow(m, names, sh.kind, key);
      NamedBelow(m, names, sh.kind, value);
      XmlEntries(m, c, names, Resolve(m, key), Resolve(m, value), v.entries);
    case Scalar(_) => ScalarFine(m, c, sh, v);
  }

  lemma {:induction false} XmlFields(m: ShapeMap, c: X.Codec, names: set<string>, members: seq<Member>, required: seq<string>,
                                     entries: seq<Entry>, attrs: map<string, Value>)
    requires Named(m, names, Structure(members, required))
    requires forall i :: 0 <= i < |entries| ==> FieldConforms(m, c, members, entries[i])
    ensures Fine(ErrorOf(X.SerFields(m, c, members, entries, attrs)), HasFile(Dict(entries)))
    decreases entries, 0
  {
    if entries != [] {
      var e := entries[0];
      assert (entries decreases to e) && FieldConforms(m, c, members, e);
      var ref := Known(members, e.key).value;
      KnownRef(members, required, e.key);
      NamedBelow(m, names, Structure(members, required), ref);
      var member := Resolve(m, ref);
      FileInRest(entries);
      assert X.Flag(member.traits.xmlAttribute) ==> member.traits.name.Some?;
      var attrs' := if X.Flag(member.traits.xmlAttribute) then attrs[member.traits.name.value := e.value] else attrs;
      XmlTotal(m, c, names, member, e.value, X.Or(member.traits.name, e.key.s));
      XmlFields(m, c, names, members, required, entries[1..], attrs');
      hide Named, Conforms, FieldConforms, X.Ser, X.SerFields, HasFile;
      XmlFieldsByParts(m, c, members, entries, attrs, attrs', ref, HasFile(e.value), HasFile(Dict(entries[1..])));
    }
  }

  lemma XmlFieldsByParts(m: ShapeMap, c: X.Codec, members: seq<Member>, entries: seq<Entry>, attrs: map<string, Value>,
                         attrs': map<string, Value>, ref: Ref, a: bool, b: bool)
    requires Closed(m) && InMap(m, Structure(members, [])) && entries != []
    requires Known(members, entries[0].key) == Some(ref) && ref.shape in m
    requires
      var traits := Resolve(m, ref).traits;
      if X.Flag(traits.xmlAttribute) then traits.name.Some? && attrs' == attrs[traits.name.value := entries[0].value]
      else attrs' == attrs
    requires Fine(ErrorOf(X.Ser(m, c, Resolve(m, ref), entries[0].value, X.Or(Resolve(m, ref).traits.name, entries[0].key.s))), a)
    requires Fine(ErrorOf(X.SerFields(m, c, members, entries[1..], attrs')), b)
    ensures Fine(ErrorOf(X.SerFields(m, c, members, entries, attrs)), a || b)
  {
    hide X.Ser;
  }

  lemma {:induction false} XmlItems(m: ShapeMap, c: X.Codec, names: set<string>, member: Shape, items: seq<Value>, name: string)
    requires Named(m, names, member.kind)
    requires forall i :: 0 <= i < |items| ==> Conforms(m, c, member, items[i])
    ensures Fine(ErrorOf(X.SerItems(m, c, member, items, name)), HasFile(Items(items)))
    decreases items, 0
  {
    if items != [] {
      XmlTotal(m, c, names, member, items[0], name);
      XmlItems(m, c, names, member, items[1..], name);
      FileInLater(items);
    }
  }

  lemma {:induction false} XmlEntries(m: ShapeMap, c: X.Codec, names: set<string>, key: Shape, value: Shape, entries: seq<Entry>)
    requires Named(m, names, key.kind) && Named(m, names, value.kind)
    requires forall i :: 0 <= i < |entries| ==> EntryConforms(m, c, key, value, entries[i])
    ensures Fine(ErrorOf(X.SerEntries(m, c, key, value, entries)), HasFile(Dict(entries)))
    decreases entries, 0
  {
    if entries != [] {
      var e := entries[0];
      assert (entries decreases to e) && EntryConforms(m, c, key, value, e);
      XmlTotal(m, c, names, key, e.key, X.Or(key.traits.name, "key"));
      XmlTotal(m, c, names, value, e.value, X.Or(value.traits.name, "value"));
      XmlEntries(m, c, names, key, value, entries[1..]);
      FileInRest(entries);
    }
  }

  // ----- Query and EC2

  /** Every use of a shape that a request can reach has a serialized name. */
  ghost predicate UsesNamed(m: ShapeMap, p: Q.Protocol, names: set<string>)
    requires Closed(m)
  {
    forall n :: n in names ==> n in m && Reaches(m[n].kind, names) && HasNames(m, p, m[n].kind)
  }

  /** EC2 takes no empty location name, unless a query name is given. */
  predicate HasNames(m: ShapeMap, p: Q.Protocol, kind: Kind)
    requires Closed(m) && InMap(m, kind)
  {
    p.EC2? ==> forall ref :: ref in Refs(kind) && ref.shape in m ==>
      var traits := Resolve(m, ref).traits;
      traits.queryName.None? ==> traits.name != Some("")
  }

  ghost predicate Usable(m: ShapeMap, p: Q.Protocol, names: set<string>, kind: Kind) {
    Closed(m) && UsesNamed(m, p, names) && InMap(m, kind) && Reaches(kind, names) && HasNames(m, p, kind)
  }

  lemma UsableBelow(m: ShapeMap, p: Q.Protocol, names: set<string>, kind: Kind, ref: Ref, default: string)
    requires Usable(m, p, names, kind) && ref in Refs(kind)
    ensures ref.shape in m && Usable(m, p, names, Resolve(m, ref).kind) && Q.NameOf(p, Resolve(m, ref).traits, default).Ok?
  {
  }

  lemma FineThen(first: Q.Run, rest: Q.Run, a: bool, b: bool)
    requires Fine(first.error, a) && Fine(rest.error, b)
    ensures Fine(Q.Then(first, rest).error, a || b)
  {
  }

  lemma {:induction false} QueryTotal(m: ShapeMap, c: X.Codec, p: Q.Protocol, names: set<string>, sh: Shape, v: Value, prefix: string)
    requires Usable(m, p, names, sh.kind) && Conforms(m, c, sh, v)
    ensures Fine(Q.Ser(m, c, p, sh, v, prefix).error, HasFile(v))
    decreases v, 1
  {
    match sh.kind
    case Structure(members, required) => QueryFields(m, c, p, names, members, required, v.entries, prefix);
    case List(ref) =>
      var member := Resolve(m, ref);
      UsableBelow(m, p, names, sh.kind, ref, "");
      QueryItems(m, c, p, names, member, v.items, Q.ListPrefix(p, sh, member, prefix), 1);
    case Map(key, value) =>
      UsableBelow(m, p, names, sh.kind, key, "key");
      UsableBelow(m, p, names, sh.kind, value, "value");
      var k, w := Q.NameOf(p, Resolve(m, key).traits, "key"), Q.NameOf(p, Resolve(m, value).traits, "value");
      QueryEntries(m, c, p, names, Resolve(m, key), Resolve(m, value), v.entries, Q.MapPrefix(sh, prefix), 1, k.value, w.value);
    case Scalar(_) => ScalarFine(m, c, sh, v);
  }

  lemma {:induction false} QueryFields(m: ShapeMap, c: X.Codec, p: Q.Protocol, names: set<string>, members: seq<Member>,
                                       required: seq<string>, entries: seq<Entry>, prefix: string)
    requires Usable(m, p, names, Structure(members, required))
    requires forall i :: 0 <= i < |entries| ==> FieldConforms(m, c, members, entries[i])
    ensures Fine(Q.SerFields(m, c, p, members, entries, prefix).error, HasFile(Dict(entries)))
    decreases entries, 0
  {
    if entries != [] {
      var e := entries[0];
      assert (entries decreases to e) && FieldConforms(m, c, members, e);
      var ref := Known(members, e.key).value;
      KnownRef(members, required, e.key);
      UsableBelow(m, p, names, Structure(members, required), ref, e.key.s);
      var member := Resolve(m, ref);
      QueryTotal(m, c, p, names, member, e.value, Q.MemberPrefix(prefix, Q.NameOf(p, member.traits, e.key.s).value));
      QueryFields(m, c, p, names, members, required, entries[1..], prefix);
      FileInRest(entries);
      FineThen(Q.SerField(m, c, p, members, e, prefix), Q.SerFields(m, c, p, members, entries[1..], prefix),
               HasFile(e.value), HasFile(Dict(entries[1..])));
    }
  }

  lemma {:induction false} QueryItems(m: ShapeMap, c: X.Codec, p: Q.Protocol, names: set<string>, member: Shape,
                                      items: seq<Value>, prefix: string, i: nat)
    requires Usable(m, p, names, member.kind)
    requires forall k :: 0 <= k < |items| ==> Conforms(m, c, member, items[k])
    ensures Fine(Q.SerItems(m, c, p, member, items, prefix, i).error, HasFile(Items(items)))
    decreases items, 0
  {
    if items != [] {
      QueryTotal(m, c, p, names, member, items[0], prefix + "." + NatText(i));
      QueryItems(m, c, p, names, member, items[1..], prefix, i + 1);
      FileInLater(items);
      hide Q.Ser, Conforms;
    }
  }

  lemma {:induction false} QueryEntries(m: ShapeMap, c: X.Codec, p: Q.Protocol, names: set<string>, key: Shape, value: Shape,
                                        entries: seq<Entry>, prefix: string, i: nat, k: string, w: string)
    requires Usable(m, p, names, key.kind) && Usable(m, p, names, value.kind)
    requires forall j :: 0 <= j < |entries| ==> EntryConforms(m, c, key, value, entries[j])
    ensures Fine(Q.SerEntries(m, c, p, key, value, entries, prefix, i, k, w).error, HasFile(Dict(entries)))
    decreases entries, 0
  {
    if entries != [] {
      var e, at := entries[0], prefix + "." + NatText(i);
      assert (entries decreases to e) && EntryConforms(m, c, key, value, e);
      QueryTotal(m, c, p, names, key, e.key, at + "." + k);
      QueryTotal(m, c, p, names, value, e.value, at + "." + w);
      QueryEntries(m, c, p, names, key, value, entries[1..], prefix, i + 1, k, w);
      FileInRest(entries);
      hide Q.Ser, Conforms, HasFile;
      FineThen(Q.Ser(m, c, p, key, e.key, at + "." + k), Q.Ser(m, c, p, value, e.value, at + "." + w),
               HasFile(e.key), HasFile(e.value));
    }
  }
}
