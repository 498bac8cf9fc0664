/** JSONSerializer of botocore/serialize.py up to the JSON text. */
module JsonSerializer {
  import opened Results
  import opened Shapes
  import opened XmlSerializer

  /** The dictionaries, lists and scalars that are handed to json.dumps. */
  function Ser(m: ShapeMap, c: Codec, sh: Shape, v: Value): Result<Value, SerError>
    requires Closed(m) && InMap(m, sh.kind)
    decreases v, 1
  {
    match sh.kind
    case Structure(members, _) =>
      if !v.Dict? then Err(AttributeError)
      else
        var entries :- SerFields(m, c, members, v.entries);
        Ok(Dict(entries))
    case List(ref) =>
      if !v.Items? then Err(TypeError)
      else
        var items :- SerItems(m, c, Resolve(m, ref), v.items);
        Ok(Items(items))
    case Map(_, ref) =>
      if !v.Dict? then Err(AttributeError)
      else
        var entries :- SerEntries(m, c, Resolve(m, ref), v.entries);
        Ok(Dict(entries))
    case Scalar(t) => Leaf(c, t, v)
  }

  /** Timestamps become seconds and blobs base64 text; json.dumps sees everything else as it is. */
  function Leaf(c: Codec, t: ScalarType, v: Value): Result<Value, SerError> {
    match t
    case TimestampT =>
      var t := c.asTime(v);
      if t.Some? then Ok(Int(t.value)) else Err(ValueError)
    case BlobT =>
      var text :- ScalarText(c, BlobT, v);
      Ok(Str(text))
    case _ => Ok(v)
  }

  function SerFields(m: ShapeMap, c: Codec, members: seq<Member>, entries: seq<Entry>): Result<seq<Entry>, SerError>
    requires Closed(m) && InMap(m, Structure(members, []))
    decreases entries, 0
  {
    if entries == [] then Ok([])
    else
      var Entry(key, value) := entries[0];
      assert (entries decreases to entries[0]);
      var found := if key.Str? then FindMember(members, key.s) else None;
      if found.None? then Err(KeyError(key))
      else
        var first :- Ser(m, c, Resolve(m, found.value), value);
        var rest :- SerFields(m, c, members, entries[1..]);
        Ok([Entry(key, first)] + rest)
  }

  function SerItems(m: ShapeMap, c: Codec, member: Shape, items: seq<Value>): Result<seq<Value>, SerError>
    requires Closed(m) && InMap(m, member.kind)
    decreases items, 0
  {
    if items == [] then Ok([])
    else
      var first :- Ser(m, c, member, items[0]);
      var rest :- SerItems(m, c, member, items[1..]);
      Ok([first] + rest)
  }

  function SerEntries(m: ShapeMap, c: Codec, value: Shape, entries: seq<Entry>): Result<seq<Entry>, SerError>
    requires Closed(m) && InMap(m, value.kind)
    decreases entries, 0
  {
    if entries == [] then Ok([])
    else
      assert (entries decreases to entries[0]);
      var first :- Ser(m, c, value, entries[0].value);
      var rest :- SerEntries(m, c, value, entries[1..]);
      Ok([Entry(entries[0].key, first)] + rest)
  }

  // ----- What the dictionaries hold

  /** The text or number that stands for a scalar. */
  predicate ScalarBecomes(c: Codec, t: ScalarType, v: Value, w: Value) {
    match t
    case TimestampT => w.Int? && c.asTime(v) == Some(w.i)
    case BlobT => (v.Blob? && w == Str(c.base64(v.bytes))) || (v.Str? && w == Str(c.base64(c.utf8(v.s))))
    case _ => w == v
  }

  /** The same dicts under the same keys and the same lists, with timestamps and blobs replaced. */
  ghost predicate Becomes(m: ShapeMap, c: Codec, sh: Shape, v: Value, w: Value)
    requires Closed(m) && InMap(m, sh.kind)
    decreases v, 1
  {
    match sh.kind
    case Structure(members, _) => v.Dict? && w.Dict? && FieldsBecome(m, c, members, v.entries, w.entries)
    case List(ref) => v.Items? && w.Items? && ItemsBecome(m, c, Resolve(m, ref), v.items, w.items)
    case Map(_, ref) => v.Dict? && w.Dict? && EntriesBecome(m, c, Resolve(m, ref), v.entries, w.entries)
    case Scalar(t) => ScalarBecomes(c, t, v, w)
  }

  ghost predicate FieldsBecome(m: ShapeMap, c: Codec, members: seq<Member>, es: seq<Entry>, fs: seq<Entry>)
    requires Closed(m) && InMap(m, Structure(members, []))
    decreases es, 0
  {
    |fs| == |es| && forall i :: 0 <= i < |es| ==> FieldBecomes(m, c, members, es[i], fs[i])
  }

  ghost predicate ItemsBecome(m: ShapeMap, c: Codec, sh: Shape, vs: seq<Value>, ws: seq<Value>)
    requires Closed(m) && InMap(m, sh.kind)
    decreases vs, 0
  {
    |ws| == |vs| && forall i :: 0 <= i < |vs| ==> Becomes(m, c, sh, vs[i], ws[i])
  }

  ghost predicate EntriesBecome(m: ShapeMap, c: Codec, sh: Shape, es: seq<Entry>, fs: seq<Entry>)
    requires Closed(m) && InMap(m, sh.kind)
    decreases es, 0
  {
    |fs| == |es| && forall i :: 0 <= i < |es| ==> EntryBecomes(m, c, sh, es[i], fs[i])
  }

  ghost predicate FieldBecomes(m: ShapeMap, c: Codec, members: seq<Member>, e: Entry, f: Entry)
    requires Closed(m) && InMap(m, Structure(members, []))
    decreases e, 2
  {
    && f.key == e.key && e.key.Str? && FindMember(members, e.key.s).Some?
    && Becomes(m, c, Resolve(m, FindMember(members, e.key.s).value), e.value, f.value)
  }

  ghost predicate EntryBecomes(m: ShapeMap, c: Codec, sh: Shape, e: Entry, f: Entry)
    requires Closed(m) && InMap(m, sh.kind)
    decreases e, 2
  {
    f.key == e.key && Becomes(m, c, sh, e.value, f.value)
  }

  lemma ScalarIff(c: Codec, t: ScalarType, v: Value, w: Value)
    ensures Leaf(c, t, v) == Ok(w) <==> ScalarBecomes(c, t, v, w)
  {
  }

  /** Nothing is lost, added or moved on the way to the JSON text. */
  lemma {:induction false} SerializesIff(m: ShapeMap, c: Codec, sh: Shape, v: Value, w: Value)
    requires Closed(m) && InMap(m, sh.kind)
    ensures Ser(m, c, sh, v) == Ok(w) <==> Becomes(m, c, sh, v, w)
    decreases v, 1
  {
    hide Leaf, ScalarBecomes, SerFields, SerItems, SerEntries, FieldsBecome, ItemsBecome, EntriesBecome;
    match sh.kind
    case Structure(members, _) => if v.Dict? && w.Dict? { FieldsIff(m, c, members, v.entries, w.entries); }
    case List(ref) => if v.Items? && w.Items? { ItemsIff(m, c, Resolve(m, ref), v.items, w.items); }
    case Map(_, ref) => if v.Dict? && w.Dict? { EntriesIff(m, c, Resolve(m, ref), v.entries, w.entries); }
    case Scalar(t) => ScalarIff(c, t, v, w);
  }

  lemma {:induction false} FieldsIff(m: ShapeMap, c: Codec, members: seq<Member>, es: seq<Entry>, fs: seq<Entry>)
    requires Closed(m) && InMap(m, Structure(members, []))
    ensures SerFields(m, c, members, es) == Ok(fs) <==> FieldsBecome(m, c, members, es, fs)
    decreases es, 0
  {
    if es != [] && fs != [] {
      var e, f := es[0], fs[0];
      assert (es decreases to e);
      FieldsIff(m, c, members, es[1..], fs[1..]);
      if e.key.Str? && FindMember(members, e.key.s).Some? {
        SerializesIff(m, c, Resolve(m, FindMember(members, e.key.s).value), e.value, f.value);
      }
      hide Ser, Becomes;
      assert fs == [f] + fs[1..];
      assert SerFields(m, c, members, es) == Ok(fs) <==>
        FieldBecomes(m, c, members, e, f) && SerFields(m, c, members, es[1..]) == Ok(fs[1..]) by {
        FieldsStep(m, c, members, es, fs);
      }
      hide FieldBecomes, SerFields;
      assert forall i :: 1 <= i < |es| ==> es[i] == es[1..][i - 1];
      assert forall i :: 1 <= i < |fs| ==> fs[i] == fs[1..][i - 1];
      assert forall i :: 0 <= i < |es[1..]| ==> es[1..][i] == es[i + 1];
      assert forall i :: 0 <= i < |fs[1..]| ==> fs[1..][i] == fs[i + 1];
    }
  }

  lemma FieldsStep(m: ShapeMap, c: Codec, members: seq<Member>, es: seq<Entry>, fs: seq<Entry>)
    requires Closed(m) && InMap(m, Structure(members, [])) && es != [] && fs != []
    requires
      var e, f := es[0], fs[0];
      e.key.Str? && FindMember(members, e.key.s).Some? ==>
        var sh := Resolve(m, FindMember(members, e.key.s).value);
        Ser(m, c, sh, e.value) == Ok(f.value) <==> Becomes(m, c, sh, e.value, f.value)
    ensures SerFields(m, c, members, es) == Ok(fs) <==>
            FieldBecomes(m, c, members, es[0], fs[0]) && SerFields(m, c, members, es[1..]) == Ok(fs[1..])
  {
    hide Ser, Becomes;
    assert fs == [fs[0]] + fs[1..] && fs[0] == Entry(fs[0].key, fs[0].value);
  }

  lemma {:induction false} ItemsIff(m: ShapeMap, c: Codec, sh: Shape, vs: seq<Value>, ws: seq<Value>)
    requires Closed(m) && InMap(m, sh.kind)
    ensures SerItems(m, c, sh, vs) == Ok(ws) <==> ItemsBecome(m, c, sh, vs, ws)
    decreases vs, 0
  {
    if vs != [] && ws != [] {
      ItemsIff(m, c, sh, vs[1..], ws[1..]);
      SerializesIff(m, c, sh, vs[0], ws[0]);
      hide Ser, Becomes;
      assert ws == [ws[0]] + ws[1..];
      assert forall i :: 1 <= i < |vs| ==> vs[i] == vs[1..][i - 1];
      assert forall i :: 1 <= i < |ws| ==> ws[i] == ws[1..][i - 1];
      assert forall i :: 0 <= i < |vs[1..]| ==> vs[1..][i] == vs[i + 1];
      assert forall i :: 0 <= i < |ws[1..]| ==> ws[1..][i] == ws[i + 1];
    }
  }

  lemma {:induction false} EntriesIff(m: ShapeMap, c: Codec, sh: Shape, es: seq<Entry>, fs: seq<Entry>)
    requires Closed(m) && InMap(m, sh.kind)
    ensures SerEntries(m, c, sh, es) == Ok(fs) <==> EntriesBecome(m, c, sh, es, fs)
    decreases es, 0
  {
    if es != [] && fs != [] {
      assert (es decreases to es[0]);
      EntriesIff(m, c, sh, es[1..], fs[1..]);
      SerializesIff(m, c, sh, es[0].value, fs[0].value);
      hide Ser, Becomes;
      assert fs == [fs[0]] + fs[1..] && fs[0] == Entry(fs[0].key, fs[0].value);
      assert SerEntries(m, c, sh, es) == Ok(fs) <==>
        EntryBecomes(m, c, sh, es[0], fs[0]) && SerEntries(m, c, sh, es[1..]) == Ok(fs[1..]);
      hide EntryBecomes, SerEntries;
      assert forall i :: 1 <= i < |es| ==> es[i] == es[1..][i - 1];
      assert forall i :: 1 <= i < |fs| ==> fs[i] == fs[1..][i - 1];
      assert forall i :: 0 <= i < |es[1..]| ==> es[1..][i] == es[i + 1];
      assert forall i :: 0 <= i < |fs[1..]| ==> fs[1..][i] == fs[i + 1];
    }
  }
}
