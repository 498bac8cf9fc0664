/** Query and EC2 serialization write no key twice. */
module QueryKeys {
  import opened Results
  import opened Numerals
  import opened Assignments
  import opened Dots
  import opened Shapes
  import XmlSerializer
  import opened QuerySerializer

  type Path = seq<string>

  predicate Good(name: string) {
    name != "" && DotFree(name)
  }

  predicate GoodPath(p: Path) {
    forall i :: 0 <= i < |p| ==> Good(p[i])
  }

  // ----- The words of a key, from the traits

  /** The word a shape goes by where it is used: its location name, which EC2 capitalizes and ranks below a query name, or
      else a default. EC2 cannot capitalize an empty name. */
  function Word(p: Protocol, traits: Traits, default: string): Option<string> {
    match (p, traits.queryName, traits.name)
    case (EC2(_), Some(queryName), _) => Some(queryName)
    case (_, _, None) => Some(default)
    case (Query, _, Some(name)) => Some(name)
    case (EC2(upper), None, Some(name)) => if |name| == 0 then None else Some(upper(name[0]) + name[1..])
  }

  lemma NameIsWord(p: Protocol, traits: Traits, default: string)
    ensures NameOf(p, traits, default) ==
            match Word(p, traits, default)
            case Some(word) => Ok(word)
            case None => Err(XmlSerializer.IndexError)
  {
  }

  /** The same by the attributes of the reference and of the shape it leads to. */
  ghost predicate Called(p: Protocol, own: Traits, base: Traits, default: string, word: string) {
    if p.Query? then
      Says(own.name, base.name, word) || (Silent(own.name, base.name) && word == default)
    else
      || Says(own.queryName, base.queryName, word)
      || (Silent(own.queryName, base.queryName) && Silent(own.name, base.name) && word == default)
      || (Silent(own.queryName, base.queryName) &&
            exists name :: Says(own.name, base.name, name) && name != "" && word == p.upper(name[0]) + name[1..])
  }

  lemma WordIsCalled(m: ShapeMap, p: Protocol, ref: Ref, default: string, word: string)
    requires ref.shape in m
    ensures Word(p, Resolve(m, ref).traits, default) == Some(word) <==> Called(p, ref.traits, m[ref.shape].traits, default, word)
  {
  }

  /** What Python takes for empty, and the query protocol records as an empty list. */
  predicate Empty(v: Value) {
    v in {NoneV, Bool(false), Int(0), Float(0.0), Str(""), Blob([]), Items([]), Dict([])}
  }

  lemma EmptyIsFalse(v: Value)
    ensures Empty(v) <==> !XmlSerializer.Truthy(v)
  {
  }

  /** A flattened query list whose elements have a name takes it in place of its own. */
  function TakenName(p: Protocol, sh: Shape, member: Shape): Option<string> {
    if p.Query? && sh.traits.flattened == Some(true) && member.traits.name.Some? && member.traits.name.value != "" then
      member.traits.name
    else None
  }

  /** The last parts that the keys of a value stored under `name` can have in its place. */
  function Heads(m: ShapeMap, p: Protocol, sh: Shape, name: string): set<string>
    requires InMap(m, sh.kind)
  {
    {name} + match sh.kind
             case List(ref) =>
               var renamed := TakenName(p, sh, Resolve(m, ref));
               if renamed.Some? then {renamed.value} else {}
             case _ => {}
  }

  predicate GoodHeads(m: ShapeMap, p: Protocol, sh: Shape, name: string)
    requires InMap(m, sh.kind)
  {
    forall x :: x in Heads(m, p, sh, name) ==> Good(x)
  }

  /** Where a shape is used: its name there, when it has one, and its other head are sound parts of a key. */
  predicate GoodUse(m: ShapeMap, p: Protocol, ref: Ref, default: string)
    requires ref.shape in m && Closed(m)
  {
    var name := Word(p, Resolve(m, ref).traits, default);
    name.Some? ==> GoodHeads(m, p, Resolve(m, ref), name.value)
  }

  predicate ApartUses(m: ShapeMap, p: Protocol, a: Ref, aDefault: string, b: Ref, bDefault: string)
    requires a.shape in m && b.shape in m && Closed(m)
  {
    var aName, bName := Word(p, Resolve(m, a).traits, aDefault), Word(p, Resolve(m, b).traits, bDefault);
    aName.Some? && bName.Some? ==> Heads(m, p, Resolve(m, a), aName.value) !! Heads(m, p, Resolve(m, b), bName.value)
  }

  /** Sibling names are distinct, dot-free and not empty, and no flattened list of a list renames itself. */
  predicate Clean(m: ShapeMap, p: Protocol, kind: Kind)
    requires Closed(m) && InMap(m, kind)
  {
    match kind
    case Structure(members, _) =>
      && (forall i :: 0 <= i < |members| ==> GoodUse(m, p, members[i].ref, members[i].name))
      && (forall i, j :: 0 <= i < |members| && 0 <= j < |members| && members[i].name != members[j].name ==>
            ApartUses(m, p, members[i].ref, members[i].name, members[j].ref, members[j].name))
    case List(ref) => Heads(m, p, Resolve(m, ref), "") == {""}
    case Map(key, value) =>
      GoodUse(m, p, key, "key") && GoodUse(m, p, value, "value") && ApartUses(m, p, key, "key", value, "value")
    case Scalar(_) => true
  }

  /** The shapes that a request can reach are clean. */
  ghost predicate CleanShapes(m: ShapeMap, p: Protocol, names: set<string>)
    requires Closed(m)
  {
    forall n :: n in names ==> n in m && Clean(m, p, m[n].kind) && Reaches(m[n].kind, names)
  }

  /** All dicts of a value have distinct keys, as Python dicts do. */
  predicate Proper(v: Value)
    decreases v
  {
    match v
    case Items(items) => forall i :: 0 <= i < |items| ==> Proper(items[i])
    case Dict(entries) =>
      DistinctKeys(entries) && forall i :: 0 <= i < |entries| ==> Proper(entries[i].key) && Proper(entries[i].value)
    case _ => true
  }

  lemma ThenDistinct(first: Run, rest: Run)
    requires Distinct(first.writes) && Distinct(rest.writes) && Apart(first.writes, rest.writes)
    ensures Distinct(Then(first, rest).writes)
  {
  }

  // ----- Keys and paths

  lemma {:induction false} JoinSnoc(p: Path, s: string)
    ensures JoinDots(p + [s]) == if p == [] then s else JoinDots(p) + "." + s
    decreases |p|
  {
    if |p| > 0 {
      assert (p + [s])[1..] == p[1..] + [s];
      JoinSnoc(p[1..], s);
    }
  }

  /** The key of a path splits into it again. */
  lemma KeyOfPath(p: Path)
    requires p != [] && GoodPath(p)
    ensures SplitDots(JoinDots(p)) == p && JoinDots(p) != ""
  {
    SplitOfJoin(p);
    assert Good(p[0]);
    assert DotAt("", 0) == 0 && SplitDots("") == [""];
  }

  lemma MemberKey(p: Path, name: string)
    requires GoodPath(p)
    ensures MemberPrefix(JoinDots(p), name) == JoinDots(p + [name])
  {
    JoinSnoc(p, name);
    if p != [] { KeyOfPath(p); }
  }

  /** The key lies at or below the path. */
  ghost predicate Under(key: string, p: Path) {
    p <= SplitDots(key)
  }

  lemma UnderShorter(key: string, p: Path, s: string)
    requires Under(key, p + [s])
    ensures Under(key, p)
  {
    assert p <= p + [s];
  }

  lemma OneSlot(key: string, p: Path, a: string, b: string)
    requires Under(key, p + [a]) && Under(key, p + [b])
    ensures a == b
  {
    var parts := SplitDots(key);
    assert parts[|p|] == (p + [a])[|p|] && parts[|p|] == (p + [b])[|p|];
  }

  lemma NumberIsGood(i: nat)
    ensures Good(NatText(i))
  {
    forall k | 0 <= k < |NatText(i)| ensures NatText(i)[k] != '.' { assert IsDigit(NatText(i)[k]); }
  }

  ghost predicate UnderHeads(key: string, p: Path, heads: set<string>) {
    exists x :: x in heads && Under(key, p + [x])
  }

  ghost predicate AllUnder(ws: seq<Write<Value>>, p: Path) {
    forall i :: 0 <= i < |ws| ==> Under(ws[i].key, p)
  }

  ghost predicate AllUnderHeads(ws: seq<Write<Value>>, p: Path, heads: set<string>) {
    forall i :: 0 <= i < |ws| ==> UnderHeads(ws[i].key, p, heads)
  }

  /** At or below an element of the list or map, from number i on. */
  ghost predicate UnderNumber(key: string, p: Path, i: nat) {
    exists j: nat :: j >= i && Under(key, p + [NatText(j)])
  }

  ghost predicate AllUnderNumbers(ws: seq<Write<Value>>, p: Path, i: nat) {
    forall k :: 0 <= k < |ws| ==> UnderNumber(ws[k].key, p, i)
  }

  lemma HeadsApart(a: seq<Write<Value>>, b: seq<Write<Value>>, p: Path, aHeads: set<string>, bHeads: set<string>)
    requires AllUnderHeads(a, p, aHeads) && AllUnderHeads(b, p, bHeads) && aHeads !! bHeads
    ensures Apart(a, b)
  {
    forall i, j | 0 <= i < |a| && 0 <= j < |b| ensures a[i].key != b[j].key {
      if a[i].key == b[j].key {
        var x :| x in aHeads && Under(a[i].key, p + [x]);
        var y :| y in bHeads && Under(b[j].key, p + [y]);
        OneSlot(a[i].key, p, x, y);
      }
    }
  }

  lemma NumbersApart(a: seq<Write<Value>>, b: seq<Write<Value>>, p: Path, i: nat)
    requires AllUnder(a, p + [NatText(i)]) && AllUnderNumbers(b, p, i + 1)
    ensures Apart(a, b)
  {
    forall k, l | 0 <= k < |a| && 0 <= l < |b| ensures a[k].key != b[l].key {
      assert Under(a[k].key, p + [NatText(i)]);
      if a[k].key == b[l].key {
        var j: nat :| j >= i + 1 && Under(b[l].key, p + [NatText(j)]);
        OneSlot(a[k].key, p, NatText(i), NatText(j));
        NatTextInjective(i, j);
      }
    }
  }

  // ----- One step of the serializer, by words

  lemma FieldRun(m: ShapeMap, c: XmlSerializer.Codec, p: Protocol, members: seq<Member>, e: Entry, prefix: string)
    requires Closed(m) && InMap(m, Structure(members, []))
    requires e.key.Str? && FindMember(members, e.key.s).Some?
    ensures
      var member := Resolve(m, FindMember(members, e.key.s).value);
      SerField(m, c, p, members, e, prefix) ==
      match Word(p, member.traits, e.key.s)
      case Some(word) => Ser(m, c, p, member, e.value, MemberPrefix(prefix, word))
      case None => Fail(XmlSerializer.IndexError)
  {
    hide Ser, Word, NameOf, MemberPrefix;
    NameIsWord(p, Resolve(m, FindMember(members, e.key.s).value).traits, e.key.s);
  }

  lemma MapRun(m: ShapeMap, c: XmlSerializer.Codec, p: Protocol, sh: Shape, v: Value, prefix: string)
    requires Closed(m) && InMap(m, sh.kind) && sh.kind.Map?
    ensures
      var key, value := Resolve(m, sh.kind.key), Resolve(m, sh.kind.value);
      var k, w := Word(p, key.traits, "key"), Word(p, value.traits, "value");
      Ser(m, c, p, sh, v, prefix) ==
      if k.None? || w.None? then Fail(XmlSerializer.IndexError)
      else if !v.Dict? then Fail(XmlSerializer.TypeError)
      else SerEntries(m, c, p, key, value, v.entries, MapPrefix(sh, prefix), 1, k.value, w.value)
  {
    hide SerEntries, Word, NameOf, MapPrefix;
    NameIsWord(p, Resolve(m, sh.kind.key).traits, "key");
    NameIsWord(p, Resolve(m, sh.kind.value).traits, "value");
  }

  // ----- The keys of each kind of value

  /** What the induction carries about a shape used under a name. */
  ghost predicate Sound(m: ShapeMap, p: Protocol, names: set<string>, sh: Shape) {
    && Closed(m) && CleanShapes(m, p, names)
    && InMap(m, sh.kind) && Clean(m, p, sh.kind) && Reaches(sh.kind, names)
  }

  /** A reference of a sound shape leads to a sound shape. */
  lemma Follow(m: ShapeMap, p: Protocol, names: set<string>, kind: Kind, ref: Ref)
    requires Closed(m) && CleanShapes(m, p, names) && InMap(m, kind) && Reaches(kind, names) && ref in Refs(kind)
    ensures ref.shape in m && Sound(m, p, names, Resolve(m, ref))
  {
  }

  /** At or below a slot of the field that the entry fills. */
  ghost predicate UnderField(m: ShapeMap, p: Protocol, members: seq<Member>, e: Entry, q: Path, key: string)
    requires Closed(m) && InMap(m, Structure(members, []))
  {
    && e.key.Str?
    && var found := FindMember(members, e.key.s);
    && found.Some?
    && var name := Word(p, Resolve(m, found.value).traits, e.key.s);
    && name.Some? && UnderHeads(key, q, Heads(m, p, Resolve(m, found.value), name.value))
  }

  ghost predicate UnderFields(m: ShapeMap, p: Protocol, members: seq<Member>, entries: seq<Entry>, q: Path, key: string)
    requires Closed(m) && InMap(m, Structure(members, []))
  {
    exists i :: 0 <= i < |entries| && UnderField(m, p, members, entries[i], q, key)
  }

  ghost predicate AllUnderFields(m: ShapeMap, p: Protocol, members: seq<Member>, entries: seq<Entry>, q: Path, ws: seq<Write<Value>>)
    requires Closed(m) && InMap(m, Structure(members, []))
  {
    forall i :: 0 <= i < |ws| ==> UnderFields(m, p, members, entries, q, ws[i].key)
  }

  /** Different fields of a clean structure never share a key. */
  lemma FieldsApart(m: ShapeMap, p: Protocol, members: seq<Member>, e: Entry, f: Entry, q: Path, key: string)
    requires Closed(m) && InMap(m, Structure(members, [])) && Clean(m, p, Structure(members, [])) && e.key != f.key
    requires UnderField(m, p, members, e, q, key)
    ensures !UnderField(m, p, members, f, q, key)
  {
    if UnderField(m, p, members, f, q, key) {
      var a, b := FindMember(members, e.key.s).value, FindMember(members, f.key.s).value;
      assert ApartUses(m, p, a, e.key.s, b, f.key.s);
      var aName, bName := Word(p, Resolve(m, a).traits, e.key.s), Word(p, Resolve(m, b).traits, f.key.s);
      hide Heads, Under;
      var x :| x in Heads(m, p, Resolve(m, a), aName.value) && Under(key, q + [x]);
      var y :| y in Heads(m, p, Resolve(m, b), bName.value) && Under(key, q + [y]);
      OneSlot(key, q, x, y);
    }
  }

  lemma HeadUnderParent(key: string, q: Path, heads: set<string>)
    requires UnderHeads(key, q, heads)
    ensures Under(key, q)
  {
    var x :| x in heads && Under(key, q + [x]);
    UnderShorter(key, q, x);
  }

  /** The keys of a value stored under q + [name]. */
  lemma {:induction false} SerKeys(m: ShapeMap, c: XmlSerializer.Codec, p: Protocol, names: set<string>, sh: Shape, v: Value,
                                   q: Path, name: string)
    requires Sound(m, p, names, sh) && GoodPath(q) && GoodHeads(m, p, sh, name) && Proper(v)
    ensures
      var ws := Ser(m, c, p, sh, v, JoinDots(q + [name])).writes;
      Distinct(ws) && AllUnderHeads(ws, q, Heads(m, p, sh, name))
    decreases v, 1
  {
    assert Good(name) by { assert name in Heads(m, p, sh, name); }
    hide Sound, Ser, AllUnderHeads, Heads, Distinct, GoodHeads, Proper;
    match sh.kind
    case Structure(members, required) => StructureKeys(m, c, p, names, sh, members, required, v, q, name);
    case List(ref) => ListKeys(m, c, p, names, sh, ref, v, q, name);
    case Map(keyRef, valueRef) => MapKeys(m, c, p, names, sh, keyRef, valueRef, v, q, name);
    case Scalar(t) => ScalarKeys(m, c, p, sh, v, q, name);
  }

  lemma ScalarKeys(m: ShapeMap, c: XmlSerializer.Codec, p: Protocol, sh: Shape, v: Value, q: Path, name: string)
    requires Closed(m) && sh.kind.Scalar? && GoodPath(q) && Good(name)
    ensures
      var ws := Ser(m, c, p, sh, v, JoinDots(q + [name])).writes;
      Distinct(ws) && AllUnderHeads(ws, q, Heads(m, p, sh, name))
  {
    OneKey(m, p, sh, q, name, Ser(m, c, p, sh, v, JoinDots(q + [name])).writes);
  }

  lemma StructureKeys(m: ShapeMap, c: XmlSerializer.Codec, p: Protocol, names: set<string>, sh: Shape, members: seq<Member>,
                      required: seq<string>, v: Value, q: Path, name: string)
    requires Sound(m, p, names, sh) && sh.kind == Structure(members, required) && GoodPath(q) && Good(name) && Proper(v)
    ensures
      var ws := Ser(m, c, p, sh, v, JoinDots(q + [name])).writes;
      Distinct(ws) && AllUnderHeads(ws, q, Heads(m, p, sh, name))
    decreases v, 0
  {
    if v.Dict? {
      FieldsKeys(m, c, p, names, members, required, v.entries, q + [name], sh.traits);
      FieldsUnderName(m, p, sh, members, v.entries, q, name, Ser(m, c, p, sh, v, JoinDots(q + [name])).writes);
    }
  }

  /** A single assignment to the name itself. */
  lemma OneKey(m: ShapeMap, p: Protocol, sh: Shape, q: Path, name: string, ws: seq<Write<Value>>)
    requires InMap(m, sh.kind) && GoodPath(q + [name])
    requires |ws| <= 1 && forall i :: 0 <= i < |ws| ==> ws[i].key == JoinDots(q + [name])
    ensures Distinct(ws) && AllUnderHeads(ws, q, Heads(m, p, sh, name))
  {
    KeyOfPath(q + [name]);
    assert name in Heads(m, p, sh, name) && Under(JoinDots(q + [name]), q + [name]);
  }

  lemma FieldsUnderName(m: ShapeMap, p: Protocol, sh: Shape, members: seq<Member>, entries: seq<Entry>, q: Path, name: string,
                        ws: seq<Write<Value>>)
    requires Closed(m) && InMap(m, sh.kind) && InMap(m, Structure(members, []))
    requires AllUnderFields(m, p, members, entries, q + [name], ws)
    ensures AllUnderHeads(ws, q, Heads(m, p, sh, name))
  {
    forall i | 0 <= i < |ws| ensures UnderHeads(ws[i].key, q, Heads(m, p, sh, name)) {
      assert UnderFields(m, p, members, entries, q + [name], ws[i].key);
      var k :| 0 <= k < |entries| && UnderField(m, p, members, entries[k], q + [name], ws[i].key);
      var member := Resolve(m, FindMember(members, entries[k].key.s).value);
      HeadUnderParent(ws[i].key, q + [name], Heads(m, p, member, Word(p, member.traits, entries[k].key.s).value));
      assert name in Heads(m, p, sh, name);
    }
  }

  /** The path that numbers the elements of a list. */
  function ListPath(p: Protocol, sh: Shape, member: Shape, q: Path, name: string): Path {
    match TakenName(p, sh, member)
    case Some(other) => q + [other]
    case None => if p.EC2? || sh.traits.flattened == Some(true) then q + [name] else q + [name] + ["member"]
  }

  lemma ListPathIsPrefix(m: ShapeMap, p: Protocol, sh: Shape, ref: Ref, q: Path, name: string)
    requires Closed(m) && InMap(m, sh.kind) && sh.kind == List(ref) && GoodPath(q) && GoodHeads(m, p, sh, name)
    ensures
      var at := ListPath(p, sh, Resolve(m, ref), q, name);
      && GoodPath(at) && ListPrefix(p, sh, Resolve(m, ref), JoinDots(q + [name])) == JoinDots(at)
      && exists x :: x in Heads(m, p, sh, name) && q + [x] <= at
  {
    var path := q + [name];
    assert name in Heads(m, p, sh, name);
    var renamed := TakenName(p, sh, Resolve(m, ref));
    if renamed.Some? {
      assert renamed.value in Heads(m, p, sh, name) && q + [renamed.value] <= q + [renamed.value];
      KeyOfPath(path);
      assert path[..|path| - 1] == q;
    } else {
      hide Renamed, TakenName, GoodHeads, SplitDots;
      JoinSnoc(path, "member");
      assert DotFree("member") && path <= path + ["member"] && path <= path;
      assert Good(name) by { GoodHead(m, p, sh, name); }
    }
  }

  lemma GoodHead(m: ShapeMap, p: Protocol, sh: Shape, name: string)
    requires InMap(m, sh.kind) && GoodHeads(m, p, sh, name)
    ensures Good(name)
  {
    assert name in Heads(m, p, sh, name);
  }

  lemma ListKeys(m: ShapeMap, c: XmlSerializer.Codec, p: Protocol, names: set<string>, sh: Shape, ref: Ref, v: Value, q: Path,
                 name: string)
    requires Sound(m, p, names, sh) && sh.kind == List(ref) && GoodPath(q) && GoodHeads(m, p, sh, name) && Proper(v)
    ensures
      var ws := Ser(m, c, p, sh, v, JoinDots(q + [name])).writes;
      Distinct(ws) && AllUnderHeads(ws, q, Heads(m, p, sh, name))
    decreases v, 0
  {
    assert name in Heads(m, p, sh, name);
    var member := Resolve(m, ref);
    var ws := Ser(m, c, p, sh, v, JoinDots(q + [name])).writes;
    if v.Items? && !(p.Query? && v.items == []) {
      ListPathIsPrefix(m, p, sh, ref, q, name);
      Follow(m, p, names, sh.kind, ref);
      var at := ListPath(p, sh, member, q, name);
      ItemsKeys(m, c, p, names, member, v.items, at, 1);
      NumbersUnderHeads(ws, at, 1, q, Heads(m, p, sh, name));
    } else {
      OneKey(m, p, sh, q, name, ws);
    }
  }

  lemma NumbersUnderHeads(ws: seq<Write<Value>>, at: Path, from: nat, q: Path, heads: set<string>)
    requires AllUnderNumbers(ws, at, from) && exists x :: x in heads && q + [x] <= at
    ensures AllUnderHeads(ws, q, heads)
  {
    var x :| x in heads && q + [x] <= at;
    forall i | 0 <= i < |ws| ensures UnderHeads(ws[i].key, q, heads) {
      assert UnderNumber(ws[i].key, at, from);
      var j: nat :| Under(ws[i].key, at + [NatText(j)]);
      UnderShorter(ws[i].key, at, NatText(j));
      assert Under(ws[i].key, q + [x]);
    }
  }

  lemma {:induction false} ItemsKeys(m: ShapeMap, c: XmlSerializer.Codec, p: Protocol, names: set<string>, member: Shape,
                                     items: seq<Value>, at: Path, i: nat)
    requires Sound(m, p, names, member) && Heads(m, p, member, "") == {""} && at != [] && GoodPath(at)
    requires forall k :: 0 <= k < |items| ==> Proper(items[k])
    ensures
      var ws := SerItems(m, c, p, member, items, JoinDots(at), i).writes;
      Distinct(ws) && AllUnderNumbers(ws, at, i)
    decreases items, 0
  {
    if items != [] {
      NumberIsGood(i);
      JoinSnoc(at, NatText(i));
      OnlyHead(m, p, member, NatText(i));
      SerKeys(m, c, p, names, member, items[0], at, NatText(i));
      ItemsKeys(m, c, p, names, member, items[1..], at, i + 1);
      JoinNumbers(Ser(m, c, p, member, items[0], JoinDots(at + [NatText(i)])),
                  SerItems(m, c, p, member, items[1..], JoinDots(at), i + 1), at, i);
    }
  }

  lemma OnlyHead(m: ShapeMap, p: Protocol, sh: Shape, name: string)
    requires InMap(m, sh.kind) && Heads(m, p, sh, "") == {""}
    ensures Heads(m, p, sh, name) == {name}
  {
    match sh.kind
    case List(ref) =>
      var renamed := TakenName(p, sh, Resolve(m, ref));
      assert renamed.Some? ==> renamed.value in Heads(m, p, sh, "");
    case _ =>
  }

  /** The keys of number i and those of the later numbers. */
  lemma JoinNumbers(first: Run, rest: Run, at: Path, i: nat)
    requires Distinct(first.writes) && AllUnderHeads(first.writes, at, {NatText(i)})
    requires Distinct(rest.writes) && AllUnderNumbers(rest.writes, at, i + 1)
    ensures Distinct(Then(first, rest).writes) && AllUnderNumbers(Then(first, rest).writes, at, i)
  {
    forall k | 0 <= k < |first.writes| ensures Under(first.writes[k].key, at + [NatText(i)]) {
      assert UnderHeads(first.writes[k].key, at, {NatText(i)});
    }
    NumbersApart(first.writes, rest.writes, at, i);
    ThenDistinct(first, rest);
    hide Under;
    forall k | 0 <= k < |rest.writes| ensures UnderNumber(rest.writes[k].key, at, i) {
      assert UnderNumber(rest.writes[k].key, at, i + 1);
    }
    forall k | 0 <= k < |first.writes| ensures UnderNumber(first.writes[k].key, at, i) {
      assert i >= i && Under(first.writes[k].key, at + [NatText(i)]);
    }
  }

  function MapPath(sh: Shape, q: Path, name: string): Path {
    if sh.traits.flattened == Some(true) then q + [name] else q + [name] + ["entry"]
  }

  lemma MapPathIsPrefix(sh: Shape, q: Path, name: string)
    requires GoodPath(q) && Good(name)
    ensures
      var at := MapPath(sh, q, name);
      && at != [] && GoodPath(at) && q + [name] <= at && MapPrefix(sh, JoinDots(q + [name])) == JoinDots(at)
  {
    JoinSnoc(q + [name], "entry");
    assert DotFree("entry");
  }

  lemma MapKeys(m: ShapeMap, c: XmlSerializer.Codec, p: Protocol, names: set<string>, sh: Shape, keyRef: Ref, valueRef: Ref,
                v: Value, q: Path, name: string)
    requires Sound(m, p, names, sh) && sh.kind == Map(keyRef, valueRef) && GoodPath(q) && Good(name) && Proper(v)
    ensures
      var ws := Ser(m, c, p, sh, v, JoinDots(q + [name])).writes;
      Distinct(ws) && AllUnderHeads(ws, q, Heads(m, p, sh, name))
    decreases v, 0
  {
    var key, value := Resolve(m, keyRef), Resolve(m, valueRef);
    var k, w := Word(p, key.traits, "key"), Word(p, value.traits, "value");
    MapRun(m, c, p, sh, v, JoinDots(q + [name]));
    hide Ser, SerEntries, Word;
    if v.Dict? && k.Some? && w.Some? {
      var at := MapPath(sh, q, name);
      MapPathIsPrefix(sh, q, name);
      var ws := Ser(m, c, p, sh, v, JoinDots(q + [name])).writes;
      assert ws == SerEntries(m, c, p, key, value, v.entries, JoinDots(at), 1, k.value, w.value).writes;
      assert GoodUse(m, p, keyRef, "key") && GoodUse(m, p, valueRef, "value") && ApartUses(m, p, keyRef, "key", valueRef, "value");
      hide MapPath, MapPrefix, GoodHeads, Distinct;
      Follow(m, p, names, sh.kind, keyRef);
      Follow(m, p, names, sh.kind, valueRef);
      EntriesKeys(m, c, p, names, key, value, v.entries, at, 1, k.value, w.value);
      assert name in Heads(m, p, sh, name);
      NumbersUnderHeads(ws, at, 1, q, Heads(m, p, sh, name));
    }
  }

  lemma {:induction false} EntriesKeys(m: ShapeMap, c: XmlSerializer.Codec, p: Protocol, names: set<string>, key: Shape,
                                       value: Shape, entries: seq<Entry>, at: Path, i: nat, k: string, w: string)
    requires Sound(m, p, names, key) && Sound(m, p, names, value) && at != [] && GoodPath(at)
    requires GoodHeads(m, p, key, k) && GoodHeads(m, p, value, w) && Heads(m, p, key, k) !! Heads(m, p, value, w)
    requires forall j :: 0 <= j < |entries| ==> Proper(entries[j].key) && Proper(entries[j].value)
    ensures
      var ws := SerEntries(m, c, p, key, value, entries, JoinDots(at), i, k, w).writes;
      Distinct(ws) && AllUnderNumbers(ws, at, i)
    decreases entries, 0
  {
    if entries != [] {
      assert (entries decreases to entries[0]);
      JoinSnoc(at, NatText(i));
      EntryKeys(m, c, p, names, key, value, entries[0], at, i, k, w);
      EntriesKeys(m, c, p, names, key, value, entries[1..], at, i + 1, k, w);
      JoinNumbers(SerEntry(m, c, p, key, value, entries[0], JoinDots(at + [NatText(i)]), k, w),
                  SerEntries(m, c, p, key, value, entries[1..], JoinDots(at), i + 1, k, w), at, i);
    }
  }

  lemma {:induction false} EntryKeys(m: ShapeMap, c: XmlSerializer.Codec, p: Protocol, names: set<string>, key: Shape,
                                     value: Shape, e: Entry, at: Path, i: nat, k: string, w: string)
    requires Sound(m, p, names, key) && Sound(m, p, names, value) && GoodPath(at)
    requires GoodHeads(m, p, key, k) && GoodHeads(m, p, value, w) && Heads(m, p, key, k) !! Heads(m, p, value, w)
    requires Proper(e.key) && Proper(e.value)
    ensures
      var ws := SerEntry(m, c, p, key, value, e, JoinDots(at + [NatText(i)]), k, w).writes;
      Distinct(ws) && AllUnderHeads(ws, at, {NatText(i)})
    decreases e, 2
  {
    var q := at + [NatText(i)];
    NumberIsGood(i);
    JoinSnoc(q, k);
    JoinSnoc(q, w);
    SerKeys(m, c, p, names, key, e.key, q, k);
    SerKeys(m, c, p, names, value, e.value, q, w);
    var first, rest := Ser(m, c, p, key, e.key, JoinDots(q + [k])), Ser(m, c, p, value, e.value, JoinDots(q + [w]));
    HeadsApart(first.writes, rest.writes, q, Heads(m, p, key, k), Heads(m, p, value, w));
    ThenDistinct(first, rest);
    NumberHolds(first.writes, at, i, Heads(m, p, key, k));
    NumberHolds(rest.writes, at, i, Heads(m, p, value, w));
  }

  lemma NumberHolds(ws: seq<Write<Value>>, at: Path, i: nat, heads: set<string>)
    requires AllUnderHeads(ws, at + [NatText(i)], heads)
    ensures AllUnderHeads(ws, at, {NatText(i)})
  {
    forall j | 0 <= j < |ws| ensures UnderHeads(ws[j].key, at, {NatText(i)}) {
      assert UnderHeads(ws[j].key, at + [NatText(i)], heads);
      HeadUnderParent(ws[j].key, at + [NatText(i)], heads);
    }
  }

  lemma {:induction false} FieldKeys(m: ShapeMap, c: XmlSerializer.Codec, p: Protocol, names: set<string>, members: seq<Member>,
                                     required: seq<string>, e: Entry, q: Path, traits: Traits)
    requires Sound(m, p, names, Shape(Structure(members, required), traits)) && GoodPath(q)
    requires Proper(e.key) && Proper(e.value)
    ensures
      var ws := SerField(m, c, p, members, e, JoinDots(q)).writes;
      Distinct(ws) && forall i :: 0 <= i < |ws| ==> UnderField(m, p, members, e, q, ws[i].key)
    decreases e, 2
  {
    var found := if e.key.Str? then FindMember(members, e.key.s) else None;
    if found.Some? {
      var i :| 0 <= i < |members| && members[i] == Member(e.key.s, found.value);
      var member := Resolve(m, found.value);
      assert Refs(Structure(members, required))[i] == found.value;
      Follow(m, p, names, Structure(members, required), found.value);
      FieldRun(m, c, p, members, e, JoinDots(q));
      var name := Word(p, member.traits, e.key.s);
      hide Ser, SerField, Word, NameOf, MemberPrefix, Sound, Proper, Distinct, Refs;
      if name.Some? {
        assert GoodUse(m, p, members[i].ref, members[i].name);
        MemberKey(q, name.value);
        SerKeys(m, c, p, names, member, e.value, q, name.value);
      }
    }
  }

  lemma {:induction false} FieldsKeys(m: ShapeMap, c: XmlSerializer.Codec, p: Protocol, names: set<string>, members: seq<Member>,
                                      required: seq<string>, entries: seq<Entry>, q: Path, traits: Traits)
    requires Sound(m, p, names, Shape(Structure(members, required), traits)) && GoodPath(q) && Proper(Dict(entries))
    ensures
      var ws := SerFields(m, c, p, members, entries, JoinDots(q)).writes;
      Distinct(ws) && AllUnderFields(m, p, members, entries, q, ws)
    decreases entries, 0
  {
    if entries != [] {
      assert (entries decreases to entries[0]);
      FieldKeys(m, c, p, names, members, required, entries[0], q, traits);
      FieldsKeys(m, c, p, names, members, required, entries[1..], q, traits);
      var first := SerField(m, c, p, members, entries[0], JoinDots(q));
      var rest := SerFields(m, c, p, members, entries[1..], JoinDots(q));
      JoinFields(m, p, members, entries, q, first, rest);
    }
  }

  lemma JoinFields(m: ShapeMap, p: Protocol, members: seq<Member>, entries: seq<Entry>, q: Path, first: Run, rest: Run)
    requires Closed(m) && InMap(m, Structure(members, [])) && Clean(m, p, Structure(members, []))
    requires entries != [] && DistinctKeys(entries) && Distinct(first.writes) && Distinct(rest.writes)
    requires forall i :: 0 <= i < |first.writes| ==> UnderField(m, p, members, entries[0], q, first.writes[i].key)
    requires AllUnderFields(m, p, members, entries[1..], q, rest.writes)
    ensures Distinct(Then(first, rest).writes) && AllUnderFields(m, p, members, entries, q, Then(first, rest).writes)
  {
    hide UnderField, Clean, InMap;
    forall i, j | 0 <= i < |first.writes| && 0 <= j < |rest.writes| ensures first.writes[i].key != rest.writes[j].key {
      var key := rest.writes[j].key;
      assert UnderFields(m, p, members, entries[1..], q, key);
      var k :| 0 <= k < |entries[1..]| && UnderField(m, p, members, entries[1..][k], q, key);
      assert entries[k + 1] == entries[1..][k];
      if first.writes[i].key == key { FieldsApart(m, p, members, entries[0], entries[k + 1], q, key); }
    }
    ThenDistinct(first, rest);
    forall i | 0 <= i < |rest.writes| ensures UnderFields(m, p, members, entries, q, rest.writes[i].key) {
      assert UnderFields(m, p, members, entries[1..], q, rest.writes[i].key);
      var k :| 0 <= k < |entries[1..]| && UnderField(m, p, members, entries[1..][k], q, rest.writes[i].key);
      assert entries[k + 1] == entries[1..][k];
    }
  }

  // ----- The request

  function Request(m: ShapeMap, c: XmlSerializer.Codec, p: Protocol, operation: string, version: string, sh: Option<Shape>, params: Value): Run
    requires Closed(m) && (sh.Some? ==> InMap(m, sh.value.kind))
  {
    Then(Run([Write("Action", Str(operation)), Write("Version", Str(version))], None),
         if sh.Some? then Ser(m, c, p, sh.value, params, "") else Run([], None))
  }

  /** No member of the input takes the place of Action or Version. */
  predicate LeavesHeader(m: ShapeMap, p: Protocol, members: seq<Member>)
    requires Closed(m) && InMap(m, Structure(members, []))
  {
    forall i :: 0 <= i < |members| ==>
      var name := Word(p, Resolve(m, members[i].ref).traits, members[i].name);
      name.Some? ==> {"Action", "Version"} !! Heads(m, p, Resolve(m, members[i].ref), name.value)
  }

  lemma WordSplits(word: string)
    requires DotFree(word)
    ensures SplitDots(word) == [word]
  {
    SplitOfJoin([word]);
  }

  lemma HeaderApart(m: ShapeMap, p: Protocol, members: seq<Member>, e: Entry, word: string)
    requires Closed(m) && InMap(m, Structure(members, [])) && LeavesHeader(m, p, members) && word in ["Action", "Version"]
    ensures !UnderField(m, p, members, e, [], word)
  {
    if UnderField(m, p, members, e, [], word) {
      var found := FindMember(members, e.key.s).value;
      var i :| 0 <= i < |members| && members[i] == Member(e.key.s, found);
      var name := Word(p, Resolve(m, found).traits, e.key.s).value;
      var x :| x in Heads(m, p, Resolve(m, found), name) && Under(word, [] + [x]);
      WordSplits(word);
      assert Under(word, [] + [word]);
      assert word in {"Action", "Version"} && word !in Heads(m, p, Resolve(m, found), name);
      OneSlot(word, [], x, word);
    }
  }

  lemma HeaderFieldsApart(m: ShapeMap, p: Protocol, members: seq<Member>, entries: seq<Entry>, header: seq<Write<Value>>, ws: seq<Write<Value>>)
    requires Closed(m) && InMap(m, Structure(members, [])) && LeavesHeader(m, p, members)
    requires AllUnderFields(m, p, members, entries, [], ws)
    requires forall i :: 0 <= i < |header| ==> header[i].key in ["Action", "Version"]
    ensures Apart(header, ws)
  {
    hide UnderField, LeavesHeader, InMap;
    forall i, j | 0 <= i < |header| && 0 <= j < |ws| ensures header[i].key != ws[j].key {
      assert UnderFields(m, p, members, entries, [], ws[j].key);
      var k :| 0 <= k < |entries| && UnderField(m, p, members, entries[k], [], ws[j].key);
      HeaderApart(m, p, members, entries[k], header[i].key);
    }
  }

  /** A query or EC2 request never assigns the same key twice. */
  lemma NoKeyTwice(m: ShapeMap, c: XmlSerializer.Codec, p: Protocol, names: set<string>, operation: string, version: string,
                   sh: Shape, params: Value)
    requires Sound(m, p, names, sh) && sh.kind.Structure? && LeavesHeader(m, p, sh.kind.members) && Proper(params)
    ensures Distinct(Request(m, c, p, operation, version, Some(sh), params).writes)
  {
    var header := Run([Write("Action", Str(operation)), Write("Version", Str(version))], None);
    assert Distinct(header.writes) by { assert "Action"[0] != "Version"[0]; }
    var rest := Ser(m, c, p, sh, params, "");
    assert Request(m, c, p, operation, version, Some(sh), params) == Then(header, rest);
    if params.Dict? {
      var members := sh.kind.members;
      FieldsKeys(m, c, p, names, members, sh.kind.required, params.entries, [], sh.traits);
      HeaderFieldsApart(m, p, members, params.entries, header.writes, rest.writes);
    }
    hide Ser, Clean, Sound, Heads, AllUnderFields;
    ThenDistinct(header, rest);
  }
}
