/** When the query serializer does assign a key twice: lists of flattened lists, and siblings of one name. */
module QueryCollisions {
  import opened Results
  import opened Numerals
  import opened Assignments
  import opened Dots
  import opened Shapes
  import XmlSerializer
  import opened QuerySerializer
  import opened QueryKeys

  // ----- Parts of a run

  lemma DistinctThen(first: Run, rest: Run)
    requires first.error.None?
    ensures Distinct(Then(first, rest).writes) <==>
            Distinct(first.writes) && Distinct(rest.writes) && Apart(first.writes, rest.writes)
  {
    var a, b := first.writes, rest.writes;
    assert Then(first, rest).writes == a + b;
    assert forall i :: 0 <= i < |a| ==> (a + b)[i] == a[i];
    assert forall i :: 0 <= i < |b| ==> (a + b)[|a| + i] == b[i];
  }

  lemma ApartSplit(a: seq<Write<Value>>, b: seq<Write<Value>>, d: seq<Write<Value>>)
    ensures Apart(a, b + d) <==> Apart(a, b) && Apart(a, d)
    ensures Apart(b + d, a) <==> Apart(b, a) && Apart(d, a)
  {
    assert forall i :: 0 <= i < |b| ==> (b + d)[i] == b[i];
    assert forall i :: 0 <= i < |d| ==> (b + d)[|b| + i] == d[i];
  }

  /** The assignments of one element of a list whose elements are numbered from i. */
  function ElementWrites(m: ShapeMap, c: XmlSerializer.Codec, member: Shape, items: seq<Value>, prefix: string, i: nat, k: nat)
    : seq<Write<Value>>
    requires Closed(m) && InMap(m, member.kind) && k < |items|
  {
    Ser(m, c, Query, member, items[k], prefix + "." + NatText(i + k)).writes
  }

  lemma {:induction false} ApartItems(m: ShapeMap, c: XmlSerializer.Codec, member: Shape, items: seq<Value>, prefix: string, i: nat,
                                      a: seq<Write<Value>>)
    requires Closed(m) && InMap(m, member.kind) && SerItems(m, c, Query, member, items, prefix, i).error.None?
    ensures Apart(a, SerItems(m, c, Query, member, items, prefix, i).writes) <==>
            forall k :: 0 <= k < |items| ==> Apart(a, ElementWrites(m, c, member, items, prefix, i, k))
    decreases |items|
  {
    if items != [] {
      var rest := items[1..];
      ApartItems(m, c, member, rest, prefix, i + 1, a);
      LaterElements(m, c, member, items, prefix, i, rest, i + 1);
      ItemsStep(m, c, member, items, prefix, i);
      hide Ser, SerItems, ElementWrites, Apart;
      ApartSplit(a, ElementWrites(m, c, member, items, prefix, i, 0),
                 SerItems(m, c, Query, member, rest, prefix, i + 1).writes);
    }
  }

  lemma ItemsStep(m: ShapeMap, c: XmlSerializer.Codec, member: Shape, items: seq<Value>, prefix: string, i: nat)
    requires Closed(m) && InMap(m, member.kind) && items != []
    requires SerItems(m, c, Query, member, items, prefix, i).error.None?
    ensures SerItems(m, c, Query, member, items[1..], prefix, i + 1).error.None?
    ensures
      var first := Ser(m, c, Query, member, items[0], prefix + "." + NatText(i));
      && first.error.None? && first.writes == ElementWrites(m, c, member, items, prefix, i, 0)
      && SerItems(m, c, Query, member, items, prefix, i) ==
         Then(first, SerItems(m, c, Query, member, items[1..], prefix, i + 1))
      && SerItems(m, c, Query, member, items, prefix, i).writes ==
         first.writes + SerItems(m, c, Query, member, items[1..], prefix, i + 1).writes
  {
  }

  lemma LaterElements(m: ShapeMap, c: XmlSerializer.Codec, member: Shape, items: seq<Value>, prefix: string, i: nat,
                      rest: seq<Value>, next: nat)
    requires Closed(m) && InMap(m, member.kind) && items != [] && rest == items[1..] && next == i + 1
    ensures forall k :: 0 <= k < |rest| ==>
      ElementWrites(m, c, member, rest, prefix, next, k) == ElementWrites(m, c, member, items, prefix, i, k + 1)
    ensures forall k :: 1 <= k < |items| ==>
      ElementWrites(m, c, member, items, prefix, i, k) == ElementWrites(m, c, member, rest, prefix, next, k - 1)
  {
    hide Ser;
  }

  ghost predicate ElementsApart(m: ShapeMap, c: XmlSerializer.Codec, member: Shape, items: seq<Value>, prefix: string, i: nat)
    requires Closed(m) && InMap(m, member.kind)
  {
    forall k, l :: 0 <= k < l < |items| ==>
      Apart(ElementWrites(m, c, member, items, prefix, i, k), ElementWrites(m, c, member, items, prefix, i, l))
  }

  /** A list writes no key twice exactly when no element does and no two elements share one. */
  lemma {:induction false} ItemsDistinctIff(m: ShapeMap, c: XmlSerializer.Codec, member: Shape, items: seq<Value>, prefix: string,
                                            i: nat)
    requires Closed(m) && InMap(m, member.kind) && SerItems(m, c, Query, member, items, prefix, i).error.None?
    ensures Distinct(SerItems(m, c, Query, member, items, prefix, i).writes) <==>
            && (forall k :: 0 <= k < |items| ==> Distinct(ElementWrites(m, c, member, items, prefix, i, k)))
            && ElementsApart(m, c, member, items, prefix, i)
    decreases |items|
  {
    if items != [] {
      var rest := items[1..];
      ItemsStep(m, c, member, items, prefix, i);
      LaterElements(m, c, member, items, prefix, i, rest, i + 1);
      ItemsDistinctIff(m, c, member, rest, prefix, i + 1);
      var first := ElementWrites(m, c, member, items, prefix, i, 0);
      ApartItems(m, c, member, rest, prefix, i + 1, first);
      DistinctThen(Ser(m, c, Query, member, items[0], prefix + "." + NatText(i)),
                   SerItems(m, c, Query, member, rest, prefix, i + 1));
      hide Ser, SerItems, ElementWrites, Apart, Distinct;
    }
  }

  // ----- Lists of flattened lists

  /** The element was given as a list with elements of its own. */
  predicate Filled(v: Value) {
    v.Items? && v.items != []
  }

  /** A list, not renamed itself, whose elements are flattened lists that take the name of their member. */
  ghost predicate Nested(m: ShapeMap, names: set<string>, sh: Shape, inner: Shape, text: Shape, w: string) {
    && Closed(m) && InMap(m, sh.kind) && sh.kind.List? && inner == Resolve(m, sh.kind.member)
    && TakenName(Query, sh, inner).None?
    && Sound(m, Query, names, inner) && inner.kind.List? && text == Resolve(m, inner.kind.member)
    && TakenName(Query, inner, text) == Some(w) && Good(w)
  }

  /** An inner list replaces its number by the name: an empty one keeps the number. */
  lemma InnerRun(m: ShapeMap, c: XmlSerializer.Codec, names: set<string>, sh: Shape, inner: Shape, text: Shape, w: string,
                 at: Path, v: Value, i: nat)
    requires Nested(m, names, sh, inner, text, w) && GoodPath(at)
    requires at != [] && Ser(m, c, Query, inner, v, JoinDots(at) + "." + NatText(i)).error.None?
    ensures InMap(m, text.kind)
    ensures
      Ser(m, c, Query, inner, v, JoinDots(at) + "." + NatText(i)) ==
      if Filled(v) then SerItems(m, c, Query, text, v.items, JoinDots(at + [w]), 1)
      else Run([Write(JoinDots(at + [NatText(i)]), Str(""))], None)
  {
    NumberIsGood(i);
    JoinSnoc(at, NatText(i));
    var path := at + [NatText(i)];
    KeyOfPath(path);
    assert path[..|path| - 1] == at;
    assert ListPrefix(Query, inner, text, JoinDots(path)) == JoinDots(at + [w]);
  }

  lemma UnderSplit(key: string, at: Path, i: nat)
    requires GoodPath(at) && key == JoinDots(at + [NatText(i)])
    ensures SplitDots(key) == at + [NatText(i)]
  {
    NumberIsGood(i);
    KeyOfPath(at + [NatText(i)]);
  }

  /** Keys of an empty inner list and of any other. */
  lemma EmptyApart(at: Path, i: nat, w: string, ws: seq<Write<Value>>)
    requires GoodPath(at) && AllUnderNumbers(ws, at + [w], 1)
    ensures Apart([Write(JoinDots(at + [NatText(i)]), Str(""))], ws)
    ensures Apart(ws, [Write(JoinDots(at + [NatText(i)]), Str(""))])
  {
    var key := JoinDots(at + [NatText(i)]);
    UnderSplit(key, at, i);
    forall k | 0 <= k < |ws|
      ensures ws[k].key != key
    {
      assert UnderNumber(ws[k].key, at + [w], 1);
      var j: nat :| Under(ws[k].key, at + [w] + [NatText(j)]);
      assert |at + [w] + [NatText(j)]| == |at| + 2;
    }
  }

  lemma TwoEmptyApart(at: Path, i: nat, k: nat)
    requires GoodPath(at) && i != k
    ensures Apart([Write(JoinDots(at + [NatText(i)]), Str(""))], [Write(JoinDots(at + [NatText(k)]), Str(""))])
  {
    UnderSplit(JoinDots(at + [NatText(i)]), at, i);
    UnderSplit(JoinDots(at + [NatText(k)]), at, k);
    if NatText(i) == NatText(k) { NatTextInjective(i, k); }
    assert (at + [NatText(i)])[|at|] != (at + [NatText(k)])[|at|];
  }

  /** The elements at one number of two inner lists share no key. */
  ghost predicate SameNumberApart(m: ShapeMap, c: XmlSerializer.Codec, text: Shape, base: Path, xs: seq<Value>, ys: seq<Value>)
    requires Closed(m) && InMap(m, text.kind)
  {
    forall j :: 0 <= j < |xs| && j < |ys| ==>
      Apart(ElementWrites(m, c, text, xs, JoinDots(base), 1, j), ElementWrites(m, c, text, ys, JoinDots(base), 1, j))
  }

  lemma ElementUnder(m: ShapeMap, c: XmlSerializer.Codec, names: set<string>, text: Shape, base: Path, xs: seq<Value>, j: nat)
    requires Sound(m, Query, names, text) && Heads(m, Query, text, "") == {""} && GoodPath(base) && base != []
    requires j < |xs| && Proper(xs[j])
    ensures
      var ws := ElementWrites(m, c, text, xs, JoinDots(base), 1, j);
      Distinct(ws) && AllUnder(ws, base + [NatText(1 + j)])
  {
    NumberIsGood(1 + j);
    JoinSnoc(base, NatText(1 + j));
    OnlyHead(m, Query, text, NatText(1 + j));
    SerKeys(m, c, Query, names, text, xs[j], base, NatText(1 + j));
    var ws := ElementWrites(m, c, text, xs, JoinDots(base), 1, j);
    forall i | 0 <= i < |ws| ensures Under(ws[i].key, base + [NatText(1 + j)]) {
      assert UnderHeads(ws[i].key, base, {NatText(1 + j)});
    }
  }

  lemma SlotsApart(a: seq<Write<Value>>, b: seq<Write<Value>>, base: Path, i: nat, k: nat)
    requires AllUnder(a, base + [NatText(i)]) && AllUnder(b, base + [NatText(k)]) && i != k
    ensures Apart(a, b)
  {
    forall x, y | 0 <= x < |a| && 0 <= y < |b|
      ensures a[x].key != b[y].key
    {
      if a[x].key == b[y].key {
        OneSlot(a[x].key, base, NatText(i), NatText(k));
        NatTextInjective(i, k);
      }
    }
  }

  /** Two filled inner lists number their elements in the same place. */
  lemma FilledApartIff(m: ShapeMap, c: XmlSerializer.Codec, names: set<string>, text: Shape, base: Path,
                       xs: seq<Value>, ys: seq<Value>)
    requires Sound(m, Query, names, text) && Heads(m, Query, text, "") == {""} && GoodPath(base) && base != []
    requires (forall j :: 0 <= j < |xs| ==> Proper(xs[j])) && (forall j :: 0 <= j < |ys| ==> Proper(ys[j]))
    requires SerItems(m, c, Query, text, xs, JoinDots(base), 1).error.None?
    requires SerItems(m, c, Query, text, ys, JoinDots(base), 1).error.None?
    ensures Apart(SerItems(m, c, Query, text, xs, JoinDots(base), 1).writes, SerItems(m, c, Query, text, ys, JoinDots(base), 1).writes)
       <==> SameNumberApart(m, c, text, base, xs, ys)
  {
    var a, b := SerItems(m, c, Query, text, xs, JoinDots(base), 1).writes, SerItems(m, c, Query, text, ys, JoinDots(base), 1).writes;
    ApartItems(m, c, text, ys, JoinDots(base), 1, a);
    forall k | 0 <= k < |ys|
      ensures Apart(a, ElementWrites(m, c, text, ys, JoinDots(base), 1, k)) <==>
              k < |xs| ==> Apart(ElementWrites(m, c, text, xs, JoinDots(base), 1, k), ElementWrites(m, c, text, ys, JoinDots(base), 1, k))
    {
      FilledAgainst(m, c, names, text, base, xs, ys, k);
    }
  }

  lemma ApartTurned(a: seq<Write<Value>>, b: seq<Write<Value>>)
    ensures Apart(a, b) <==> Apart(b, a)
  {}

  lemma FilledAgainst(m: ShapeMap, c: XmlSerializer.Codec, names: set<string>, text: Shape, base: Path,
                      xs: seq<Value>, ys: seq<Value>, k: nat)
    requires Sound(m, Query, names, text) && Heads(m, Query, text, "") == {""} && GoodPath(base) && base != []
    requires (forall j :: 0 <= j < |xs| ==> Proper(xs[j])) && k < |ys| && Proper(ys[k])
    requires SerItems(m, c, Query, text, xs, JoinDots(base), 1).error.None?
    ensures
      var b := ElementWrites(m, c, text, ys, JoinDots(base), 1, k);
      Apart(SerItems(m, c, Query, text, xs, JoinDots(base), 1).writes, b) <==>
      k < |xs| ==> Apart(ElementWrites(m, c, text, xs, JoinDots(base), 1, k), b)
  {
    hide CleanShapes, Clean, GoodPath, Heads, Proper, Ser, SerItems, ElementWrites, Apart, AllUnder;
    var b := ElementWrites(m, c, text, ys, JoinDots(base), 1, k);
    ApartItems(m, c, text, xs, JoinDots(base), 1, b);
    ApartTurned(SerItems(m, c, Query, text, xs, JoinDots(base), 1).writes, b);
    ElementUnder(m, c, names, text, base, ys, k);
    forall j | 0 <= j < |xs|
      ensures Apart(b, ElementWrites(m, c, text, xs, JoinDots(base), 1, j)) <==>
              j == k ==> Apart(ElementWrites(m, c, text, xs, JoinDots(base), 1, k), b)
    {
      ElementUnder(m, c, names, text, base, xs, j);
      ApartTurned(b, ElementWrites(m, c, text, xs, JoinDots(base), 1, j));
      if j != k {
        SlotsApart(b, ElementWrites(m, c, text, xs, JoinDots(base), 1, j), base, 1 + k, 1 + j);
      }
    }
  }

  /** What is known of a list of flattened lists that was serialized without an error. */
  lemma NestedFacts(m: ShapeMap, c: XmlSerializer.Codec, names: set<string>, sh: Shape, inner: Shape, text: Shape, w: string,
                    items: seq<Value>, q: Path, name: string) returns (at: Path)
    requires Nested(m, names, sh, inner, text, w) && GoodPath(q) && Good(name) && items != []
    requires Ser(m, c, Query, sh, Items(items), JoinDots(q + [name])).error.None?
    ensures at == ListPath(Query, sh, inner, q, name) && at != [] && GoodPath(at) && GoodPath(at + [w])
    ensures InMap(m, text.kind) && Sound(m, Query, names, text) && Heads(m, Query, text, "") == {""}
    ensures Ser(m, c, Query, sh, Items(items), JoinDots(q + [name])) == SerItems(m, c, Query, inner, items, JoinDots(at), 1)
  {
    at := ListPath(Query, sh, inner, q, name);
    assert Good("member");
    hide Heads, CleanShapes, Clean, SerItems, SplitDots;
    JoinSnoc(q + [name], "member");
    assert ListPrefix(Query, sh, inner, JoinDots(q + [name])) == JoinDots(at);
    Follow(m, Query, names, inner.kind, inner.kind.member);
  }

  lemma {:induction false} ElementFine(m: ShapeMap, c: XmlSerializer.Codec, member: Shape, items: seq<Value>, prefix: string,
                                       i: nat, k: nat)
    requires Closed(m) && InMap(m, member.kind) && SerItems(m, c, Query, member, items, prefix, i).error.None? && k < |items|
    ensures Ser(m, c, Query, member, items[k], prefix + "." + NatText(i + k)).error.None?
    decreases k
  {
    ItemsStep(m, c, member, items, prefix, i);
    if k > 0 {
      ElementFine(m, c, member, items[1..], prefix, i + 1, k - 1);
      assert i + 1 + (k - 1) == i + k;
    }
  }

  /** Two inner lists share a key only where both have an element at one number. */
  lemma InnerApartIff(m: ShapeMap, c: XmlSerializer.Codec, names: set<string>, sh: Shape, inner: Shape, text: Shape, w: string,
                      at: Path, items: seq<Value>, i: nat, k: nat)
    requires Nested(m, names, sh, inner, text, w) && at != [] && GoodPath(at) && GoodPath(at + [w])
    requires InMap(m, text.kind) && Sound(m, Query, names, text) && Heads(m, Query, text, "") == {""}
    requires SerItems(m, c, Query, inner, items, JoinDots(at), 1).error.None? && i < k < |items|
    requires forall j :: 0 <= j < |items| ==> Proper(items[j])
    ensures Apart(ElementWrites(m, c, inner, items, JoinDots(at), 1, i), ElementWrites(m, c, inner, items, JoinDots(at), 1, k)) <==>
            (Filled(items[i]) && Filled(items[k]) ==> SameNumberApart(m, c, text, at + [w], items[i].items, items[k].items))
  {
    hide Sound, GoodPath, Good, Heads, TakenName, Renamed, Ser, SerItems, JoinDots, SameNumberApart, Distinct, Apart, ElementWrites;
    InnerWrites(m, c, names, sh, inner, text, w, at, items, i);
    InnerWrites(m, c, names, sh, inner, text, w, at, items, k);
    var x, y := items[i], items[k];
    assert Proper(x) && Proper(y);
    if Filled(x) && Filled(y) {
      FilledApartIff(m, c, names, text, at + [w], x.items, y.items);
    } else if Filled(x) {
      EmptyAgainst(m, c, names, text, w, at, x.items, 1 + k);
    } else if Filled(y) {
      EmptyAgainst(m, c, names, text, w, at, y.items, 1 + i);
    } else {
      TwoEmptyApart(at, 1 + i, 1 + k);
    }
  }

  lemma InnerWrites(m: ShapeMap, c: XmlSerializer.Codec, names: set<string>, sh: Shape, inner: Shape, text: Shape, w: string,
                    at: Path, items: seq<Value>, k: nat)
    requires Nested(m, names, sh, inner, text, w) && at != [] && GoodPath(at) && InMap(m, text.kind)
    requires SerItems(m, c, Query, inner, items, JoinDots(at), 1).error.None? && k < |items|
    ensures
      ElementWrites(m, c, inner, items, JoinDots(at), 1, k) ==
      if Filled(items[k]) then SerItems(m, c, Query, text, items[k].items, JoinDots(at + [w]), 1).writes
      else [Write(JoinDots(at + [NatText(1 + k)]), Str(""))]
    ensures Filled(items[k]) ==> SerItems(m, c, Query, text, items[k].items, JoinDots(at + [w]), 1).error.None?
  {
    hide Sound, GoodPath, Heads, TakenName, Renamed, Ser, SerItems, JoinDots, Proper;
    ElementFine(m, c, inner, items, JoinDots(at), 1, k);
    InnerRun(m, c, names, sh, inner, text, w, at, items[k], 1 + k);
  }

  lemma EmptyAgainst(m: ShapeMap, c: XmlSerializer.Codec, names: set<string>, text: Shape, w: string, at: Path, xs: seq<Value>,
                     k: nat)
    requires Sound(m, Query, names, text) && Heads(m, Query, text, "") == {""} && GoodPath(at) && GoodPath(at + [w])
    requires (forall j :: 0 <= j < |xs| ==> Proper(xs[j])) && SerItems(m, c, Query, text, xs, JoinDots(at + [w]), 1).error.None?
    ensures Apart([Write(JoinDots(at + [NatText(k)]), Str(""))], SerItems(m, c, Query, text, xs, JoinDots(at + [w]), 1).writes)
    ensures Apart(SerItems(m, c, Query, text, xs, JoinDots(at + [w]), 1).writes, [Write(JoinDots(at + [NatText(k)]), Str(""))])
  {
    hide CleanShapes, Clean, SerItems, JoinDots, SplitDots, Apart, Distinct;
    ItemsKeys(m, c, Query, names, text, xs, at + [w], 1);
    EmptyApart(at, k, w, SerItems(m, c, Query, text, xs, JoinDots(at + [w]), 1).writes);
  }

  /** A list of flattened lists writes no key twice exactly when no two of its lists have elements at one number that
      share a key: the number that told the lists apart is lost. */
  lemma NestedDistinctIff(m: ShapeMap, c: XmlSerializer.Codec, names: set<string>, sh: Shape, inner: Shape, text: Shape, w: string,
                          items: seq<Value>, q: Path, name: string)
    requires Nested(m, names, sh, inner, text, w) && GoodPath(q) && Good(name) && items != []
    requires forall k :: 0 <= k < |items| ==> Proper(items[k])
    requires Ser(m, c, Query, sh, Items(items), JoinDots(q + [name])).error.None?
    ensures InMap(m, text.kind)
    ensures
      var base := ListPath(Query, sh, inner, q, name) + [w];
      Distinct(Ser(m, c, Query, sh, Items(items), JoinDots(q + [name])).writes) <==>
      forall i, k :: 0 <= i < k < |items| && Filled(items[i]) && Filled(items[k]) ==>
        SameNumberApart(m, c, text, base, items[i].items, items[k].items)
  {
    var at := NestedFacts(m, c, names, sh, inner, text, w, items, q, name);
    var prefix := JoinDots(at);
    ItemsDistinctIff(m, c, inner, items, prefix, 1);
    forall k | 0 <= k < |items|
      ensures Distinct(ElementWrites(m, c, inner, items, prefix, 1, k))
    {
      InnerDistinct(m, c, names, sh, inner, text, w, at, items, k);
    }
    forall i, k | 0 <= i < k < |items|
      ensures Apart(ElementWrites(m, c, inner, items, prefix, 1, i), ElementWrites(m, c, inner, items, prefix, 1, k)) <==>
              (Filled(items[i]) && Filled(items[k]) ==> SameNumberApart(m, c, text, at + [w], items[i].items, items[k].items))
    {
      InnerApartIff(m, c, names, sh, inner, text, w, at, items, i, k);
    }
  }

  lemma InnerDistinct(m: ShapeMap, c: XmlSerializer.Codec, names: set<string>, sh: Shape, inner: Shape, text: Shape, w: string,
                      at: Path, items: seq<Value>, k: nat)
    requires Nested(m, names, sh, inner, text, w) && at != [] && GoodPath(at) && k < |items| && Proper(items[k])
    ensures Distinct(ElementWrites(m, c, inner, items, JoinDots(at), 1, k))
  {
    NumberIsGood(1 + k);
    JoinSnoc(at, NatText(1 + k));
    SerKeys(m, c, Query, names, inner, items[k], at, NatText(1 + k));
  }

  /** With scalars inside, exactly the values with at most one list that has elements are safe; any two such lists
      assign their first elements to the same key. */
  lemma FlattenedListInListCollides(m: ShapeMap, c: XmlSerializer.Codec, names: set<string>, sh: Shape, inner: Shape, text: Shape,
                                    w: string, items: seq<Value>, q: Path, name: string)
    requires Nested(m, names, sh, inner, text, w) && text.kind.Scalar? && GoodPath(q) && Good(name) && items != []
    requires forall k :: 0 <= k < |items| ==> Proper(items[k])
    requires Ser(m, c, Query, sh, Items(items), JoinDots(q + [name])).error.None?
    ensures
      Distinct(Ser(m, c, Query, sh, Items(items), JoinDots(q + [name])).writes) <==>
      forall i, k :: 0 <= i < k < |items| ==> !(Filled(items[i]) && Filled(items[k]))
  {
    hide Ser, SerItems, JoinDots, Heads, CleanShapes, Clean, Distinct, ElementWrites, Good, GoodPath, ListPath, Proper;
    NestedDistinctIff(m, c, names, sh, inner, text, w, items, q, name);
    var at := NestedFacts(m, c, names, sh, inner, text, w, items, q, name);
    forall i, k | 0 <= i < k < |items| && Filled(items[i]) && Filled(items[k])
      ensures !SameNumberApart(m, c, text, at + [w], items[i].items, items[k].items)
    {
      FirstElement(m, c, names, sh, inner, text, w, at, items, i);
      FirstElement(m, c, names, sh, inner, text, w, at, items, k);
    }
  }

  lemma FirstElement(m: ShapeMap, c: XmlSerializer.Codec, names: set<string>, sh: Shape, inner: Shape, text: Shape, w: string,
                     at: Path, items: seq<Value>, i: nat)
    requires Nested(m, names, sh, inner, text, w) && at != [] && GoodPath(at)
    requires InMap(m, text.kind) && text.kind.Scalar?
    requires SerItems(m, c, Query, inner, items, JoinDots(at), 1).error.None? && i < |items| && Filled(items[i])
    ensures
      var ws := ElementWrites(m, c, text, items[i].items, JoinDots(at + [w]), 1, 0);
      |ws| == 1 && ws[0].key == JoinDots(at + [w]) + "." + NatText(1)
  {
    ElementFine(m, c, inner, items, JoinDots(at), 1, i);
    InnerRun(m, c, names, sh, inner, text, w, at, items[i], 1 + i);
    ElementFine(m, c, text, items[i].items, JoinDots(at + [w]), 1, 0);
    hide SplitDots, JoinDots, TakenName, Renamed, Sound;
  }

  // ----- Siblings

  /** The assignments of one member of a structure. */
  function FieldWrites(m: ShapeMap, c: XmlSerializer.Codec, p: Protocol, members: seq<Member>, e: Entry, prefix: string)
    : seq<Write<Value>>
    requires Closed(m) && InMap(m, Structure(members, []))
  {
    SerField(m, c, p, members, e, prefix).writes
  }

  lemma FieldsStep(m: ShapeMap, c: XmlSerializer.Codec, p: Protocol, members: seq<Member>, entries: seq<Entry>, prefix: string)
    requires Closed(m) && InMap(m, Structure(members, [])) && entries != []
    requires SerFields(m, c, p, members, entries, prefix).error.None?
    ensures
      var first, rest := SerField(m, c, p, members, entries[0], prefix), SerFields(m, c, p, members, entries[1..], prefix);
      && first.error.None? && rest.error.None?
      && SerFields(m, c, p, members, entries, prefix) == Then(first, rest)
      && SerFields(m, c, p, members, entries, prefix).writes == first.writes + rest.writes
  {
    assert (entries decreases to entries[0]);
  }

  lemma LaterFields(m: ShapeMap, c: XmlSerializer.Codec, p: Protocol, members: seq<Member>, entries: seq<Entry>, prefix: string,
                    rest: seq<Entry>)
    requires Closed(m) && InMap(m, Structure(members, [])) && entries != [] && rest == entries[1..]
    ensures forall k :: 0 <= k < |rest| ==>
      FieldWrites(m, c, p, members, rest[k], prefix) == FieldWrites(m, c, p, members, entries[k + 1], prefix)
    ensures forall k :: 1 <= k < |entries| ==>
      FieldWrites(m, c, p, members, entries[k], prefix) == FieldWrites(m, c, p, members, rest[k - 1], prefix)
  {
    hide FieldWrites;
  }

  ghost predicate FieldsApart(m: ShapeMap, c: XmlSerializer.Codec, p: Protocol, members: seq<Member>, entries: seq<Entry>,
                              prefix: string)
    requires Closed(m) && InMap(m, Structure(members, []))
  {
    forall k, l :: 0 <= k < l < |entries| ==>
      Apart(FieldWrites(m, c, p, members, entries[k], prefix), FieldWrites(m, c, p, members, entries[l], prefix))
  }

  lemma {:induction false} ApartFields(m: ShapeMap, c: XmlSerializer.Codec, p: Protocol, members: seq<Member>, entries: seq<Entry>,
                                       prefix: string, a: seq<Write<Value>>)
    requires Closed(m) && InMap(m, Structure(members, [])) && SerFields(m, c, p, members, entries, prefix).error.None?
    ensures Apart(a, SerFields(m, c, p, members, entries, prefix).writes) <==>
            forall k :: 0 <= k < |entries| ==> Apart(a, FieldWrites(m, c, p, members, entries[k], prefix))
    decreases |entries|
  {
    if entries != [] {
      var rest := entries[1..];
      FieldsStep(m, c, p, members, entries, prefix);
      LaterFields(m, c, p, members, entries, prefix, rest);
      ApartFields(m, c, p, members, rest, prefix, a);
      ApartSplit(a, FieldWrites(m, c, p, members, entries[0], prefix), SerFields(m, c, p, members, rest, prefix).writes);
      hide SerFields, FieldWrites, Apart;
    }
  }

  /** A structure writes no key twice exactly when no member does and no two members share one. */
  lemma {:induction false} FieldsDistinctIff(m: ShapeMap, c: XmlSerializer.Codec, p: Protocol, members: seq<Member>,
                                             entries: seq<Entry>, prefix: string)
    requires Closed(m) && InMap(m, Structure(members, [])) && SerFields(m, c, p, members, entries, prefix).error.None?
    ensures Distinct(SerFields(m, c, p, members, entries, prefix).writes) <==>
            && (forall k :: 0 <= k < |entries| ==> Distinct(FieldWrites(m, c, p, members, entries[k], prefix)))
            && FieldsApart(m, c, p, members, entries, prefix)
    decreases |entries|
  {
    if entries != [] {
      var rest := entries[1..];
      hide SerField, SerFields, FieldWrites, Apart, Distinct;
      FieldsStep(m, c, p, members, entries, prefix);
      LaterFields(m, c, p, members, entries, prefix, rest);
      FieldsDistinctIff(m, c, p, members, rest, prefix);
      ApartFields(m, c, p, members, rest, prefix, FieldWrites(m, c, p, members, entries[0], prefix));
      DistinctThen(SerField(m, c, p, members, entries[0], prefix), SerFields(m, c, p, members, rest, prefix));
    }
  }

  /** Where a scalar or a list of scalars is written. */
  datatype Place = Nowhere | At(path: Path) | Below(path: Path)

  predicate Flat(m: ShapeMap, sh: Shape)
    requires Closed(m) && InMap(m, sh.kind)
  {
    sh.kind.Scalar? || (sh.kind.List? && m[sh.kind.member.shape].kind.Scalar?)
  }

  function PlaceOf(m: ShapeMap, p: Protocol, sh: Shape, v: Value, q: Path, name: string): Place
    requires Closed(m) && InMap(m, sh.kind)
  {
    if sh.kind.List? && Filled(v) then Below(ListPath(p, sh, Resolve(m, sh.kind.member), q, name))
    else if sh.kind.List? && p.EC2? then Nowhere
    else At(q + [name])
  }

  ghost predicate Lies(ws: seq<Write<Value>>, place: Place) {
    match place
    case Nowhere => ws == []
    case At(path) => |ws| == 1 && ws[0].key == JoinDots(path)
    case Below(path) => ws != [] && forall k :: 0 <= k < |ws| ==> ws[k].key == JoinDots(path + [NatText(1 + k)])
  }

  predicate GoodPlace(place: Place, n: nat) {
    match place
    case Nowhere => true
    case At(path) => GoodPath(path) && |path| == n + 1
    case Below(path) => GoodPath(path) && |path| > n
  }

  lemma {:induction false} ScalarItems(m: ShapeMap, c: XmlSerializer.Codec, p: Protocol, text: Shape, items: seq<Value>, base: Path, i: nat)
    requires Closed(m) && text.kind.Scalar? && base != [] && GoodPath(base)
    requires SerItems(m, c, p, text, items, JoinDots(base), i).error.None?
    ensures
      var ws := SerItems(m, c, p, text, items, JoinDots(base), i).writes;
      |ws| == |items| && forall k :: 0 <= k < |ws| ==> ws[k].key == JoinDots(base + [NatText(i + k)])
    decreases |items|
  {
    if items != [] {
      ScalarItems(m, c, p, text, items[1..], base, i + 1);
      JoinSnoc(base, NatText(i));
    }
  }

  lemma FlatWrites(m: ShapeMap, c: XmlSerializer.Codec, p: Protocol, sh: Shape, v: Value, q: Path, name: string)
    requires Closed(m) && InMap(m, sh.kind) && Flat(m, sh) && GoodPath(q) && GoodHeads(m, p, sh, name)
    requires Ser(m, c, p, sh, v, JoinDots(q + [name])).error.None?
    ensures GoodPlace(PlaceOf(m, p, sh, v, q, name), |q|)
    ensures Lies(Ser(m, c, p, sh, v, JoinDots(q + [name])).writes, PlaceOf(m, p, sh, v, q, name))
  {
    GoodHead(m, p, sh, name);
    if sh.kind.List? && Filled(v) {
      ListPathIsPrefix(m, p, sh, sh.kind.member, q, name);
      var base := ListPath(p, sh, Resolve(m, sh.kind.member), q, name);
      ScalarItems(m, c, p, Resolve(m, sh.kind.member), v.items, base, 1);
    }
  }

  lemma PathsOfKeys(a: Path, b: Path)
    requires GoodPath(a) && GoodPath(b) && a != [] && b != []
    ensures JoinDots(a) == JoinDots(b) <==> a == b
  {
    KeyOfPath(a);
    KeyOfPath(b);
  }

  lemma NumberedKeys(a: Path, i: nat, b: Path, k: nat)
    requires GoodPath(a) && GoodPath(b)
    ensures JoinDots(a + [NatText(i)]) == JoinDots(b + [NatText(k)]) <==> a == b && i == k
  {
    NumberIsGood(i);
    NumberIsGood(k);
    PathsOfKeys(a + [NatText(i)], b + [NatText(k)]);
    var x, y := a + [NatText(i)], b + [NatText(k)];
    if x == y {
      assert x[..|x| - 1] == a && y[..|y| - 1] == b && x[|x| - 1] == y[|y| - 1];
      NatTextInjective(i, k);
    }
  }

  lemma PlaceDistinct(ws: seq<Write<Value>>, place: Place, n: nat)
    requires Lies(ws, place) && GoodPlace(place, n)
    ensures Distinct(ws)
  {
    if place.Below? {
      forall i, k | 0 <= i < k < |ws|
        ensures ws[i].key != ws[k].key
      {
        NumberedKeys(place.path, 1 + i, place.path, 1 + k);
      }
    }
  }

  /** Two siblings share a key exactly when they are written in the same place. */
  lemma PlacesApartIff(a: seq<Write<Value>>, x: Place, b: seq<Write<Value>>, y: Place, n: nat)
    requires Lies(a, x) && Lies(b, y) && GoodPlace(x, n) && GoodPlace(y, n)
    ensures Apart(a, b) <==> x != y || x.Nowhere?
  {
    match (x, y)
    case (At(s), At(t)) => PathsOfKeys(s, t);
    case (At(s), Below(t)) => MixedApart(s, t, b, n); ApartTurned(a, b);
    case (Below(s), At(t)) => MixedApart(t, s, a, n); ApartTurned(a, b);
    case (Below(s), Below(t)) =>
      forall i, k | 0 <= i < |a| && 0 <= k < |b|
        ensures a[i].key == b[k].key <==> s == t && i == k
      {
        NumberedKeys(s, 1 + i, t, 1 + k);
      }
      assert s == t ==> a[0].key == b[0].key;
    case _ =>
  }

  lemma MixedApart(s: Path, t: Path, ws: seq<Write<Value>>, n: nat)
    requires GoodPath(s) && |s| == n + 1 && GoodPath(t) && |t| > n && Lies(ws, Below(t))
    ensures forall k :: 0 <= k < |ws| ==> ws[k].key != JoinDots(s)
  {
    forall k | 0 <= k < |ws|
      ensures ws[k].key != JoinDots(s)
    {
      NumberIsGood(1 + k);
      PathsOfKeys(s, t + [NatText(1 + k)]);
    }
  }

  /** Every entry fills a member that is a scalar or a list of scalars, under a sound name. */
  ghost predicate FlatEntries(m: ShapeMap, p: Protocol, members: seq<Member>, entries: seq<Entry>)
    requires Closed(m) && InMap(m, Structure(members, []))
  {
    forall i :: 0 <= i < |entries| ==> FlatEntry(m, p, members, entries[i])
  }

  predicate FlatEntry(m: ShapeMap, p: Protocol, members: seq<Member>, e: Entry)
    requires Closed(m) && InMap(m, Structure(members, []))
  {
    e.key.Str? &&
    var found := FindMember(members, e.key.s);
    found.Some? &&
    var sh := Resolve(m, found.value);
    Flat(m, sh) && Word(p, sh.traits, e.key.s).Some? && GoodHeads(m, p, sh, Word(p, sh.traits, e.key.s).value)
  }

  function EntryPlace(m: ShapeMap, p: Protocol, members: seq<Member>, e: Entry, q: Path): Place
    requires Closed(m) && InMap(m, Structure(members, [])) && FlatEntry(m, p, members, e)
  {
    var sh := Resolve(m, FindMember(members, e.key.s).value);
    PlaceOf(m, p, sh, e.value, q, Word(p, sh.traits, e.key.s).value)
  }

  lemma {:induction false} FieldFine(m: ShapeMap, c: XmlSerializer.Codec, p: Protocol, members: seq<Member>, entries: seq<Entry>,
                                     prefix: string, k: nat)
    requires Closed(m) && InMap(m, Structure(members, [])) && k < |entries|
    requires SerFields(m, c, p, members, entries, prefix).error.None?
    ensures SerField(m, c, p, members, entries[k], prefix).error.None?
    decreases k
  {
    hide SerFields, SerField, FindMember;
    FieldsStep(m, c, p, members, entries, prefix);
    if k > 0 {
      FieldFine(m, c, p, members, entries[1..], prefix, k - 1);
    }
  }

  lemma EntryLies(m: ShapeMap, c: XmlSerializer.Codec, p: Protocol, members: seq<Member>, entries: seq<Entry>, q: Path, k: nat)
    requires Closed(m) && InMap(m, Structure(members, [])) && FlatEntries(m, p, members, entries) && GoodPath(q)
    requires SerFields(m, c, p, members, entries, JoinDots(q)).error.None? && k < |entries|
    ensures GoodPlace(EntryPlace(m, p, members, entries[k], q), |q|)
    ensures Lies(FieldWrites(m, c, p, members, entries[k], JoinDots(q)), EntryPlace(m, p, members, entries[k], q))
  {
    var e := entries[k];
    FieldFine(m, c, p, members, entries, JoinDots(q), k);
    var sh := Resolve(m, FindMember(members, e.key.s).value);
    var name := Word(p, sh.traits, e.key.s).value;
    FieldUnderName(m, c, p, members, e, q);
    hide Ser, SerField, SerFields, GoodHeads, Word;
    FlatWrites(m, c, p, sh, e.value, q, name);
  }

  lemma FieldUnderName(m: ShapeMap, c: XmlSerializer.Codec, p: Protocol, members: seq<Member>, e: Entry, q: Path)
    requires Closed(m) && InMap(m, Structure(members, [])) && FlatEntry(m, p, members, e) && GoodPath(q)
    ensures
      var sh := Resolve(m, FindMember(members, e.key.s).value);
      SerField(m, c, p, members, e, JoinDots(q)) == Ser(m, c, p, sh, e.value, JoinDots(q + [Word(p, sh.traits, e.key.s).value]))
  {
    hide Ser, SerField, Word;
    var sh := Resolve(m, FindMember(members, e.key.s).value);
    FieldRun(m, c, p, members, e, JoinDots(q));
    MemberKey(q, Word(p, sh.traits, e.key.s).value);
  }

  /** A structure of scalars and lists of scalars writes no key twice exactly when no two of its members are written in
      the same place: two names that meet need not collide. */
  lemma SiblingsDistinctIff(m: ShapeMap, c: XmlSerializer.Codec, p: Protocol, members: seq<Member>, entries: seq<Entry>, q: Path)
    requires Closed(m) && InMap(m, Structure(members, [])) && FlatEntries(m, p, members, entries) && GoodPath(q)
    requires SerFields(m, c, p, members, entries, JoinDots(q)).error.None?
    ensures Distinct(SerFields(m, c, p, members, entries, JoinDots(q)).writes) <==>
            forall i, k :: 0 <= i < k < |entries| ==>
              var place := EntryPlace(m, p, members, entries[i], q);
              place != EntryPlace(m, p, members, entries[k], q) || place.Nowhere?
  {
    FieldsDistinctIff(m, c, p, members, entries, JoinDots(q));
    forall k | 0 <= k < |entries|
      ensures Distinct(FieldWrites(m, c, p, members, entries[k], JoinDots(q)))
    {
      EntryLies(m, c, p, members, entries, q, k);
      PlaceDistinct(FieldWrites(m, c, p, members, entries[k], JoinDots(q)), EntryPlace(m, p, members, entries[k], q), |q|);
    }
    hide SerFields, FieldWrites, EntryPlace, Apart, Distinct, Lies, GoodPlace;
    forall i, k | 0 <= i < k < |entries|
      ensures
        var x, y := EntryPlace(m, p, members, entries[i], q), EntryPlace(m, p, members, entries[k], q);
        Apart(FieldWrites(m, c, p, members, entries[i], JoinDots(q)), FieldWrites(m, c, p, members, entries[k], JoinDots(q))) <==>
        x != y || x.Nowhere?
    {
      EntryLies(m, c, p, members, entries, q, i);
      EntryLies(m, c, p, members, entries, q, k);
      PlacesApartIff(FieldWrites(m, c, p, members, entries[i], JoinDots(q)), EntryPlace(m, p, members, entries[i], q),
                     FieldWrites(m, c, p, members, entries[k], JoinDots(q)), EntryPlace(m, p, members, entries[k], q), |q|);
    }
  }

  // ----- Scalars under any names

  predicate ScalarEntry(m: ShapeMap, members: seq<Member>, e: Entry)
    requires Closed(m) && InMap(m, Structure(members, []))
  {
    e.key.Str? && FindMember(members, e.key.s).Some? && m[FindMember(members, e.key.s).value.shape].kind.Scalar?
  }

  function EntryName(m: ShapeMap, p: Protocol, members: seq<Member>, e: Entry): Option<string>
    requires Closed(m) && InMap(m, Structure(members, [])) && ScalarEntry(m, members, e)
  {
    Word(p, Resolve(m, FindMember(members, e.key.s).value).traits, e.key.s)
  }

  lemma PrefixInjective(prefix: string, a: string, b: string)
    ensures MemberPrefix(prefix, a) == MemberPrefix(prefix, b) <==> a == b
  {
    if prefix != "" {
      assert (prefix + "." + a)[|prefix| + 1..] == a && (prefix + "." + b)[|prefix| + 1..] == b;
    }
  }

  lemma ScalarEntryKey(m: ShapeMap, c: XmlSerializer.Codec, p: Protocol, members: seq<Member>, e: Entry, prefix: string)
    requires Closed(m) && InMap(m, Structure(members, [])) && ScalarEntry(m, members, e)
    requires SerField(m, c, p, members, e, prefix).error.None?
    ensures EntryName(m, p, members, e).Some?
    ensures
      var ws := FieldWrites(m, c, p, members, e, prefix);
      |ws| == 1 && ws[0].key == MemberPrefix(prefix, EntryName(m, p, members, e).value)
  {
  }

  /** Scalar members, whatever dots their names have, collide exactly when two names are the same. */
  lemma ScalarSiblingsDistinctIff(m: ShapeMap, c: XmlSerializer.Codec, p: Protocol, members: seq<Member>, entries: seq<Entry>,
                                  prefix: string)
    requires Closed(m) && InMap(m, Structure(members, []))
    requires forall i :: 0 <= i < |entries| ==> ScalarEntry(m, members, entries[i])
    requires SerFields(m, c, p, members, entries, prefix).error.None?
    ensures Distinct(SerFields(m, c, p, members, entries, prefix).writes) <==>
            forall i, k :: 0 <= i < k < |entries| ==> EntryName(m, p, members, entries[i]) != EntryName(m, p, members, entries[k])
  {
    hide SerFields, SerField, FieldWrites, EntryName, Apart, Distinct, Word, NameOf;
    FieldsDistinctIff(m, c, p, members, entries, prefix);
    forall i | 0 <= i < |entries|
      ensures Distinct(FieldWrites(m, c, p, members, entries[i], prefix))
    {
      ScalarPair(m, c, p, members, entries, prefix, i, i);
    }
    forall i, k | 0 <= i < k < |entries|
      ensures Apart(FieldWrites(m, c, p, members, entries[i], prefix), FieldWrites(m, c, p, members, entries[k], prefix)) <==>
              EntryName(m, p, members, entries[i]) != EntryName(m, p, members, entries[k])
    {
      ScalarPair(m, c, p, members, entries, prefix, i, k);
    }
  }

  lemma ScalarPair(m: ShapeMap, c: XmlSerializer.Codec, p: Protocol, members: seq<Member>, entries: seq<Entry>, prefix: string,
                   i: nat, k: nat)
    requires Closed(m) && InMap(m, Structure(members, [])) && i < |entries| && k < |entries|
    requires ScalarEntry(m, members, entries[i]) && ScalarEntry(m, members, entries[k])
    requires SerFields(m, c, p, members, entries, prefix).error.None?
    ensures Distinct(FieldWrites(m, c, p, members, entries[i], prefix))
    ensures Apart(FieldWrites(m, c, p, members, entries[i], prefix), FieldWrites(m, c, p, members, entries[k], prefix)) <==>
            EntryName(m, p, members, entries[i]) != EntryName(m, p, members, entries[k])
  {
    FieldFine(m, c, p, members, entries, prefix, i);
    FieldFine(m, c, p, members, entries, prefix, k);
    ScalarEntryKey(m, c, p, members, entries[i], prefix);
    ScalarEntryKey(m, c, p, members, entries[k], prefix);
    hide SerFields, FieldWrites, EntryName, MemberPrefix;
    PrefixInjective(prefix, EntryName(m, p, members, entries[i]).value, EntryName(m, p, members, entries[k]).value);
  }
}
