/** When parsing ends: repeated elements of recursive structures, and the depth that any other document needs. */
module XmlRecursion {
  import opened Results
  import opened Shapes
  import opened Xml
  import opened XmlSerializer
  import opened XmlParser
  import opened XmlRoundTrip

  // ----- Repeated elements

  /** The member looks among the children for the tag. */
  predicate Keyed(m: ShapeMap, member: Member, t: string)
    requires Closed(m) && member.ref.shape in m
  {
    var sh := Resolve(m, member.ref);
    sh.traits.location.None? && MemberKeyName(m, sh, member.name) == t
  }

  /** The shape of the first member that looks for the tag. */
  function FirstKeyed(m: ShapeMap, members: seq<Member>, t: string): Option<Shape>
    requires Closed(m) && InMap(m, Structure(members, []))
  {
    if members == [] then None
    else if Keyed(m, members[0], t) then Some(Resolve(m, members[0].ref))
    else FirstKeyed(m, members[1..], t)
  }

  lemma FirstKeyedInMap(m: ShapeMap, members: seq<Member>, t: string)
    requires Closed(m) && InMap(m, Structure(members, [])) && FirstKeyed(m, members, t).Some?
    ensures InMap(m, FirstKeyed(m, members, t).value.kind)
  {
    if !Keyed(m, members[0], t) { FirstKeyedInMap(m, members[1..], t); }
  }

  /** Whether k steps from structure to member, always by the same tag, lead through structures only. */
  ghost predicate Loops(m: ShapeMap, sh: Shape, t: string, k: nat)
    requires Closed(m) && InMap(m, sh.kind)
    decreases k
  {
    sh.kind.Structure? &&
    var next := FirstKeyed(m, sh.kind.members, t);
    next.Some? && (k == 0 || (FirstKeyedInMap(m, sh.kind.members, t); Loops(m, next.value, t, k - 1)))
  }

  predicate AllTagged(ds: seq<Dom>, t: string) {
    forall i :: 0 <= i < |ds| ==> ds[i].tag == t
  }

  lemma OneTag(ds: seq<Dom>, t: string)
    requires |ds| >= 2 && AllTagged(ds, t)
    ensures forall x :: x in BuildNames(ds) <==> x == t
    ensures BuildNames(ds)[t] == Many(ds)
  {
    forall x
      ensures x in BuildNames(ds) <==> x == t
    {
      BuildNamesGathers(ds, x);
      WithTagUniform(ds, t, x);
    }
    BuildNamesGathers(ds, t);
    WithTagUniform(ds, t, t);
  }

  /** The list of elements is handed to the first member that looks for their tag, as it is. */
  lemma {:induction false} MembersFail(m: ShapeMap, c: Codec, members: seq<Member>, ds: seq<Dom>, t: string, depth: nat)
    requires Closed(m) && InMap(m, Structure(members, [])) && |ds| >= 2 && AllTagged(ds, t)
    requires FirstKeyed(m, members, t).Some? && InMap(m, FirstKeyed(m, members, t).value.kind)
    requires Parse(m, c, FirstKeyed(m, members, t).value, Many(ds), depth) == Err(RecursionError)
    ensures ParseMembers(m, c, members, BuildNames(ds), depth) == Err(RecursionError)
    decreases |members|
  {
    OneTag(ds, t);
    var n := |members| - 1;
    var init, last := members[..n], members[n];
    FirstKeyedSnoc(m, init, last, t);
    assert members == init + [last];
    hide BuildNames, FirstKeyed;
    if FirstKeyed(m, init, t).Some? {
      MembersFail(m, c, init, ds, t, depth);
    } else {
      MembersSkipped(m, c, init, BuildNames(ds), t, depth);
    }
  }

  lemma {:induction false} FirstKeyedSnoc(m: ShapeMap, init: seq<Member>, last: Member, t: string)
    requires Closed(m) && InMap(m, Structure(init + [last], []))
    ensures InMap(m, Structure(init, [])) && last.ref.shape in m
    ensures FirstKeyed(m, init + [last], t) ==
            if FirstKeyed(m, init, t).Some? then FirstKeyed(m, init, t)
            else if Keyed(m, last, t) then Some(Resolve(m, last.ref)) else None
    decreases |init|
  {
    var all := init + [last];
    assert forall i :: 0 <= i < |init| ==> init[i] == all[i];
    assert all[|init|] == last;
    if init == [] {
      assert all == [last] && all[1..] == [];
    } else {
      assert all[1..] == init[1..] + [last];
      FirstKeyedSnoc(m, init[1..], last, t);
    }
  }

  lemma {:induction false} MembersSkipped(m: ShapeMap, c: Codec, members: seq<Member>, names: map<string, Found>, t: string,
                                          depth: nat)
    requires Closed(m) && InMap(m, Structure(members, [])) && FirstKeyed(m, members, t).None?
    requires forall x :: x in names ==> x == t
    ensures ParseMembers(m, c, members, names, depth) == Ok(map[])
    decreases |members|
  {
    if members != [] {
      var n := |members| - 1;
      FirstKeyedSnoc(m, members[..n], members[n], t);
      assert members == members[..n] + [members[n]];
      MembersSkipped(m, c, members[..n], names, t, depth);
    }
  }

  /** Several elements of one tag, under structures that lead from one to the next by that tag, are parsed again and again:
      there is no depth at which that ends. */
  lemma {:induction false} RepeatedElementsLoop(m: ShapeMap, c: Codec, sh: Shape, ds: seq<Dom>, t: string, depth: nat)
    requires Closed(m) && InMap(m, sh.kind) && |ds| >= 2 && AllTagged(ds, t) && Loops(m, sh, t, depth)
    ensures Parse(m, c, sh, Many(ds), depth) == Err(RecursionError)
    decreases depth
  {
    if depth > 0 {
      FirstKeyedInMap(m, sh.kind.members, t);
      var next := FirstKeyed(m, sh.kind.members, t).value;
      RepeatedElementsLoop(m, c, next, ds, t, depth - 1);
      MembersFail(m, c, sh.kind.members, ds, t, depth - 1);
    }
  }

  /** A structure whose first member under a tag is of the structure's own kind loops. */
  lemma {:induction false} OwnMemberLoops(m: ShapeMap, sh: Shape, t: string, k: nat)
    requires Closed(m) && InMap(m, sh.kind) && sh.kind.Structure?
    requires FirstKeyed(m, sh.kind.members, t).Some? && FirstKeyed(m, sh.kind.members, t).value.kind == sh.kind
    ensures Loops(m, sh, t, k)
    decreases k
  {
    if k > 0 {
      FirstKeyedInMap(m, sh.kind.members, t);
      OwnMemberLoops(m, FirstKeyed(m, sh.kind.members, t).value, t, k - 1);
    }
  }

  lemma {:induction false} MembersNeedEach(m: ShapeMap, c: Codec, members: seq<Member>, names: map<string, Found>, t: string,
                                           depth: nat)
    requires Closed(m) && InMap(m, Structure(members, [])) && FirstKeyed(m, members, t).Some? && t in names
    requires InMap(m, FirstKeyed(m, members, t).value.kind) && Parse(m, c, FirstKeyed(m, members, t).value, names[t], depth).Err?
    ensures ParseMembers(m, c, members, names, depth).Err?
    decreases |members|
  {
    var n := |members| - 1;
    FirstKeyedSnoc(m, members[..n], members[n], t);
    assert members == members[..n] + [members[n]];
    hide FirstKeyed, Parse;
    if FirstKeyed(m, members[..n], t).Some? {
      MembersNeedEach(m, c, members[..n], names, t, depth);
    }
  }

  lemma RepeatedList(m: ShapeMap, c: Codec, sh: Shape, ds: seq<Dom>, t: string, depth: nat)
    requires Closed(m) && InMap(m, sh.kind) && sh.kind.Structure? && |ds| >= 2 && AllTagged(ds, t)
    requires FirstKeyed(m, sh.kind.members, t).Some? && FirstKeyed(m, sh.kind.members, t).value.kind == sh.kind
    ensures Parse(m, c, sh, Many(ds), depth) == Err(RecursionError)
    ensures Parse(m, c, FirstKeyed(m, sh.kind.members, t).value, Many(ds), depth) == Err(RecursionError)
  {
    OwnMemberLoops(m, sh, t, depth + 1);
    hide Parse, FirstKeyed;
    var next := FirstKeyed(m, sh.kind.members, t).value;
    OwnMemberLoops(m, sh, t, depth);
    RepeatedElementsLoop(m, c, sh, ds, t, depth);
    RepeatedElementsLoop(m, c, next, ds, t, depth);
  }

  /** A repeated element of a recursive structure cannot be parsed, whatever it holds and whatever stands beside it. */
  lemma RepeatedRecursiveElement(m: ShapeMap, c: Codec, sh: Shape, parent: Dom, t: string, depth: nat)
    requires Closed(m) && InMap(m, sh.kind) && sh.kind.Structure?
    requires FirstKeyed(m, sh.kind.members, t).Some? && FirstKeyed(m, sh.kind.members, t).value.kind == sh.kind
    requires |WithTag(parent.children, t)| >= 2
    ensures Parse(m, c, sh, Many(WithTag(parent.children, t)), depth) == Err(RecursionError)
    ensures Parse(m, c, sh, One(parent), depth).Err?
    ensures parent.children == WithTag(parent.children, t) ==> Parse(m, c, sh, One(parent), depth) == Err(RecursionError)
  {
    hide FirstKeyed, BuildNames, ParseMembers, WithTag, ParseScalar, ParseItems, ParseEntries;
    var ds := WithTag(parent.children, t);
    RepeatedList(m, c, sh, ds, t, depth);
    if depth > 0 {
      RepeatedList(m, c, sh, ds, t, depth - 1);
      BuildNamesGathers(parent.children, t);
      MembersNeedEach(m, c, sh.kind.members, BuildNames(parent.children), t, depth - 1);
      MembersFail(m, c, sh.kind.members, ds, t, depth - 1);
    }
  }

  // ----- The calls of the parser

  /** A call of the parser: a shape, and the elements it is to be found in. */
  datatype Place = Place(sh: Shape, node: Found)

  /** The calls that parsing one place takes, if nothing is wrong. */
  ghost predicate Calls(m: ShapeMap, p: Place, q: Place)
    requires Closed(m) && InMap(m, p.sh.kind)
  {
    match p.sh.kind
    case Structure(members, _) => exists i :: 0 <= i < |members| && CallsMember(m, p.node, members[i], q)
    case List(member) =>
      q.sh == Resolve(m, member) && q.node.One? && q.node.node in Elements(p.node, Flag(p.sh.traits.flattened))
    case Map(key, value) =>
      q.node.One? && exists x :: x in Elements(p.node, Flag(p.sh.traits.flattened)) && q.node.node in x.children
                                 && q.sh == PartOf(Resolve(m, key), Resolve(m, value), q.node.node)
                                 && (TagsKey(Resolve(m, key), q.node.node) || TagsValue(Resolve(m, value), q.node.node))
    case Scalar(_) => false
  }

  predicate CallsMember(m: ShapeMap, node: Found, member: Member, q: Place)
    requires Closed(m) && member.ref.shape in m
  {
    var sh := Resolve(m, member.ref);
    var t := MemberKeyName(m, sh, member.name);
    sh.traits.location.None? && t in BuildNames(Iterate(node)) && q == Place(sh, BuildNames(Iterate(node))[t])
  }

  predicate TagsKey(key: Shape, d: Dom) {
    d.tag == NonEmptyOr(key.traits.name, "key")
  }

  predicate TagsValue(value: Shape, d: Dom) {
    d.tag == NonEmptyOr(value.traits.name, "value")
  }

  /** What an element of an entry is parsed as. */
  function PartOf(key: Shape, value: Shape, d: Dom): Shape {
    if TagsKey(key, d) then key else value
  }

  /** One call after the other. */
  ghost predicate Trail(m: ShapeMap, path: seq<Place>)
    requires Closed(m)
  {
    && path != [] && (forall i :: 0 <= i < |path| ==> InMap(m, path[i].sh.kind))
    && forall i, j :: 0 <= i && j == i + 1 < |path| ==> Calls(m, path[i], path[j])
  }

  ghost predicate Leads(m: ShapeMap, p: Place, q: Place)
    requires Closed(m)
  {
    exists path :: Trail(m, path) && path[0] == p && path[|path| - 1] == q
  }

  /** The calls stay with the same elements and come back to the same shape. */
  ghost predicate Circles(m: ShapeMap, q: Place)
    requires Closed(m)
  {
    exists path :: Trail(m, path) && |path| > 1 && path[0] == q == path[|path| - 1] && Staying(path)
  }

  ghost predicate Staying(path: seq<Place>) {
    forall i, j :: 0 <= i < |path| && 0 <= j < |path| ==> path[i].node == path[j].node
  }

  /** No place that the parser comes to circles. */
  ghost predicate Clear(m: ShapeMap, p: Place)
    requires Closed(m)
  {
    forall q :: Leads(m, p, q) ==> !Circles(m, q)
  }

  lemma TrailRest(m: ShapeMap, path: seq<Place>)
    requires Closed(m) && Trail(m, path) && |path| > 1
    ensures Trail(m, path[1..]) && InMap(m, path[0].sh.kind) && Calls(m, path[0], path[1])
    ensures path[1..][|path[1..]| - 1] == path[|path| - 1]
  {
    hide Calls, InMap;
    forall i, j | 0 <= i && j == i + 1 < |path[1..]|
      ensures Calls(m, path[1..][i], path[1..][j])
    {
      assert Calls(m, path[i + 1], path[j + 1]);
    }
  }

  lemma TrailThen(m: ShapeMap, path: seq<Place>, more: seq<Place>)
    requires Closed(m) && Trail(m, path) && Trail(m, more) && path[|path| - 1] == more[0]
    ensures
      var all := path + more[1..];
      Trail(m, all) && all[0] == path[0] && all[|all| - 1] == more[|more| - 1]
  {
    hide Calls, InMap;
    var all := path + more[1..];
    forall i, j | 0 <= i && j == i + 1 < |all|
      ensures Calls(m, all[i], all[j])
    {
      if j < |path| { assert Calls(m, path[i], path[j]); }
      else { assert Calls(m, more[i - |path| + 1], more[j - |path| + 1]); }
    }
  }

  lemma OneCall(m: ShapeMap, p: Place, q: Place)
    requires Closed(m) && InMap(m, p.sh.kind) && InMap(m, q.sh.kind) && Calls(m, p, q)
    ensures Trail(m, [p]) && Trail(m, [p, q])
  {
    hide Calls, InMap;
  }

  lemma ClearCall(m: ShapeMap, p: Place, q: Place)
    requires Closed(m) && InMap(m, p.sh.kind) && InMap(m, q.sh.kind) && Calls(m, p, q) && Clear(m, p)
    ensures Clear(m, q) && !Circles(m, p)
  {
    hide Calls, InMap, Circles;
    OneCall(m, p, q);
    assert Leads(m, p, p) by { assert [p][0] == p; }
    forall r | Leads(m, q, r)
      ensures !Circles(m, r)
    {
      var path :| Trail(m, path) && path[0] == q && path[|path| - 1] == r;
      TrailThen(m, [p, q], path);
      assert Leads(m, p, r);
    }
  }

  // ----- A parse needs all its calls

  lemma {:induction false} NeedsMembers(m: ShapeMap, c: Codec, members: seq<Member>, names: map<string, Found>, i: nat, depth: nat)
    requires Closed(m) && InMap(m, Structure(members, [])) && i < |members|
    requires ParseMembers(m, c, members, names, depth).Ok?
    ensures
      var sh := Resolve(m, members[i].ref);
      InMap(m, sh.kind) &&
      (sh.traits.location.None? && MemberKeyName(m, sh, members[i].name) in names ==>
        Parse(m, c, sh, names[MemberKeyName(m, sh, members[i].name)], depth).Ok?)
    decreases |members|
  {
    hide Parse;
    if i < |members| - 1 {
      NeedsMembers(m, c, members[..|members| - 1], names, i, depth);
    }
  }

  lemma {:induction false} NeedsItems(m: ShapeMap, c: Codec, member: Shape, items: seq<Dom>, d: Dom, depth: nat)
    requires Closed(m) && InMap(m, member.kind) && d in items && ParseItems(m, c, member, items, depth).Ok?
    ensures Parse(m, c, member, One(d), depth).Ok?
    decreases |items|
  {
    hide Parse;
    if d != items[0] { NeedsItems(m, c, member, items[1..], d, depth); }
  }

  lemma {:induction false} NeedsPairs(m: ShapeMap, c: Codec, key: Shape, value: Shape, nodes: seq<Dom>, pair: Pair, d: Dom, depth: nat)
    requires Closed(m) && InMap(m, key.kind) && InMap(m, value.kind) && d in nodes
    requires ParsePairs(m, c, key, value, nodes, pair, depth).Ok?
    ensures Parse(m, c, PartOf(key, value, d), One(d), depth).Ok?
    decreases |nodes|
  {
    hide Parse;
    if d != nodes[0] {
      if TagsKey(key, nodes[0]) {
        NeedsPairs(m, c, key, value, nodes[1..], pair.(key := Some(Parse(m, c, key, One(nodes[0]), depth).value)), d, depth);
      } else {
        NeedsPairs(m, c, key, value, nodes[1..], pair.(value := Some(Parse(m, c, value, One(nodes[0]), depth).value)), d, depth);
      }
    }
  }

  lemma {:induction false} NeedsEntries(m: ShapeMap, c: Codec, key: Shape, value: Shape, nodes: seq<Dom>, pair: Pair,
                                        parsed: map<Py, Py>, x: Dom, d: Dom, depth: nat)
    requires Closed(m) && InMap(m, key.kind) && InMap(m, value.kind) && x in nodes && d in x.children
    requires ParseEntries(m, c, key, value, nodes, pair, parsed, depth).Ok?
    ensures Parse(m, c, PartOf(key, value, d), One(d), depth).Ok?
    decreases |nodes|
  {
    hide Parse, ParsePairs;
    var p := ParsePairs(m, c, key, value, nodes[0].children, pair, depth);
    if x == nodes[0] {
      NeedsPairs(m, c, key, value, nodes[0].children, pair, d, depth);
    } else {
      NeedsEntries(m, c, key, value, nodes[1..], p.value, parsed[p.value.key.value := p.value.value.value], x, d, depth);
    }
  }

  lemma CallsInMap(m: ShapeMap, p: Place, q: Place)
    requires Closed(m) && InMap(m, p.sh.kind) && Calls(m, p, q)
    ensures InMap(m, q.sh.kind)
  {
  }

  lemma NeedsCall(m: ShapeMap, c: Codec, p: Place, q: Place, depth: nat)
    requires Closed(m) && InMap(m, p.sh.kind) && InMap(m, q.sh.kind) && Calls(m, p, q) && Parse(m, c, p.sh, p.node, depth).Ok?
    ensures depth > 0 && Parse(m, c, q.sh, q.node, depth - 1).Ok?
  {
    hide ParseMembers, ParseItems, ParseEntries, BuildNames, Elements;
    match p.sh.kind
    case Structure(members, _) =>
      var i :| 0 <= i < |members| && CallsMember(m, p.node, members[i], q);
      NeedsMembers(m, c, members, BuildNames(Iterate(p.node)), i, depth - 1);
    case List(member) =>
      NeedsItems(m, c, Resolve(m, member), Elements(p.node, Flag(p.sh.traits.flattened)), q.node.node, depth - 1);
    case Map(key, value) =>
      var nodes := Elements(p.node, Flag(p.sh.traits.flattened));
      var x :| x in nodes && q.node.node in x.children;
      NeedsEntries(m, c, Resolve(m, key), Resolve(m, value), nodes, Pair(None, None), map[], x, q.node.node, depth - 1);
  }

  /** No trail of calls is longer than the recursion limit, if the parse succeeds. */
  lemma {:induction false} TrailFits(m: ShapeMap, c: Codec, path: seq<Place>, depth: nat)
    requires Closed(m) && Trail(m, path) && Parse(m, c, path[0].sh, path[0].node, depth).Ok?
    ensures |path| <= depth
    decreases |path|
  {
    hide Calls;
    if |path| > 1 {
      TrailRest(m, path);
      hide Parse, InMap;
      NeedsCall(m, c, path[0], path[1], depth);
      TrailFits(m, c, path[1..], depth - 1);
    }
  }

  /** A circle can be gone round any number of times. */
  lemma {:induction false} RoundAndRound(m: ShapeMap, path: seq<Place>, length: nat) returns (all: seq<Place>)
    requires Closed(m) && Trail(m, path) && |path| > 1 && path[0] == path[|path| - 1]
    ensures Trail(m, all) && all[0] == path[0] && all[|all| - 1] == path[0] && |all| > length
    decreases length
  {
    hide Trail, Calls;
    if length == 0 {
      all := path;
    } else {
      var some := RoundAndRound(m, path, length - 1);
      TrailThen(m, some, path);
      all := some + path[1..];
    }
  }

  /** A place that circles, wherever the parser comes to it, makes the whole parse fail at every recursion limit. */
  lemma CircleNeverParses(m: ShapeMap, c: Codec, p: Place, depth: nat)
    requires Closed(m) && InMap(m, p.sh.kind) && !Clear(m, p)
    ensures Parse(m, c, p.sh, p.node, depth).Err?
  {
    hide Calls, Staying, Parse, InMap;
    var q :| Leads(m, p, q) && Circles(m, q);
    var way :| Trail(m, way) && way[0] == p && way[|way| - 1] == q;
    var circle :| Trail(m, circle) && |circle| > 1 && circle[0] == q == circle[|circle| - 1] && Staying(circle);
    var rounds := RoundAndRound(m, circle, depth);
    TrailThen(m, way, rounds);
    if Parse(m, c, p.sh, p.node, depth).Ok? {
      TrailFits(m, c, way + rounds[1..], depth);
    }
  }

  // ----- Calls go down the document

  function Tall(d: Dom): nat
    decreases d, 0
  {
    1 + TallOf(d.children)
  }

  function TallOf(ds: seq<Dom>): nat
    decreases ds, 1
  {
    if ds == [] then 0 else Max(Tall(ds[0]), TallOf(ds[1..]))
  }

  lemma {:induction false} TallIn(ds: seq<Dom>, d: Dom)
    requires d in ds
    ensures Tall(d) <= TallOf(ds)
    decreases |ds|
  {
    if d != ds[0] { TallIn(ds[1..], d); }
  }

  lemma {:induction false} TallPart(part: seq<Dom>, ds: seq<Dom>)
    requires forall d :: d in part ==> d in ds
    ensures TallOf(part) <= TallOf(ds)
    decreases |part|
  {
    if part != [] {
      assert part[0] in part;
      TallIn(ds, part[0]);
      TallPart(part[1..], ds);
    }
  }

  /** Several elements have one tag. */
  ghost predicate Uniform(node: Found) {
    node.Many? ==> |node.nodes| >= 2 && exists t :: AllTagged(node.nodes, t)
  }

  /** Twice the height, and one more for several elements, which can be handed on one by one. */
  function Weight(node: Found): nat {
    match node
    case One(d) => 2 * Tall(d)
    case Many(ds) => 2 * TallOf(ds) + 1
  }

  lemma GatheredBelow(ds: seq<Dom>, t: string)
    requires WithTag(ds, t) != []
    ensures Uniform(Gather(WithTag(ds, t))) && Weight(Gather(WithTag(ds, t))) <= 2 * TallOf(ds) + 1
  {
    var part := WithTag(ds, t);
    assert AllTagged(part, t);
    TallPart(part, ds);
    assert part[0] in part;
    TallIn(part, part[0]);
    hide WithTag, Tall, TallOf;
  }

  lemma GatheredAgain(ds: seq<Dom>, t: string, u: string)
    requires |ds| >= 2 && AllTagged(ds, t) && WithTag(ds, u) != []
    ensures Gather(WithTag(ds, u)) == Many(ds)
  {
    WithTagUniform(ds, t, u);
  }

  lemma MemberGoesDown(m: ShapeMap, node: Found, member: Member, q: Place)
    requires Closed(m) && member.ref.shape in m && CallsMember(m, node, member, q) && Uniform(node)
    ensures Uniform(q.node) && (q.node == node || Weight(q.node) < Weight(node))
  {
    var t := MemberKeyName(m, Resolve(m, member.ref), member.name);
    hide BuildNames, WithTag, Uniform, Gather, Weight;
    BuildNamesGathers(Iterate(node), t);
    GatheredBelow(Iterate(node), t);
    match node
    case One(d) => WeightOfChildren(d);
    case Many(ds) =>
      var u := TagOf(ds);
      GatheredAgain(ds, u, t);
  }

  lemma TagOf(ds: seq<Dom>) returns (t: string)
    requires Uniform(Many(ds))
    ensures |ds| >= 2 && AllTagged(ds, t)
  {
    t :| AllTagged(ds, t);
  }

  lemma WeightOfChildren(d: Dom)
    ensures Weight(One(d)) == 2 * TallOf(d.children) + 2
  {
  }

  lemma ElementWeight(node: Found, flattened: bool, e: Dom)
    requires e in Elements(node, flattened)
    ensures Uniform(One(e)) && (One(e) == node || Weight(One(e)) < Weight(node))
    ensures forall d :: d in e.children ==> Weight(One(d)) < Weight(node)
  {
    TallIn(Elements(node, flattened), e);
    forall d | d in e.children ensures Tall(d) < Tall(e) { TallIn(e.children, d); }
    match node
    case One(x) => if e != x { TallIn(x.children, e); }
    case Many(_) =>
  }

  /** A call stays with the elements it was given, or goes on with less. */
  lemma CallGoesDown(m: ShapeMap, p: Place, q: Place)
    requires Closed(m) && InMap(m, p.sh.kind) && Calls(m, p, q) && Uniform(p.node)
    ensures Uniform(q.node) && (q.node == p.node || Weight(q.node) < Weight(p.node))
  {
    hide Uniform, Weight, Elements, CallsMember;
    match p.sh.kind
    case Structure(members, _) =>
      var i :| 0 <= i < |members| && CallsMember(m, p.node, members[i], q);
      MemberGoesDown(m, p.node, members[i], q);
    case List(_) => ElementWeight(p.node, Flag(p.sh.traits.flattened), q.node.node);
    case Map(_, _) =>
      var x :| x in Elements(p.node, Flag(p.sh.traits.flattened)) && q.node.node in x.children;
      ElementWeight(p.node, Flag(p.sh.traits.flattened), x);
      UniformOne(q.node.node);
  }

  lemma UniformOne(d: Dom)
    ensures Uniform(One(d))
  {
  }

  // ----- No error of the parts, none of the whole

  predicate Fits<T>(r: Result<T, ParseError>) {
    r != Err(RecursionError)
  }

  lemma {:induction false} MembersFit(m: ShapeMap, c: Codec, members: seq<Member>, names: map<string, Found>, depth: nat)
    requires Closed(m) && InMap(m, Structure(members, []))
    requires forall i :: 0 <= i < |members| ==>
      var sh := Resolve(m, members[i].ref);
      InMap(m, sh.kind) &&
      (sh.traits.location.None? && MemberKeyName(m, sh, members[i].name) in names ==>
        Fits(Parse(m, c, sh, names[MemberKeyName(m, sh, members[i].name)], depth)))
    ensures Fits(ParseMembers(m, c, members, names, depth))
    decreases |members|
  {
    if members != [] {
      MembersFit(m, c, members[..|members| - 1], names, depth);
      hide Parse;
    }
  }

  lemma {:induction false} ItemsFit(m: ShapeMap, c: Codec, member: Shape, items: seq<Dom>, depth: nat)
    requires Closed(m) && InMap(m, member.kind) && forall d :: d in items ==> Fits(Parse(m, c, member, One(d), depth))
    ensures Fits(ParseItems(m, c, member, items, depth))
    decreases |items|
  {
    if items != [] {
      assert items[0] in items;
      ItemsFit(m, c, member, items[1..], depth);
      hide Parse;
    }
  }

  lemma {:induction false} PairsFit(m: ShapeMap, c: Codec, key: Shape, value: Shape, nodes: seq<Dom>, pair: Pair, depth: nat)
    requires Closed(m) && InMap(m, key.kind) && InMap(m, value.kind)
    requires forall d :: d in nodes && (TagsKey(key, d) || TagsValue(value, d)) ==> Fits(Parse(m, c, PartOf(key, value, d), One(d), depth))
    ensures Fits(ParsePairs(m, c, key, value, nodes, pair, depth))
    decreases |nodes|
  {
    if nodes != [] {
      assert nodes[0] in nodes;
      var r := Parse(m, c, PartOf(key, value, nodes[0]), One(nodes[0]), depth);
      hide Parse;
      if r.Ok? {
        PairsFit(m, c, key, value, nodes[1..], pair.(key := Some(r.value)), depth);
        PairsFit(m, c, key, value, nodes[1..], pair.(value := Some(r.value)), depth);
      }
    }
  }

  lemma {:induction false} EntriesFit(m: ShapeMap, c: Codec, key: Shape, value: Shape, nodes: seq<Dom>, pair: Pair,
                                      parsed: map<Py, Py>, depth: nat)
    requires Closed(m) && InMap(m, key.kind) && InMap(m, value.kind)
    requires forall x, d :: x in nodes && d in x.children && (TagsKey(key, d) || TagsValue(value, d)) ==>
      Fits(Parse(m, c, PartOf(key, value, d), One(d), depth))
    ensures Fits(ParseEntries(m, c, key, value, nodes, pair, parsed, depth))
    decreases |nodes|
  {
    if nodes != [] {
      assert nodes[0] in nodes;
      PairsFit(m, c, key, value, nodes[0].children, pair, depth);
      var p := ParsePairs(m, c, key, value, nodes[0].children, pair, depth);
      hide Parse, ParsePairs;
      if p.Ok? && p.value.key.Some? && p.value.value.Some? && Hashable(p.value.key.value) {
        EntriesFit(m, c, key, value, nodes[1..], p.value, parsed[p.value.key.value := p.value.value.value], depth);
      }
    }
  }

  /** What every call of the place comes to, the place comes to. */
  lemma CallsFit(m: ShapeMap, c: Codec, p: Place, depth: nat)
    requires Closed(m) && InMap(m, p.sh.kind) && depth > 0
    requires forall q :: Calls(m, p, q) ==> InMap(m, q.sh.kind) && Fits(Parse(m, c, q.sh, q.node, depth - 1))
    ensures Fits(Parse(m, c, p.sh, p.node, depth))
  {
    hide ParseMembers, ParseItems, ParseEntries, ParseScalar, BuildNames, Elements, MemberKeyName;
    match p.sh.kind
    case Structure(members, _) => MemberCallsFit(m, c, p, depth);
    case List(member) =>
      var items := Elements(p.node, Flag(p.sh.traits.flattened));
      forall d | d in items
        ensures Fits(Parse(m, c, Resolve(m, member), One(d), depth - 1))
      {
        assert Calls(m, p, Place(Resolve(m, member), One(d)));
      }
      ItemsFit(m, c, Resolve(m, member), items, depth - 1);
    case Map(_, _) => EntryCallsFit(m, c, p, depth);
    case Scalar(t) => ScalarFits(c, t, p.node);
  }

  lemma ScalarFits(c: Codec, t: ScalarType, node: Found)
    ensures Fits(ParseScalar(c, t, node))
  {
  }

  lemma MemberCallsFit(m: ShapeMap, c: Codec, p: Place, depth: nat)
    requires Closed(m) && InMap(m, p.sh.kind) && depth > 0 && p.sh.kind.Structure?
    requires forall q :: Calls(m, p, q) ==> InMap(m, q.sh.kind) && Fits(Parse(m, c, q.sh, q.node, depth - 1))
    ensures Fits(ParseMembers(m, c, p.sh.kind.members, BuildNames(Iterate(p.node)), depth - 1))
  {
    hide ParseMembers, BuildNames, MemberKeyName, Parse;
    var members, names := p.sh.kind.members, BuildNames(Iterate(p.node));
    forall i | 0 <= i < |members|
      ensures
        var sh := Resolve(m, members[i].ref);
        InMap(m, sh.kind) &&
        (sh.traits.location.None? && MemberKeyName(m, sh, members[i].name) in names ==>
          Fits(Parse(m, c, sh, names[MemberKeyName(m, sh, members[i].name)], depth - 1)))
    {
      var sh := Resolve(m, members[i].ref);
      var t := MemberKeyName(m, sh, members[i].name);
      if sh.traits.location.None? && t in names {
        assert CallsMember(m, p.node, members[i], Place(sh, names[t]));
        assert Calls(m, p, Place(sh, names[t]));
      }
    }
    MembersFit(m, c, members, names, depth - 1);
  }

  lemma EntryCallsFit(m: ShapeMap, c: Codec, p: Place, depth: nat)
    requires Closed(m) && InMap(m, p.sh.kind) && depth > 0 && p.sh.kind.Map?
    requires forall q :: Calls(m, p, q) ==> InMap(m, q.sh.kind) && Fits(Parse(m, c, q.sh, q.node, depth - 1))
    ensures
      var key, value := Resolve(m, p.sh.kind.key), Resolve(m, p.sh.kind.value);
      Fits(ParseEntries(m, c, key, value, Elements(p.node, Flag(p.sh.traits.flattened)), Pair(None, None), map[], depth - 1))
  {
    hide ParseEntries, Elements, Parse, TagsKey, TagsValue;
    var key, value := Resolve(m, p.sh.kind.key), Resolve(m, p.sh.kind.value);
    var nodes := Elements(p.node, Flag(p.sh.traits.flattened));
    forall x, d | x in nodes && d in x.children && (TagsKey(key, d) || TagsValue(value, d))
      ensures Fits(Parse(m, c, PartOf(key, value, d), One(d), depth - 1))
    {
      assert Calls(m, p, Place(PartOf(key, value, d), One(d)));
    }
    EntriesFit(m, c, key, value, nodes, Pair(None, None), map[], depth - 1);
  }

  // ----- Where nothing circles

  /** The shapes as they are referred to, and the one it starts with. */
  ghost function ShapesOf(m: ShapeMap, start: Shape): set<Shape> {
    {start} + set n, ref | n in m && ref in Refs(m[n].kind) && ref.shape in m :: Resolve(m, ref)
  }

  /** The shape's kind is one of the map's. */
  ghost predicate Known(m: ShapeMap, sh: Shape) {
    exists n :: n in m && m[n].kind == sh.kind
  }

  lemma CallIsKnown(m: ShapeMap, start: Shape, p: Place, q: Place)
    requires Closed(m) && InMap(m, p.sh.kind) && Known(m, p.sh) && Calls(m, p, q)
    ensures Known(m, q.sh) && q.sh in ShapesOf(m, start)
  {
    var n :| n in m && m[n].kind == p.sh.kind;
    var ref := CallRef(m, p, q);
    assert m[ref.shape].kind == q.sh.kind;
    hide Calls;
  }

  lemma CallRef(m: ShapeMap, p: Place, q: Place) returns (ref: Ref)
    requires Closed(m) && InMap(m, p.sh.kind) && Calls(m, p, q)
    ensures ref in Refs(p.sh.kind) && ref.shape in m && q.sh == Resolve(m, ref)
  {
    hide BuildNames, Elements, MemberKeyName;
    match p.sh.kind
    case Structure(members, _) =>
      var i :| 0 <= i < |members| && CallsMember(m, p.node, members[i], q);
      ref := members[i].ref;
      assert Refs(p.sh.kind)[i] == ref;
    case List(member) =>
      ref := member;
      assert Refs(p.sh.kind)[0] == ref;
    case Map(key, value) =>
      ref := if q.sh == Resolve(m, key) then key else value;
      assert Refs(p.sh.kind)[0] == key && Refs(p.sh.kind)[1] == value;
  }

  /** A level for every shape, for every step down the document. */
  function Levels(shapes: nat, weight: nat): nat {
    if weight == 0 then 0 else shapes + 1 + Levels(shapes, weight - 1)
  }

  lemma {:induction false} LevelsMore(shapes: nat, less: nat, more: nat)
    requires less < more
    ensures Levels(shapes, less) + shapes + 1 <= Levels(shapes, more)
    decreases more
  {
    if less < more - 1 { LevelsMore(shapes, less, more - 1); }
  }

  /** The shapes met so far with the same elements lead here. */
  ghost predicate Met(m: ShapeMap, seen: set<Shape>, p: Place)
    requires Closed(m)
  {
    forall sh :: sh in seen ==> exists path :: Trail(m, path) && |path| > 1 && path[0] == Place(sh, p.node) && path[|path| - 1] == p && Staying(path)
  }

  lemma MetIsCircle(m: ShapeMap, seen: set<Shape>, p: Place)
    requires Closed(m) && Met(m, seen, p) && !Circles(m, p)
    ensures p.sh !in seen
  {
    hide Trail, Staying;
    assert p == Place(p.sh, p.node);
  }

  lemma MetOn(m: ShapeMap, seen: set<Shape>, p: Place, q: Place)
    requires Closed(m) && Met(m, seen, p) && InMap(m, p.sh.kind) && InMap(m, q.sh.kind) && Calls(m, p, q) && q.node == p.node
    ensures Met(m, seen + {p.sh}, q)
  {
    hide Calls, InMap;
    OneCall(m, p, q);
    forall sh | sh in seen + {p.sh}
      ensures exists path :: Trail(m, path) && |path| > 1 && path[0] == Place(sh, q.node) && path[|path| - 1] == q && Staying(path)
    {
      if sh == p.sh {
        assert [p, q][0] == Place(sh, q.node) && Staying([p, q]) && [p, q][1] == q;
      } else {
        var path :| Trail(m, path) && |path| > 1 && path[0] == Place(sh, p.node) && path[|path| - 1] == p && Staying(path);
        TrailThen(m, path, [p, q]);
        assert Staying(path + [p, q][1..]);
      }
    }
  }

  lemma Fewer(all: set<Shape>, seen: set<Shape>, sh: Shape)
    requires sh in all && sh !in seen
    ensures |all - (seen + {sh})| < |all - seen|
  {
    assert all - (seen + {sh}) == (all - seen) - {sh};
  }

  lemma {:induction false} ClearEnds(m: ShapeMap, c: Codec, start: Shape, p: Place, seen: set<Shape>, depth: nat)
    requires Closed(m) && InMap(m, p.sh.kind) && Known(m, p.sh) && p.sh in ShapesOf(m, start) && Uniform(p.node)
    requires Clear(m, p) && Met(m, seen, p)
    requires depth > |ShapesOf(m, start) - seen| + Levels(|ShapesOf(m, start)|, Weight(p.node))
    ensures Fits(Parse(m, c, p.sh, p.node, depth))
    decreases depth
  {
    hide *;
    var all := ShapesOf(m, start);
    forall q | Calls(m, p, q)
      ensures InMap(m, q.sh.kind) && Fits(Parse(m, c, q.sh, q.node, depth - 1))
    {
      CallsInMap(m, p, q);
      CallGoesDown(m, p, q);
      CallIsKnown(m, start, p, q);
      ClearCall(m, p, q);
      if q.node == p.node {
        MetIsCircle(m, seen, p);
        MetOn(m, seen, p, q);
        Fewer(all, seen, p.sh);
        ClearEnds(m, c, start, q, seen + {p.sh}, depth - 1);
      } else {
        LevelsMore(|all|, Weight(q.node), Weight(p.node));
        NothingMet(m, q);
        assert all - {} == all;
        ClearEnds(m, c, start, q, {}, depth - 1);
      }
    }
    CallsFit(m, c, p, depth);
  }

  lemma NothingMet(m: ShapeMap, p: Place)
    requires Closed(m)
    ensures Met(m, {}, p)
  {
  }

  /** Where no place circles that the parser comes to, parsing stays within a recursion depth that the height of the
      document and the number of shapes give. */
  lemma ParsingEnds(m: ShapeMap, c: Codec, n: string, traits: Traits, d: Dom, depth: nat)
    requires Closed(m) && n in m && Clear(m, Place(Shape(m[n].kind, traits), One(d)))
    requires
      var shapes := |ShapesOf(m, Shape(m[n].kind, traits))|;
      depth > shapes + Levels(shapes, 2 * Tall(d))
    ensures InMap(m, m[n].kind) && Fits(Parse(m, c, Shape(m[n].kind, traits), One(d), depth))
  {
    var p := Place(Shape(m[n].kind, traits), One(d));
    assert Known(m, p.sh);
    hide Clear, Parse, Levels, Tall;
    NothingMet(m, p);
    UniformOne(d);
    assert ShapesOf(m, p.sh) - {} == ShapesOf(m, p.sh);
    ClearEnds(m, c, p.sh, p, {}, depth);
  }

  /** Nothing but the recursion is wrong with the document. */
  ghost predicate OnlyDeep(m: ShapeMap, c: Codec, p: Place)
    requires Closed(m) && InMap(m, p.sh.kind)
  {
    forall depth: nat :: Fits(Parse(m, c, p.sh, p.node, depth)) ==> Parse(m, c, p.sh, p.node, depth).Ok?
  }

  /** A document with no other fault is parsed within some recursion limit exactly when no place circles that the parser
      comes to. */
  lemma ParsesIffClear(m: ShapeMap, c: Codec, n: string, traits: Traits, d: Dom)
    requires Closed(m) && n in m && InMap(m, m[n].kind) && OnlyDeep(m, c, Place(Shape(m[n].kind, traits), One(d)))
    ensures (exists depth: nat :: Parse(m, c, Shape(m[n].kind, traits), One(d), depth).Ok?) <==>
            Clear(m, Place(Shape(m[n].kind, traits), One(d)))
  {
    var p := Place(Shape(m[n].kind, traits), One(d));
    hide Clear, Parse, Levels, Tall, ShapesOf;
    if Clear(m, p) {
      var shapes := |ShapesOf(m, p.sh)|;
      var depth := shapes + Levels(shapes, 2 * Tall(d)) + 1;
      ParsingEnds(m, c, n, traits, d, depth);
      assert Parse(m, c, p.sh, p.node, depth).Ok?;
    } else {
      forall depth: nat
        ensures Parse(m, c, p.sh, p.node, depth).Err?
      {
        CircleNeverParses(m, c, p, depth);
      }
    }
  }

  // ----- Which places circle

  predicate KeyedMember(m: ShapeMap, members: seq<Member>, t: string, sh: Shape)
    requires Closed(m) && InMap(m, Structure(members, []))
  {
    exists i :: 0 <= i < |members| && Keyed(m, members[i], t) && sh == Resolve(m, members[i].ref)
  }

  /** Calls stay with their elements in two ways only: a single element of a flattened list, and several elements of a
      structure that has members which look for their tag. */
  lemma StaysIff(m: ShapeMap, p: Place, q: Place)
    requires Closed(m) && InMap(m, p.sh.kind) && Uniform(p.node) && q.node == p.node
    ensures Calls(m, p, q) <==>
            if p.node.One? then FlatList(p.sh) && q.sh == Resolve(m, p.sh.kind.member)
            else p.sh.kind.Structure? && KeyedMember(m, p.sh.kind.members, p.node.nodes[0].tag, q.sh)
  {
    match p.node
    case One(d) => StaysWithOne(m, p, q, d);
    case Many(ds) =>
      hide BuildNames, MemberKeyName;
      var t := TagOf(ds);
      OneTag(ds, t);
      assert ds[0].tag == t;
      if p.sh.kind.Structure? {
        forall i | 0 <= i < |p.sh.kind.members|
          ensures CallsMember(m, p.node, p.sh.kind.members[i], q) <==>
                  Keyed(m, p.sh.kind.members[i], t) && q.sh == Resolve(m, p.sh.kind.members[i].ref)
        {
        }
      }
  }

  lemma StaysWithOne(m: ShapeMap, p: Place, q: Place, d: Dom)
    requires Closed(m) && InMap(m, p.sh.kind) && p.node == One(d) && q.node == p.node
    ensures Calls(m, p, q) <==> FlatList(p.sh) && q.sh == Resolve(m, p.sh.kind.member)
  {
    hide BuildNames, MemberKeyName, TagsKey, TagsValue, PartOf;
    if Calls(m, p, q) {
      match p.sh.kind
      case Structure(members, _) =>
        var i :| 0 <= i < |members| && CallsMember(m, p.node, members[i], q);
        var t := MemberKeyName(m, Resolve(m, members[i].ref), members[i].name);
        BuildNamesGathers(d.children, t);
        GatheredBelow(d.children, t);
        WeightOfChildren(d);
      case List(_) =>
        if !FlatList(p.sh) { TallIn(d.children, d); }
      case Map(_, _) =>
        var x :| x in Elements(p.node, Flag(p.sh.traits.flattened)) && d in x.children;
        ElementWeight(p.node, Flag(p.sh.traits.flattened), x);
    }
  }

  /** Several elements of one tag, handed to a structure whose member under that tag is of the structure's own kind,
      wherever in the document the parser comes to them. */
  lemma RepeatedAnywhere(m: ShapeMap, c: Codec, p: Place, q: Place, member: Member, depth: nat)
    requires Closed(m) && InMap(m, p.sh.kind) && Leads(m, p, q) && InMap(m, q.sh.kind)
    requires q.node.Many? && Uniform(q.node) && q.sh.kind.Structure? && member in q.sh.kind.members && member.ref.shape in m
    requires Keyed(m, member, q.node.nodes[0].tag) && Resolve(m, member.ref).kind == q.sh.kind
    ensures Parse(m, c, p.sh, p.node, depth).Err?
  {
    var r := Place(Resolve(m, member.ref), q.node);
    var i :| 0 <= i < |q.sh.kind.members| && q.sh.kind.members[i] == member;
    StaysIff(m, q, r);
    StaysIff(m, r, r);
    hide Calls, Parse, Uniform, Keyed;
    OneCall(m, q, r);
    OneCall(m, r, r);
    assert Circles(m, r) by { assert [r, r][0] == r == [r, r][1] && Staying([r, r]); }
    var way :| Trail(m, way) && way[0] == p && way[|way| - 1] == q;
    TrailThen(m, way, [q, r]);
    assert Leads(m, p, r);
    CircleNeverParses(m, c, p, depth);
  }
}
