/** _PrefixTrie of botocore/hooks.py: linked nodes, an explicit-stack search, and a structural copy. */
module PrefixTries {
  import opened Results
  import opened TrieSpec

  /** A node dictionary. Its place in the trie never changes. */
  class Node {
    var children: map<string, Node>
    var values: Option<Handlers>
    ghost const path: Path

    constructor (ghost path: Path)
      ensures children == map[] && values == None && this.path == path
    {
      children, values := map[], None;
      this.path := path;
    }

    constructor Over(ghost path: Path, children: map<string, Node>, values: Option<Handlers>)
      ensures IsNode(this, path, children, values)
    {
      this.path, this.children, this.values := path, children, values;
    }
  }

  type Links = map<Path, map<string, Node>>

  /** The node of p is linked from the node above it and to the nodes below it. */
  ghost predicate Good(at: map<Path, Node>, kids: Links, p: Path)
    requires p in at && kids.Keys == at.Keys
  {
    && (p != [] ==>
         var u, part := p[..|p| - 1], p[|p| - 1];
         u in at && part in kids[u] && kids[u][part] == at[p])
    && (forall part :: part in kids[p] ==> kids[p][part].path == p + [part] && p + [part] in at && at[p + [part]] == kids[p][part])
  }

  ghost predicate Linked(at: map<Path, Node>, kids: Links)
    ensures Linked(at, kids) ==> [] in at
  {
    && [] in at && kids.Keys == at.Keys
    && forall p {:trigger Good(at, kids, p)} :: p in at ==> Good(at, kids, p)
  }

  /** Every leaf but the root, and but `loose`, has lists. */
  ghost predicate LeavesUsed(kids: Links, vals: Values, loose: Path) {
    forall p :: p in kids && p != [] && p != loose ==> p in vals || kids[p] != map[]
  }

  lemma AddLeaf(kids: Links, vals: Values, p: Path, part: string, child: Node)
    requires LeavesUsed(kids, vals, p) && p in kids
    ensures LeavesUsed(kids[p := kids[p][part := child]][p + [part] := map[]], vals, p + [part])
  {
    assert part in kids[p][part := child];
  }

  lemma LeavesAll(kids: Links, vals: Values, p: Path, q: Path)
    requires LeavesUsed(kids, vals, p) && p in kids && kids[p] != map[]
    ensures LeavesUsed(kids, vals, q)
  {
  }

  lemma AddNode(at: map<Path, Node>, kids: Links, p: Path, part: string, child: Node)
    requires Linked(at, kids) && p in at && part !in kids[p] && child.path == p + [part]
    ensures p + [part] !in at
    ensures Linked(at[p + [part] := child], kids[p := kids[p][part := child]][p + [part] := map[]])
  {
    var q := p + [part];
    assert q[..|q| - 1] == p && q[|q| - 1] == part;
    assert q in at ==> Good(at, kids, q);
    var at', kids' := at[q := child], kids[p := kids[p][part := child]][q := map[]];
    assert kids'.Keys == at'.Keys;
    forall r | r in at' ensures Good(at', kids', r) {
      if r != q {
        assert Good(at, kids, r);
        if r == p {
          assert forall x :: x in kids[p] ==> p + [x] in at && p + [x] != q;
        }
      }
    }
  }

  lemma ValuesWith<K, V>(m: map<K, V>, k: K, v: V)
    requires k !in m
    ensures m[k := v].Values == m.Values + {v}
  {
    var u := m[k := v];
    assert k in u && u[k] == v;
    forall x | x in m.Values ensures x in u.Values {
      var r :| r in m && m[r] == x;
      assert r in u && u[r] == x;
    }
  }

  /** Nodes are closed under prefixes. */
  lemma {:induction false} PrefixIsNode(at: map<Path, Node>, kids: Links, q: Path, r: Path)
    requires Linked(at, kids) && kids.Keys == at.Keys
    ensures q in at && r <= q ==> r in at
    decreases |q|
  {
    if q in at && r <= q && r != q {
      assert Good(at, kids, q);
      var u := q[..|q| - 1];
      assert r <= u;
      PrefixIsNode(at, kids, u, r);
    }
  }

  /** Where no child is linked there is no node. */
  lemma NoLink(at: map<Path, Node>, kids: Links, p: Path, part: string)
    requires Linked(at, kids) && kids.Keys == at.Keys && p in at && part !in kids[p]
    ensures forall q :: q in at ==> !(p + [part] <= q)
  {
    var r := p + [part];
    assert r[..|r| - 1] == p && r[|r| - 1] == part;
    assert r in at ==> Good(at, kids, r);
    forall q | q in at ensures !(r <= q) {
      PrefixIsNode(at, kids, q, r);
    }
  }

  lemma LeavesLoose(kids: Links, vals: Values, p: Path)
    requires LeavesUsed(kids, vals, [])
    ensures LeavesUsed(kids, vals, p)
  {
  }

  /** The nodes at or below p. */
  ghost function Below(at: map<Path, Node>, p: Path): set<Path> {
    set q | q in at && p <= q
  }

  lemma BelowShrinks(at: map<Path, Node>, p: Path, part: string)
    requires p in at
    ensures Below(at, p + [part]) < Below(at, p)
  {
    forall q | q in Below(at, p + [part]) ensures q in Below(at, p) { LongerPrefix(p, part, q); }
    assert p in Below(at, p) && p !in Below(at, p + [part]);
  }

  /** Every node but the root has lists at or below it. */
  lemma {:induction false} ListsBelow(at: map<Path, Node>, kids: Links, vals: Values, p: Path)
    requires Linked(at, kids) && kids.Keys == at.Keys && vals.Keys <= at.Keys && LeavesUsed(kids, vals, [])
    requires p in at && p != []
    ensures exists q :: q in vals && p <= q
    decreases Below(at, p)
  {
    if p in vals {
      assert p <= p;
    } else {
      assert Good(at, kids, p);
      var part :| part in kids[p];
      var r := p + [part];
      BelowShrinks(at, p, part);
      ListsBelow(at, kids, vals, r);
      var q :| q in vals && r <= q;
      assert p <= q;
    }
  }

  lemma NodesHaveListsBelow(at: map<Path, Node>, kids: Links, vals: Values, p: Path)
    requires Linked(at, kids) && kids.Keys == at.Keys && vals.Keys <= at.Keys && LeavesUsed(kids, vals, [])
    requires p != []
    ensures p in at <==> exists q :: q in vals && p <= q
  {
    if p in at {
      ListsBelow(at, kids, vals, p);
    }
    if q :| q in vals && p <= q {
      PrefixIsNode(at, kids, q, p);
    }
  }

  lemma CollectStep(vals: Values, p: Path, rest: seq<string>)
    ensures Collect(vals, p, rest) ==
      if rest == [] then At(vals, p).Complete()
      else Collect(vals, p + ["*"], rest[1..]) + Collect(vals, p + [rest[0]], rest[1..]) + At(vals, p).Complete()
  {
  }

  /** 1 + 2 + ... + 2^d: the visits that a stack entry at distance d from the end of the key can cause. */
  function Weight(d: nat): (w: nat)
    ensures w >= 1
  {
    if d == 0 then 1 else 1 + 2 * Weight(d - 1)
  }

  ghost predicate Indexed(stack: seq<(Node, nat)>, parts: seq<string>) {
    forall i :: 0 <= i < |stack| ==> stack[i].1 <= |parts|
  }

  /** What the stack of the search still has to contribute. */
  ghost function Pending(vals: Values, stack: seq<(Node, nat)>, parts: seq<string>): seq<Handler>
    requires Indexed(stack, parts)
  {
    if stack == [] then []
    else
      var top := stack[|stack| - 1];
      Pending(vals, stack[..|stack| - 1], parts) + Collect(vals, top.0.path, parts[top.1..])
  }

  ghost function Load(stack: seq<(Node, nat)>, length: nat): nat
    requires forall i :: 0 <= i < |stack| ==> stack[i].1 <= length
  {
    if stack == [] then 0
    else Load(stack[..|stack| - 1], length) + Weight(length - stack[|stack| - 1].1)
  }

  lemma NothingPending(vals: Values, parts: seq<string>)
    ensures Pending(vals, [], parts) == []
  {
  }

  lemma PushPending(vals: Values, stack: seq<(Node, nat)>, node: Node, index: nat, parts: seq<string>)
    requires Indexed(stack, parts) && index <= |parts|
    ensures Indexed(stack + [(node, index)], parts)
    ensures Pending(vals, stack + [(node, index)], parts) ==
            Pending(vals, stack, parts) + Collect(vals, node.path, parts[index..])
    ensures Load(stack + [(node, index)], |parts|) == Load(stack, |parts|) + Weight(|parts| - index)
  {
    var pushed := stack + [(node, index)];
    assert pushed[..|pushed| - 1] == stack;
  }

  lemma Regroup(a: seq<Handler>, b: seq<Handler>, c: seq<Handler>, d: seq<Handler>, e: seq<Handler>)
    ensures a + (b + c + d) + e == a + b + c + (d + e)
  {
  }

  /** A visited node gives its subtrees to the stack and its own handlers to the front of the result. */
  lemma VisitPending(vals: Values, below: seq<(Node, nat)>, p: Path, index: nat, parts: seq<string>, before: seq<Handler>)
    requires Indexed(below, parts) && index <= |parts|
    ensures
      var own := At(vals, p).Complete();
      Pending(vals, below, parts) + Collect(vals, p, parts[index..]) + before ==
        if index == |parts| then Pending(vals, below, parts) + (own + before)
        else Pending(vals, below, parts) + Collect(vals, p + ["*"], parts[index + 1..])
             + Collect(vals, p + [parts[index]], parts[index + 1..]) + (own + before)
  {
    CollectStep(vals, p, parts[index..]);
    hide Collect, Pending;
    var pending, own := Pending(vals, below, parts), At(vals, p).Complete();
    if index < |parts| {
      assert parts[index..][0] == parts[index] && parts[index..][1..] == parts[index + 1..];
      Regroup(pending, Collect(vals, p + ["*"], parts[index + 1..]), Collect(vals, p + [parts[index]], parts[index + 1..]),
        own, before);
    } else {
      Regroup(pending, [], [], own, before);
      assert [] + [] + own == own && pending + [] + [] == pending;
    }
  }

  /** The links among copies, under the names of the original. */
  ghost predicate SameLinks(kids: Links, sub: map<Path, Node>, links: Links)
    ensures SameLinks(kids, sub, links) ==> links.Keys == sub.Keys
  {
    && links.Keys == sub.Keys
    && forall q :: q in links ==>
         && q in kids && links[q].Keys == kids[q].Keys
         && forall part :: part in links[q] ==> q + [part] in sub && links[q][part] == sub[q + [part]]
  }

  lemma ValuesJoin<K, V>(a: map<K, V>, b: map<K, V>)
    ensures (a + b).Values <= a.Values + b.Values
  {
  }

  lemma JoinLinks(kids: Links, a: map<Path, Node>, la: Links, b: map<Path, Node>, lb: Links)
    requires SameLinks(kids, a, la) && SameLinks(kids, b, lb) && a.Keys !! b.Keys
    ensures SameLinks(kids, a + b, la + lb) && (la + lb).Keys == (a + b).Keys
  {
  }

  lemma TopLinks(kids: Links, p: Path, n: Node, copied: map<string, Node>, sub: map<Path, Node>, links: Links)
    requires SameLinks(kids, sub, links) && p !in sub && p in kids && copied.Keys == kids[p].Keys
    requires forall part :: part in copied ==> p + [part] in sub && copied[part] == sub[p + [part]]
    ensures SameLinks(kids, sub[p := n], links[p := copied])
  {
    forall q, part | q in links && part in links[q] ensures q + [part] != p {
      assert q + [part] in sub;
    }
  }

  lemma ChildSubtree(at: map<Path, Node>, p: Path, part: string)
    ensures forall q :: q in at ==> (p + [part] <= q <==> p < q && q[|p|] == part)
  {
    forall q | q in at ensures p + [part] <= q <==> p < q && q[|p|] == part {
      var r := p + [part];
      if r <= q {
        assert p == q[..|r|][..|p|] == q[..|p|] && q[|p|] == q[..|r|][|p|];
      }
      if p < q && q[|p|] == part {
        assert q[..|r|] == r;
      }
    }
  }

  /** The copies below one more child join the copies below the earlier ones. */
  lemma JoinKeys(at: map<Path, Node>, p: Path, part: string, child: Node, copied: map<string, Node>,
                 sub: map<Path, Node>, more: map<Path, Node>)
    requires part !in copied && p + [part] in more && more[p + [part]] == child
    requires forall q :: q in sub <==> q in at && p < q && q[|p|] in copied
    requires forall q :: q in more <==> q in at && p + [part] <= q
    requires forall x :: x in copied ==> p + [x] in sub && copied[x] == sub[p + [x]]
    ensures sub.Keys !! more.Keys
    ensures forall q :: q in sub + more <==> q in at && p < q && q[|p|] in copied[part := child]
    ensures forall x :: x in copied[part := child] ==> p + [x] in sub + more && copied[part := child][x] == (sub + more)[p + [x]]
  {
    ChildSubtree(at, p, part);
  }

  lemma ProperOrSame(at: map<Path, Node>, p: Path)
    ensures forall q :: q in at ==> (p <= q <==> p < q || p == q)
  {
    forall q | q in at && p <= q && |p| == |q| ensures p == q {
      assert q == q[..|p|];
    }
  }

  /** The first step from p towards a node below it. */
  lemma FirstStep(at: map<Path, Node>, kids: Links, p: Path, q: Path)
    requires Linked(at, kids) && kids.Keys == at.Keys && p in at && q in at && p < q
    ensures q[|p|] in kids[p] && p + [q[|p|]] <= q
  {
    var r := p + [q[|p|]];
    assert r <= q;
    if q[|p|] !in kids[p] {
      NoLink(at, kids, p, q[|p|]);
    }
  }

  /** A copy of all nodes is linked as the original is. */
  lemma CopyLinked(at: map<Path, Node>, kids: Links, sub: map<Path, Node>, links: Links)
    requires Linked(at, kids) && kids.Keys == at.Keys == sub.Keys && SameLinks(kids, sub, links)
    requires forall q :: q in sub ==> sub[q].path == q
    ensures Linked(sub, links)
  {
    forall p | p in sub ensures Good(sub, links, p) {
      assert Good(at, kids, p);
      if p != [] {
        var u, part := p[..|p| - 1], p[|p| - 1];
        assert u + [part] == p && part in links[u];
      }
    }
  }

  lemma CopyLeaves(kids: Links, sub: map<Path, Node>, links: Links, vals: Values)
    requires kids.Keys == sub.Keys && SameLinks(kids, sub, links) && LeavesUsed(kids, vals, [])
    ensures LeavesUsed(links, vals, [])
  {
    forall p | p in links && kids[p] != map[] ensures links[p] != map[] {
      var part :| part in kids[p];
      assert part in links[p];
    }
  }

  /** A node has the given place, links and lists. */
  ghost predicate IsNode(n: Node, q: Path, link: map<string, Node>, lists: Option<Handlers>)
    reads n
  {
    n.path == q && n.children == link && n.values == lists
  }

  function Lists(vals: Values, q: Path): Option<Handlers> {
    if q in vals then Some(vals[q]) else None
  }

  lemma AddChild(at: map<Path, Node>, kids: Links, vals: Values, p: Path, part: string, child: Node)
    returns (at': map<Path, Node>, kids': Links)
    requires Linked(at, kids) && kids.Keys == at.Keys && vals.Keys <= at.Keys && p in at && LeavesUsed(kids, vals, p)
    requires part !in kids[p] && child.path == p + [part]
    ensures Linked(at', kids') && LeavesUsed(kids', vals, child.path) && at'[[]] == at[[]]
    ensures kids'.Keys == at'.Keys == at.Keys + {child.path} && child.path !in at
    ensures at' == at[child.path := child]
    ensures at'[child.path] == child && kids'[child.path] == map[]
    ensures kids'[p] == kids[p][part := child]
    ensures forall r :: r in at ==> at'[r] == at[r] && (r != p ==> kids'[r] == kids[r])
  {
    AddNode(at, kids, p, part, child);
    AddLeaf(kids, vals, p, part, child);
    hide Linked, LeavesUsed;
    at', kids' := at[child.path := child], kids[p := kids[p][part := child]][child.path := map[]];
  }

  lemma OneMore(parts: seq<string>, i: nat)
    requires i < |parts|
    ensures parts[..i + 1] == parts[..i] + [parts[i]]
  {
  }

  class PrefixTrie {
    var root: Node

    /** The node, the links and the lists of every path. */
    ghost var at: map<Path, Node>
    ghost var kids: Links
    ghost var vals: Values

    /** The nodes on the heap are what the ghost maps say. */
    ghost predicate Tree()
      reads this, at.Values
    {
      && kids.Keys == at.Keys && Linked(at, kids) && root == at[[]]
      && vals.Keys <= at.Keys
      && forall p {:trigger Shows(p)} :: p in at ==> Shows(p)
    }

    ghost predicate Shows(p: Path)
      requires p in at && p in kids
      reads this, at.Values
    {
      && at[p].path == p && at[p].children == kids[p]
      && at[p].values == if p in vals then Some(vals[p]) else None
    }

    ghost predicate Valid()
      reads this, at.Values
    {
      Tree() && LeavesUsed(kids, vals, [])
    }

    ghost predicate Has(n: Node)
      reads this
    {
      n.path in at && at[n.path] == n
    }

    lemma TreeShows(n: Node)
      requires Tree() && Has(n)
      ensures kids.Keys == at.Keys && Linked(at, kids) && root == at[[]] && vals.Keys <= at.Keys
      ensures n.path in at && at[n.path] == n
      ensures forall q {:trigger at[q]} :: q in at ==> IsNode(at[q], q, kids[q], Lists(vals, q))
    {
      hide Linked;
      forall q | q in at ensures IsNode(at[q], q, kids[q], Lists(vals, q)) { assert Shows(q); }
    }

    lemma ShowsTree(n: Node)
      requires kids.Keys == at.Keys && Linked(at, kids) && root == at[[]] && vals.Keys <= at.Keys
      requires n.path in at && at[n.path] == n
      requires forall q {:trigger at[q]} :: q in at ==> IsNode(at[q], q, kids[q], Lists(vals, q))
      ensures Tree() && Has(n)
    {
      hide Linked;
      forall q | q in at ensures Shows(q) { assert IsNode(at[q], q, kids[q], Lists(vals, q)); }
    }

    constructor ()
      ensures Valid() && vals == map[] && fresh(at.Values)
    {
      var r := new Node([]);
      root, at, kids, vals := r, map[[] := r], map[[] := map[]], map[];
      new;
      assert Good(at, kids, []);
    }

    /** The trie of nodes that are already linked. */
    constructor Over(root: Node, ghost at: map<Path, Node>, ghost kids: Links, ghost vals: Values)
      requires kids.Keys == at.Keys && Linked(at, kids) && LeavesUsed(kids, vals, [])
      requires root == at[[]] && vals.Keys <= at.Keys
      requires forall q {:trigger at[q]} :: q in at ==> IsNode(at[q], q, kids[q], Lists(vals, q))
      ensures Valid() && this.at == at && this.vals == vals
    {
      this.root, this.at, this.kids, this.vals := root, at, kids, vals;
      new;
      hide Linked, LeavesUsed;
      forall p | p in at ensures Shows(p) { assert IsNode(at[p], p, kids[p], Lists(vals, p)); }
    }

    method AppendItem(parts: seq<string>, value: Handler, section: Section)
      requires Valid() && parts != []
      modifies this`at, this`kids, this`vals, at.Values
      ensures Valid() && root == old(root) && fresh(at.Values - old(at.Values))
      ensures vals == Append(old(vals), parts, value, section)
    {
      var current := root;
      var i := 0;
      assert Shows([]);
      hide Good, Linked, LeavesUsed, Append, Add;
      LeavesLoose(kids, vals, parts[..0]);
      while i < |parts|
        invariant 0 <= i <= |parts|
        invariant Tree() && root == old(root) && vals == old(vals)
        invariant at.Values >= old(at.Values)
        invariant forall n :: n in at.Values && n !in old(at.Values) ==> fresh(n)
        invariant Has(current) && current.path == parts[..i]
        invariant LeavesUsed(kids, vals, parts[..i])
      {
        OneMore(parts, i);
        current := Descend(current, parts[i]);
        i := i + 1;
      }
      assert parts[..i] == parts;
      AppendHere(current, value, section);
    }

    method AppendHere(current: Node, value: Handler, section: Section)
      requires Tree() && Has(current) && LeavesUsed(kids, vals, current.path)
      modifies this`vals, current`values
      ensures Valid() && vals == Append(old(vals), current.path, value, section)
    {
      hide Linked, LeavesUsed, Add;
      assert Shows(current.path);
      if current.values == None {
        SetValues(current, Add(NO_HANDLERS, section, value));
      } else {
        SetValues(current, Add(current.values.value, section, value));
      }
    }

    /** One step down, creating the child when it is missing. */
    method Descend(current: Node, part: string) returns (child: Node)
      requires Tree() && Has(current) && LeavesUsed(kids, vals, current.path)
      modifies this`at, this`kids, current
      ensures Tree() && Has(child) && child.path == current.path + [part]
      ensures at.Values >= old(at.Values)
      ensures forall n :: n in at.Values && n !in old(at.Values) ==> fresh(n)
      ensures LeavesUsed(kids, vals, child.path)
    {
      ghost var p, q := current.path, current.path + [part];
      assert Good(at, kids, p) && Shows(p);
      hide Good, Linked, LeavesUsed;
      if part in current.children {
        child := current.children[part];
        assert part in kids[p];
        LeavesAll(kids, vals, p, q);
      } else {
        child := NewChild(current, part);
      }
    }

    method NewChild(current: Node, part: string) returns (child: Node)
      requires Tree() && Has(current) && LeavesUsed(kids, vals, current.path) && part !in kids[current.path]
      modifies this`at, this`kids, current
      ensures Tree() && Has(child) && child.path == current.path + [part]
      ensures at.Values == old(at.Values) + {child} && fresh(child)
      ensures LeavesUsed(kids, vals, child.path)
    {
      hide Good, Linked, LeavesUsed, Shows;
      child := new Node(current.path + [part]);
      LinkChild(current, part, child);
    }

    method LinkChild(current: Node, part: string, child: Node)
      requires Tree() && Has(current) && LeavesUsed(kids, vals, current.path) && part !in kids[current.path]
      requires child !in at.Values && IsNode(child, current.path + [part], map[], None)
      modifies this`at, this`kids, current`children
      ensures Tree() && Has(child)
      ensures at.Values == old(at.Values) + {child}
      ensures LeavesUsed(kids, vals, child.path)
    {
      hide Tree, Shows, Has, Good, Linked, LeavesUsed;
      TreeShows(current);
      ghost var at', kids' := AddChild(at, kids, vals, current.path, part, child);
      assert at'.Values == at.Values + {child} by { ValuesWith(at, child.path, child); }
      assert IsNode(current, current.path, kids[current.path], Lists(vals, current.path));
      current.children := current.children[part := child];
      forall r | r in at' ensures IsNode(at'[r], r, kids'[r], Lists(vals, r)) {
        if r in at && r != current.path { assert old(IsNode(at[r], r, kids[r], Lists(vals, r))); }
      }
      at, kids := at', kids';
      ShowsTree(child);
    }

    method SetValues(n: Node, hs: Handlers)
      requires Tree() && Has(n) && LeavesUsed(kids, vals, n.path)
      modifies this`vals, n`values
      ensures Valid() && vals == old(vals)[n.path := hs]
    {
      hide Linked;
      assert Shows(n.path);
      n.values := Some(hs);
      vals := vals[n.path := hs];
      forall r | r in at ensures Shows(r) {
        assert old(Shows(r));
      }
    }

    /** Search with an explicit stack: the wildcard child is pushed below the direct one. */
    method PrefixSearch(parts: seq<string>) returns (collected: seq<Handler>)
      requires Valid()
      ensures collected == Search(vals, parts)
    {
      hide Good, Linked, LeavesUsed, Collect, Pending, Load, At, Handlers.Complete;
      collected := [];
      var stack: seq<(Node, nat)> := [];
      assert Shows([]) && parts[0..] == parts;
      NothingPending(vals, parts);
      PushPending(vals, stack, root, 0, parts);
      stack := stack + [(root, 0)];
      assert [] + Search(vals, parts) + [] == Search(vals, parts);
      while stack != []
        invariant Indexed(stack, parts) && forall i :: 0 <= i < |stack| ==> Has(stack[i].0)
        invariant Pending(vals, stack, parts) + collected == Search(vals, parts)
        decreases Load(stack, |parts|)
      {
        var (node, index) := stack[|stack| - 1];
        ghost var below, before := stack[..|stack| - 1], collected;
        assert stack == below + [(node, index)];
        PushPending(vals, below, node, index, parts);
        stack := stack[..|stack| - 1];
        collected := Collected(node, collected);
        VisitPending(vals, below, node.path, index, parts, before);
        if index != |parts| {
          stack := PushChild(stack, node, "*", index + 1, parts);
          stack := PushChild(stack, node, parts[index], index + 1, parts);
        }
      }
    }

    /** The handlers of a visited node go in front. */
    method Collected(node: Node, before: seq<Handler>) returns (collected: seq<Handler>)
      requires Valid() && Has(node)
      ensures collected == At(vals, node.path).Complete() + before
    {
      hide Good, Linked, LeavesUsed;
      assert Shows(node.path);
      collected := before;
      if node.values.Some? {
        collected := node.values.value.Complete() + collected;
      }
      assert [] + before == before;
    }

    /** Push a child if there is one; a missing child has nothing to contribute. */
    method PushChild(stack: seq<(Node, nat)>, node: Node, part: string, next: nat, ghost parts: seq<string>)
      returns (pushed: seq<(Node, nat)>)
      requires Valid() && Has(node) && next <= |parts|
      requires Indexed(stack, parts) && forall i :: 0 <= i < |stack| ==> Has(stack[i].0)
      ensures Indexed(pushed, parts) && forall i :: 0 <= i < |pushed| ==> Has(pushed[i].0)
      ensures Pending(vals, pushed, parts) == Pending(vals, stack, parts) + Collect(vals, node.path + [part], parts[next..])
      ensures Load(pushed, |parts|) <= Load(stack, |parts|) + Weight(|parts| - next)
    {
      assert Good(at, kids, node.path) && Shows(node.path);
      hide Good, Linked, LeavesUsed, Collect, Pending, Load;
      if part in node.children {
        pushed := stack + [(node.children[part], next)];
        PushPending(vals, stack, node.children[part], next, parts);
      } else {
        pushed := stack;
        NoLink(at, kids, node.path, part);
        NothingBelow(vals, node.path + [part], parts[next..]);
      }
    }

    method RemoveItem(parts: seq<string>, value: Handler) returns (outcome: Outcome)
      requires Valid() && parts != []
      modifies this`vals, at.Values
      ensures Valid() && root == old(root) && at == old(at)
      ensures vals == AfterRemove(old(vals), parts, value)
      ensures
        match Remove(old(vals), parts, value)
        case Removed(_) => outcome == Done
        case KeyNotInTrie => outcome == ValueError
        case NoLists => outcome == AttributeError
    {
      assert Shows([]);
      NodesHaveListsBelow(at, kids, vals, parts);
      outcome := RemoveFrom(root, parts, value, 0);
    }

    /** The recursion of _remove_item. */
    method RemoveFrom(current: Node, parts: seq<string>, value: Handler, index: nat) returns (outcome: Outcome)
      requires Valid() && Has(current) && index <= |parts| && current.path == parts[..index]
      modifies this`vals, at.Values
      ensures Valid() && root == old(root) && at == old(at) && kids == old(kids)
      ensures index == |parts| ==> outcome == Done && vals == old(vals)
      ensures index < |parts| ==>
        if parts in old(vals) then outcome == Done && vals == old(vals)[parts := Drop(old(vals)[parts], value)]
        else vals == old(vals) && outcome == if parts in at then AttributeError else ValueError
      decreases |parts| - index
    {
      if index == |parts| { return Done; }
      var part := parts[index];
      assert parts[..index + 1] == parts[..index] + [part];
      assert Good(at, kids, current.path) && Shows(current.path);
      if part !in current.children {
        NoLink(at, kids, current.path, part);
        assert parts[..index + 1] <= parts;
        return ValueError;
      }
      var next := current.children[part];
      hide Good, Linked;
      outcome := RemoveFrom(next, parts, value, index + 1);
      if outcome != Done { return; }
      assert Shows(next.path);
      if index == |parts| - 1 {
        assert next.path == parts;
        if next.values.None? { return AttributeError; }
        LeavesLoose(kids, vals, next.path);
        SetValues(next, Drop(next.values.value, value));
      }
      assert Shows(next.path);
      if next.children == map[] && next.values.None? {
        // A NodeList is true even when its lists are empty, so no node is ever unlinked.
        assert false;
      }
    }

    /** The nodes of a copy are what its maps say, with the lists of this trie. */
    ghost predicate ShowsCopy(sub: map<Path, Node>, links: Links)
      requires links.Keys == sub.Keys
      reads this, sub.Values
    {
      forall q {:trigger sub[q]} :: q in sub ==> IsNode(sub[q], q, links[q], Lists(vals, q))
    }

    /** _recursive_copy of a node. */
    method CopyFrom(node: Node) returns (n: Node, ghost sub: map<Path, Node>, ghost links: Links)
      requires Tree() && Has(node)
      ensures fresh(sub.Values) && SameLinks(kids, sub, links) && ShowsCopy(sub, links)
      ensures forall q :: q in sub <==> q in at && node.path <= q
      ensures sub[node.path] == n
      decreases Below(at, node.path)
    {
      ghost var p := node.path;
      assert Shows(p);
      var copied: map<string, Node>;
      copied, sub, links := CopyChildren(node);
      n := new Node.Over(p, copied, node.values);
      TopLinks(kids, p, n, copied, sub, links);
      ValuesWith(sub, p, n);
      ProperOrSame(at, p);
      hide Linked, LeavesUsed, SameLinks, Good;
      sub, links := sub[p := n], links[p := copied];
    }

    method CopyChildren(node: Node) returns (copied: map<string, Node>, ghost sub: map<Path, Node>, ghost links: Links)
      requires Tree() && Has(node)
      ensures fresh(sub.Values) && SameLinks(kids, sub, links) && ShowsCopy(sub, links)
      ensures forall q :: q in sub <==> q in at && node.path < q
      ensures copied.Keys == kids[node.path].Keys
      ensures forall part :: part in copied ==> node.path + [part] in sub && copied[part] == sub[node.path + [part]]
      decreases Below(at, node.path), 0
    {
      sub, links, copied := map[], map[], map[];
      var todo := node.children.Keys;
      ghost var p := node.path;
      assert Shows(p) && SameLinks(kids, sub, links) && ShowsCopy(sub, links);
      hide Linked, LeavesUsed, Good, SameLinks, ShowsCopy;
      while todo != {}
        invariant todo <= kids[p].Keys && copied.Keys == kids[p].Keys - todo
        invariant fresh(sub.Values) && SameLinks(kids, sub, links) && ShowsCopy(sub, links)
        invariant forall q :: q in sub <==> q in at && p < q && q[|p|] in copied
        invariant forall part :: part in copied ==> p + [part] in sub && copied[part] == sub[p + [part]]
        decreases todo
      {
        var part :| part in todo;
        BelowChild(p, part);
        var child;
        ghost var more, moreLinks;
        child, more, moreLinks := CopyFrom(node.children[part]);
        JoinKeys(at, p, part, child, copied, sub, more);
        JoinLinks(kids, sub, links, more, moreLinks);
        JoinShows(sub, links, more, moreLinks);
        ValuesJoin(sub, more);
        todo := todo - {part};
        copied := copied[part := child];
        sub, links := sub + more, links + moreLinks;
      }
      forall q | q in at && p < q ensures q[|p|] in copied { FirstStep(at, kids, p, q); }
    }

    /** __copy__: new nodes, the same handlers. */
    method Copy() returns (t: PrefixTrie)
      requires Valid()
      ensures fresh(t) && fresh(t.at.Values) && t.Valid() && t.vals == vals
    {
      hide Linked, LeavesUsed, SameLinks, ShowsCopy, Good;
      assert Shows([]);
      var r;
      ghost var sub, links;
      r, sub, links := CopyFrom(root);
      assert sub.Keys == at.Keys;
      CopyParts(sub, links);
      t := new PrefixTrie.Over(r, sub, links, vals);
    }

    lemma CopyParts(sub: map<Path, Node>, links: Links)
      requires Valid() && sub.Keys == at.Keys && SameLinks(kids, sub, links) && ShowsCopy(sub, links)
      ensures Linked(sub, links) && LeavesUsed(links, vals, [])
      ensures forall q {:trigger sub[q]} :: q in sub ==> IsNode(sub[q], q, links[q], Lists(vals, q))
    {
      assert forall q :: q in sub ==> IsNode(sub[q], q, links[q], Lists(vals, q));
      CopyLinked(at, kids, sub, links);
      CopyLeaves(kids, sub, links, vals);
    }

    lemma JoinShows(a: map<Path, Node>, la: Links, b: map<Path, Node>, lb: Links)
      requires la.Keys == a.Keys && lb.Keys == b.Keys && ShowsCopy(a, la) && ShowsCopy(b, lb)
      ensures (la + lb).Keys == (a + b).Keys && ShowsCopy(a + b, la + lb)
    {
    }

    lemma BelowChild(p: Path, part: string)
      requires Tree() && p in at && part in kids[p]
      ensures Has(kids[p][part]) && kids[p][part].path == p + [part]
      ensures Below(at, p + [part]) < Below(at, p)
    {
      assert Good(at, kids, p);
      BelowShrinks(at, p, part);
    }
  }
}
