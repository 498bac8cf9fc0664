/** The serializer as it runs: ElementTree elements that are created under their parent and filled in place. */
module XmlElements {
  import opened Results
  import opened Shapes
  import opened Xml
  import opened XmlSerializer

  class Element {
    const tag: string
    var attrib: map<string, Value>
    var text: Option<string>
    var children: seq<Element>
    /** The elements below and including this one, and the finished tree they form. */
    ghost var repr: set<Element>
    ghost var tree: Xml

    /** The tree agrees with the fields here. */
    ghost predicate Agrees(nodes: set<Element>)
      reads this, nodes
    {
      && tree.tag == tag && tree.attrs == attrib && tree.text == text && |tree.children| == |children|
      && forall i :: 0 <= i < |children| ==> children[i] in nodes && children[i].tree == tree.children[i]
    }

    ghost predicate Valid()
      reads this, repr
      ensures Valid() ==> this in repr
    {
      this in repr && forall e :: e in repr ==> e.Agrees(repr)
    }

    constructor (tag: string)
      ensures this.tag == tag && attrib == map[] && text == None && children == []
      ensures Valid() && repr == {this} && tree == Elem(tag, map[], None, [])
    {
      this.tag := tag;
      attrib, text, children := map[], None, [];
      repr, tree := {this}, Elem(tag, map[], None, []);
    }

    /** Record the tree once the children are complete. */
    ghost method Seal(xs: seq<Xml>)
      requires |xs| == |children|
      requires forall i :: 0 <= i < |children| ==>
                 children[i].Valid() && this !in children[i].repr && children[i].tree == xs[i]
      modifies this`repr, this`tree
      ensures Valid() && tree == Elem(tag, attrib, text, xs)
      ensures forall e :: e in repr ==> e == this || exists i :: 0 <= i < |children| && e in children[i].repr
    {
      ghost var below := set i, e | 0 <= i < |children| && e in children[i].repr :: e;
      forall e | e in below
        ensures e != this && e.Agrees(below)
      {
        var i :| 0 <= i < |children| && e in children[i].repr;
        children[i].AgreesInMore(e, below);
      }
      repr, tree := {this} + below, Elem(tag, attrib, text, xs);
    }

    lemma AgreesInMore(e: Element, nodes: set<Element>)
      requires Valid() && e in repr && repr <= nodes
      ensures e.Agrees(nodes)
    {
      assert e.Agrees(repr);
    }
  }

  function After(done: seq<Xml>, rest: Result<seq<Xml>, SerError>): Result<seq<Xml>, SerError> {
    if rest.Ok? then Ok(done + rest.value) else rest
  }

  lemma AfterNothing(rest: Result<seq<Xml>, SerError>)
    ensures After([], rest) == rest
  {
    if rest.Ok? { assert [] + rest.value == rest.value; }
  }

  lemma AfterTwo(done: seq<Xml>, first: seq<Xml>, rest: Result<seq<Xml>, SerError>)
    ensures After(done, After(first, rest)) == After(done + first, rest)
  {
    if rest.Ok? { assert done + (first + rest.value) == done + first + rest.value; }
  }

  /** The loop over the items: what item i adds. */
  lemma ItemsStep(m: ShapeMap, c: Codec, member: Shape, items: seq<Value>, i: nat, name: string, done: seq<Xml>)
    requires Closed(m) && InMap(m, member.kind) && i <= |items|
    ensures SerItems(m, c, member, items[|items|..], name) == Ok([])
    ensures i < |items| ==>
      After(done, SerItems(m, c, member, items[i..], name)) ==
        match Ser(m, c, member, items[i], name)
        case Err(e) => Err(e)
        case Ok(first) => After(done + first, SerItems(m, c, member, items[i + 1..], name))
  {
    hide Ser;
    if i < |items| {
      assert items[i..][0] == items[i] && items[i..][1..] == items[i + 1..];
      var first := Ser(m, c, member, items[i], name);
      if first.Ok? { AfterTwo(done, first.value, SerItems(m, c, member, items[i + 1..], name)); }
    }
  }

  /** The element of one map entry, or the error of its key or of its value. */
  function SerEntry(m: ShapeMap, c: Codec, key: Shape, value: Shape, e: Entry): Result<Xml, SerError>
    requires Closed(m) && InMap(m, key.kind) && InMap(m, value.kind)
  {
    var k :- Ser(m, c, key, e.key, Or(key.traits.name, "key"));
    var v :- Ser(m, c, value, e.value, Or(value.traits.name, "value"));
    Ok(Elem("entry", map[], None, k + v))
  }

  lemma EntriesStep(m: ShapeMap, c: Codec, key: Shape, value: Shape, entries: seq<Entry>, i: nat, done: seq<Xml>)
    requires Closed(m) && InMap(m, key.kind) && InMap(m, value.kind) && i <= |entries|
    ensures SerEntries(m, c, key, value, entries[|entries|..]) == Ok([])
    ensures i < |entries| ==>
      After(done, SerEntries(m, c, key, value, entries[i..])) ==
        match SerEntry(m, c, key, value, entries[i])
        case Err(e) => Err(e)
        case Ok(x) => After(done + [x], SerEntries(m, c, key, value, entries[i + 1..]))
  {
    hide Ser;
    if i < |entries| {
      assert entries[i..][0] == entries[i] && entries[i..][1..] == entries[i + 1..];
      var x := SerEntry(m, c, key, value, entries[i]);
      if x.Ok? { AfterTwo(done, [x.value], SerEntries(m, c, key, value, entries[i + 1..])); }
    }
  }

  function AfterBody(done: seq<Xml>, rest: Result<Body, SerError>): Result<Body, SerError> {
    if rest.Ok? then Ok(Body(rest.value.attrs, done + rest.value.children)) else rest
  }

  lemma AfterNoBody(rest: Result<Body, SerError>)
    ensures AfterBody([], rest) == rest
  {
    if rest.Ok? { assert [] + rest.value.children == rest.value.children; }
  }

  /** The step of a field: it ends the loop, fails, adds an attribute, or adds elements. */
  datatype Step = Stop | Fail(error: SerError) | Attribute(name: string) | Elements(children: seq<Xml>)

  function FieldStep(m: ShapeMap, c: Codec, members: seq<Member>, e: Entry): Step
    requires Closed(m) && InMap(m, Structure(members, []))
  {
    var found := if e.key.Str? then FindMember(members, e.key.s) else None;
    if found.None? then Fail(KeyError(e.key))
    else
      var member := Resolve(m, found.value);
      if e.value.NoneV? then Stop
      else if Flag(member.traits.xmlAttribute) then
        if member.traits.name.None? then Fail(KeyError(Str("name"))) else Attribute(member.traits.name.value)
      else
        match Ser(m, c, member, e.value, Or(member.traits.name, e.key.s))
        case Err(e) => Fail(e)
        case Ok(first) => Elements(first)
  }

  /** The loop over the members: what field i adds, and where it stops. */
  lemma FieldsStep(m: ShapeMap, c: Codec, members: seq<Member>, entries: seq<Entry>, i: nat,
                   attrs: map<string, Value>, done: seq<Xml>)
    requires Closed(m) && InMap(m, Structure(members, [])) && i <= |entries|
    ensures AfterBody(done, SerFields(m, c, members, entries[|entries|..], attrs)) == Ok(Body(attrs, done))
    ensures i < |entries| ==>
      AfterBody(done, SerFields(m, c, members, entries[i..], attrs)) ==
        match FieldStep(m, c, members, entries[i])
        case Stop => Ok(Body(attrs, done))
        case Fail(e) => Err(e)
        case Attribute(name) => AfterBody(done, SerFields(m, c, members, entries[i + 1..], attrs[name := entries[i].value]))
        case Elements(first) => AfterBody(done + first, SerFields(m, c, members, entries[i + 1..], attrs))
  {
    hide Ser;
    assert done + [] == done;
    if i < |entries| {
      assert entries[i..][0] == entries[i] && entries[i..][1..] == entries[i + 1..];
      var rest := SerFields(m, c, members, entries[i + 1..], attrs);
      if rest.Ok? {
        assert forall first: seq<Xml> :: done + (first + rest.value.children) == (done + first) + rest.value.children;
      }
    }
  }

  /** ElementTree.SubElement: a new last child. */
  method SubElement(parent: Element, tag: string) returns (child: Element)
    modifies parent`children
    ensures fresh(child) && child.tag == tag && child.attrib == map[] && child.text == None && child.children == []
    ensures child.Valid() && child.repr == {child} && child.tree == Elem(tag, map[], None, [])
    ensures parent.children == old(parent.children) + [child]
  {
    child := new Element(tag);
    parent.children := parent.children + [child];
  }

  method SetText(xmlnode: Element, name: string, text: string)
    modifies xmlnode`children
    ensures |xmlnode.children| == |old(xmlnode.children)| + 1
    ensures xmlnode.children[..|old(xmlnode.children)|] == old(xmlnode.children)
    ensures
      var n := xmlnode.children[|old(xmlnode.children)|];
      fresh(n.repr) && n.Valid() && n.tree == Elem(name, map[], Some(text), [])
  {
    var node := SubElement(xmlnode, name);
    node.text := Some(text);
    node.Seal([]);
  }

  /** Append to `xmlnode` the elements for `v`; on an error the exception propagates. */
  method Serialize(m: ShapeMap, c: Codec, sh: Shape, v: Value, xmlnode: Element, name: string)
    returns (err: Option<SerError>)
    requires Closed(m) && InMap(m, sh.kind)
    modifies xmlnode`children
    ensures Ser(m, c, sh, v, name).Err? ==> err == Some(Ser(m, c, sh, v, name).error)
    ensures Ser(m, c, sh, v, name).Ok? ==>
      var n, xs := |old(xmlnode.children)|, Ser(m, c, sh, v, name).value;
      && err == None
      && |xmlnode.children| == n + |xs|
      && xmlnode.children[..n] == old(xmlnode.children)
      && forall i :: n <= i < n + |xs| ==>
           && fresh(xmlnode.children[i].repr) && xmlnode.children[i].Valid()
           && xmlnode.children[i].tree == xs[i - n]
    decreases v, 2
  {
    hide SerFields, SerItems, SerEntries, Element.Valid;
    match sh.kind
    case Structure(members, _) =>
      if !v.Dict? { return Some(AttributeError); }
      err := SerializeStructure(m, c, members, v.entries, sh.traits, xmlnode, name);
    case List(ref) =>
      if !v.Items? { return Some(TypeError); }
      if Flag(sh.traits.flattened) {
        err := SerializeItems(m, c, Resolve(m, ref), v.items, xmlnode, name);
      } else {
        err := SerializeList(m, c, Resolve(m, ref), v.items, xmlnode, name);
      }
    case Map(keyRef, valueRef) =>
      if !v.Dict? { return Some(AttributeError); }
      err := SerializeMap(m, c, Resolve(m, keyRef), Resolve(m, valueRef), v.entries, xmlnode, name);
    case Scalar(t) =>
      var text := ScalarText(c, t, v);
      if text.Err? { return Some(text.error); }
      SetText(xmlnode, name, text.value);
      err := None;
  }

  /** A list with a node of its own. */
  method SerializeList(m: ShapeMap, c: Codec, member: Shape, items: seq<Value>, xmlnode: Element, name: string)
    returns (err: Option<SerError>)
    requires Closed(m) && InMap(m, member.kind)
    modifies xmlnode`children
    ensures
      var spec := SerItems(m, c, member, items, Or(member.traits.name, "member"));
      && (spec.Err? ==> err == Some(spec.error))
      && (spec.Ok? ==>
           var n := |old(xmlnode.children)|;
           && err == None
           && |xmlnode.children| == n + 1 && xmlnode.children[..n] == old(xmlnode.children)
           && fresh(xmlnode.children[n].repr) && xmlnode.children[n].Valid()
           && xmlnode.children[n].tree == Elem(name, map[], None, spec.value))
    decreases items, 3
  {
    hide SerItems, Element.Valid;
    var listNode := SubElement(xmlnode, name);
    var elementName := Or(member.traits.name, "member");
    err := SerializeItems(m, c, member, items, listNode, elementName);
    if err == None {
      listNode.Seal(SerItems(m, c, member, items, elementName).value);
    }
  }

  method SerializeStructure(m: ShapeMap, c: Codec, members: seq<Member>, entries: seq<Entry>, traits: Traits,
                            xmlnode: Element, name: string)
    returns (err: Option<SerError>)
    requires Closed(m) && InMap(m, Structure(members, []))
    modifies xmlnode`children
    ensures
      var spec := SerFields(m, c, members, entries, NamespaceAttrs(traits));
      && (spec.Err? ==> err == Some(spec.error))
      && (spec.Ok? ==>
           var n := |old(xmlnode.children)|;
           && err == None
           && |xmlnode.children| == n + 1
           && xmlnode.children[..n] == old(xmlnode.children)
           && fresh(xmlnode.children[n].repr) && xmlnode.children[n].Valid()
           && xmlnode.children[n].tree == Elem(name, spec.value.attrs, None, spec.value.children))
    decreases entries, 1
  {
    hide Ser, SerFields, AfterBody, FieldStep, Element.Valid;
    var structureNode := SubElement(xmlnode, name);
    structureNode.attrib := NamespaceAttrs(traits);
    ghost var spec := SerFields(m, c, members, entries, NamespaceAttrs(traits));
    ghost var done: seq<Xml> := [];
    ghost var outer := xmlnode.children;
    var i := 0;
    AfterNoBody(spec);
    assert entries[0..] == entries;
    while i < |entries|
      invariant 0 <= i <= |entries|
      invariant structureNode != xmlnode && xmlnode.children == outer && structureNode.text == None
      invariant |done| == |structureNode.children|
      invariant forall k :: 0 <= k < |done| ==>
        var child := structureNode.children[k];
        fresh(child.repr) && structureNode !in child.repr && xmlnode !in child.repr && child.Valid() && child.tree == done[k]
      invariant spec == AfterBody(done, SerFields(m, c, members, entries[i..], structureNode.attrib))
    {
      assert (entries decreases to entries[i]);
      FieldsStep(m, c, members, entries, i, structureNode.attrib, done);
      var stop;
      err, stop := SerializeField(m, c, members, entries[i], structureNode);
      if err.Some? { return; }
      if stop { break; }
      ghost var step := FieldStep(m, c, members, entries[i]);
      if step.Elements? { done := done + step.children; }
      i := i + 1;
    }
    FieldsStep(m, c, members, entries, i, structureNode.attrib, done);
    structureNode.Seal(done);
    err := None;
  }

  /** One pass through the loop over the members. */
  method SerializeField(m: ShapeMap, c: Codec, members: seq<Member>, e: Entry, structureNode: Element)
    returns (err: Option<SerError>, stop: bool)
    requires Closed(m) && InMap(m, Structure(members, []))
    modifies structureNode`children, structureNode`attrib
    ensures
      match FieldStep(m, c, members, e)
      case Stop => stop && err == None && unchanged(structureNode)
      case Fail(error) => err == Some(error)
      case Attribute(name) =>
        && err == None && !stop && structureNode.children == old(structureNode.children)
        && structureNode.attrib == old(structureNode.attrib)[name := e.value]
      case Elements(first) =>
        var n := |old(structureNode.children)|;
        && err == None && !stop && structureNode.attrib == old(structureNode.attrib)
        && |structureNode.children| == n + |first| && structureNode.children[..n] == old(structureNode.children)
        && forall i :: n <= i < n + |first| ==>
             && fresh(structureNode.children[i].repr) && structureNode.children[i].Valid()
             && structureNode.children[i].tree == first[i - n]
    decreases e, 3
  {
    hide Ser, Element.Valid;
    var Entry(key, value) := e;
    stop := false;
    var found := if key.Str? then FindMember(members, key.s) else None;
    if found.None? { return Some(KeyError(key)), stop; }
    var member := Resolve(m, found.value);
    if value.NoneV? { return None, true; }
    if Flag(member.traits.xmlAttribute) {
      if member.traits.name.None? { return Some(KeyError(Str("name"))), stop; }
      structureNode.attrib := structureNode.attrib[member.traits.name.value := value];
      err := None;
    } else {
      err := Serialize(m, c, member, value, structureNode, Or(member.traits.name, key.s));
    }
  }

  method SerializeItems(m: ShapeMap, c: Codec, member: Shape, items: seq<Value>, listNode: Element, name: string)
    returns (err: Option<SerError>)
    requires Closed(m) && InMap(m, member.kind)
    modifies listNode`children
    ensures
      var spec := SerItems(m, c, member, items, name);
      && (spec.Err? ==> err == Some(spec.error))
      && (spec.Ok? ==>
           var n := |old(listNode.children)|;
           && err == None
           && |listNode.children| == n + |spec.value|
           && listNode.children[..n] == old(listNode.children)
           && forall i :: n <= i < n + |spec.value| ==>
                && fresh(listNode.children[i].repr) && listNode.children[i].Valid()
                && listNode.children[i].tree == spec.value[i - n])
    decreases items, 1
  {
    hide Ser, SerItems, After, Element.Valid;
    ghost var spec := SerItems(m, c, member, items, name);
    ghost var done: seq<Xml> := [];
    ghost var n := |listNode.children|;
    var i := 0;
    AfterNothing(spec);
    assert items[0..] == items;
    while i < |items|
      invariant 0 <= i <= |items|
      invariant |listNode.children| == n + |done| && listNode.children[..n] == old(listNode.children)
      invariant forall k :: n <= k < n + |done| ==>
        var child := listNode.children[k];
        fresh(child.repr) && child.Valid() && child.tree == done[k - n]
      invariant spec == After(done, SerItems(m, c, member, items[i..], name))
    {
      ItemsStep(m, c, member, items, i, name, done);
      err := Serialize(m, c, member, items[i], listNode, name);
      if err.Some? { return; }
      done := done + Ser(m, c, member, items[i], name).value;
      i := i + 1;
    }
    ItemsStep(m, c, member, items, i, name, done);
    AfterAll(done);
    err := None;
  }

  lemma AfterAll(done: seq<Xml>)
    ensures After(done, Ok([])) == Ok(done)
  {
    assert done + [] == done;
  }

  /** One <entry> with its key and value. */
  method SerializeEntry(m: ShapeMap, c: Codec, key: Shape, value: Shape, e: Entry, node: Element)
    returns (err: Option<SerError>)
    requires Closed(m) && InMap(m, key.kind) && InMap(m, value.kind)
    modifies node`children
    ensures
      var spec := SerEntry(m, c, key, value, e);
      && (spec.Err? ==> err == Some(spec.error))
      && (spec.Ok? ==>
           var n := |old(node.children)|;
           && err == None
           && |node.children| == n + 1 && node.children[..n] == old(node.children)
           && fresh(node.children[n].repr) && node.children[n].Valid()
           && node.children[n].tree == spec.value)
    decreases e, 3
  {
    hide Ser, Element.Valid;
    var Entry(dictKey, dictValue) := e;
    var entryNode := SubElement(node, "entry");
    err := Serialize(m, c, key, dictKey, entryNode, Or(key.traits.name, "key"));
    if err.Some? { return; }
    ghost var k := Ser(m, c, key, dictKey, Or(key.traits.name, "key")).value;
    ghost var keyNodes := entryNode.children;
    assert forall i :: 0 <= i < |k| ==> entryNode != keyNodes[i] && entryNode !in keyNodes[i].repr;
    err := Serialize(m, c, value, dictValue, entryNode, Or(value.traits.name, "value"));
    if err.Some? { return; }
    ghost var v := Ser(m, c, value, dictValue, Or(value.traits.name, "value")).value;
    forall i | 0 <= i < |k + v|
      ensures entryNode.children[i].Valid() && entryNode !in entryNode.children[i].repr
      ensures entryNode.children[i].tree == (k + v)[i]
    {
      if i < |k| { assert entryNode.children[i] == keyNodes[i]; }
    }
    entryNode.Seal(k + v);
  }

  method SerializeMap(m: ShapeMap, c: Codec, key: Shape, value: Shape, entries: seq<Entry>, xmlnode: Element, name: string)
    returns (err: Option<SerError>)
    requires Closed(m) && InMap(m, key.kind) && InMap(m, value.kind)
    modifies xmlnode`children
    ensures
      var spec := SerEntries(m, c, key, value, entries);
      && (spec.Err? ==> err == Some(spec.error))
      && (spec.Ok? ==>
           var n := |old(xmlnode.children)|;
           && err == None
           && |xmlnode.children| == n + 1 && xmlnode.children[..n] == old(xmlnode.children)
           && fresh(xmlnode.children[n].repr) && xmlnode.children[n].Valid()
           && xmlnode.children[n].tree == Elem(name, map[], None, spec.value))
    decreases entries, 1
  {
    hide Ser, SerEntries, SerEntry, After, Element.Valid;
    var node := SubElement(xmlnode, name);
    ghost var spec := SerEntries(m, c, key, value, entries);
    ghost var done: seq<Xml> := [];
    ghost var outer := xmlnode.children;
    var i := 0;
    AfterNothing(spec);
    assert entries[0..] == entries;
    while i < |entries|
      invariant 0 <= i <= |entries|
      invariant node != xmlnode && xmlnode.children == outer
      invariant node.attrib == map[] && node.text == None && |done| == |node.children|
      invariant forall k :: 0 <= k < |done| ==>
        var child := node.children[k];
        fresh(child.repr) && node !in child.repr && xmlnode !in child.repr && child.Valid() && child.tree == done[k]
      invariant spec == After(done, SerEntries(m, c, key, value, entries[i..]))
    {
      assert (entries decreases to entries[i]);
      EntriesStep(m, c, key, value, entries, i, done);
      err := SerializeEntry(m, c, key, value, entries[i], node);
      if err.Some? { return; }
      done := done + [SerEntry(m, c, key, value, entries[i]).value];
      i := i + 1;
    }
    EntriesStep(m, c, key, value, entries, i, done);
    AfterAll(done);
    node.Seal(done);
    err := None;
  }

  /** The request body: the first child of a pseudo root. */
  method SerializeBodyParams(m: ShapeMap, c: Codec, sh: Shape, params: Value) returns (r: Result<Element, SerError>)
    requires Closed(m) && InMap(m, sh.kind)
    ensures
      match SerializeBody(m, c, sh, params)
      case Err(e) => r == Err(e)
      case Ok(x) => r.Ok? && fresh(r.value.repr) && r.value.Valid() && r.value.tree == x
  {
    hide Ser, Element.Valid;
    if sh.traits.name.None? { return Err(KeyError(Str("name"))); }
    var pseudoRoot := new Element("");
    var err := Serialize(m, c, sh, params, pseudoRoot, sh.traits.name.value);
    if err.Some? { return Err(err.value); }
    if pseudoRoot.children == [] { return Err(TypeError); }
    r := Ok(pseudoRoot.children[0]);
  }
}
