/** XML trees as they are written, and as they are read back. */
module Xml {
  import opened Results
  import opened Shapes

  /** An element under construction: attributes hold the raw value they were given. */
  datatype Xml = Elem(tag: string, attrs: map<string, Value>, text: Option<string>, children: seq<Xml>)

  /** A parsed element: its tag is a namespace and a local name. */
  datatype Dom = Dom(namespace: string, tag: string, text: Option<string>, children: seq<Dom>)

  /** What a lookup among the children of an element finds: one element, or several with one tag. */
  datatype Found = One(node: Dom) | Many(nodes: seq<Dom>)

  /** Writing an element and parsing the text: an empty text is lost, xmlns qualifies the tags below. */
  function Reread(x: Xml, inherited: string): Dom
    decreases x
  {
    var ns := if "xmlns" in x.attrs && x.attrs["xmlns"].Str? then x.attrs["xmlns"].s else inherited;
    Dom(ns, x.tag, if x.text == Some("") then None else x.text, RereadAll(x.children, ns))
  }

  function RereadAll(xs: seq<Xml>, ns: string): (ds: seq<Dom>)
    ensures |ds| == |xs|
    ensures forall i :: 0 <= i < |xs| ==> ds[i].tag == xs[i].tag
    decreases xs
  {
    if xs == [] then [] else [Reread(xs[0], ns)] + RereadAll(xs[1..], ns)
  }

  lemma {:induction false} RereadConcat(a: seq<Xml>, b: seq<Xml>, ns: string)
    ensures RereadAll(a + b, ns) == RereadAll(a, ns) + RereadAll(b, ns)
    decreases |a|
  {
    if a == [] {
      assert a + b == b;
    } else {
      assert (a + b)[1..] == a[1..] + b;
      RereadConcat(a[1..], b, ns);
    }
  }

  /** The children with one tag, in document order. */
  function WithTag(items: seq<Dom>, tag: string): (r: seq<Dom>)
    ensures forall d :: d in r ==> d in items && d.tag == tag
  {
    if items == [] then []
    else (if items[0].tag == tag then [items[0]] else []) + WithTag(items[1..], tag)
  }

  lemma {:induction false} WithTagConcat(a: seq<Dom>, b: seq<Dom>, tag: string)
    ensures WithTag(a + b, tag) == WithTag(a, tag) + WithTag(b, tag)
    decreases |a|
  {
    if a == [] {
      assert a + b == b;
    } else {
      assert (a + b)[1..] == a[1..] + b;
      WithTagConcat(a[1..], b, tag);
    }
  }

  lemma {:induction false} WithTagUniform(a: seq<Dom>, t: string, tag: string)
    requires forall i :: 0 <= i < |a| ==> a[i].tag == t
    ensures WithTag(a, tag) == if t == tag then a else []
    decreases |a|
  {
    if a != [] {
      WithTagUniform(a[1..], t, tag);
      assert a == [a[0]] + a[1..];
    }
  }

  function Gather(ds: seq<Dom>): Found
    requires ds != []
  {
    if |ds| == 1 then One(ds[0]) else Many(ds)
  }
}
