/** Markup documents as trees, and the ElementTree reads the client performs on
    responses: `element.text`, `element.get(name)` and `root.iter(tag)`.
    Serialisation and parsing are library codecs and are not part of this model:
    requests are built as trees and responses arrive as trees. */
module Xml {
  import opened Base

  /** An element with its attributes and its children in document order, or a
      run of character data (the parser merges adjacent text). */
  datatype Node =
    | Element(tag: string, attrs: map<string, string>, children: seq<Node>)
    | Text(data: string)

  /** `<tag>text</tag>`, or `<tag/>` when there is no text. */
  function Leaf(tag: string, text: Option<string>): (n: Node)
    ensures n.Element? && n.tag == tag && n.attrs == map[]
    ensures TextOf(n) == text
  {
    Element(tag, map[], if text.Some? then [Text(text.value)] else [])
  }

  /** ElementTree's `element.text`: the character data before the first child
      element, or `None` when there is none. */
  function TextOf(n: Node): (r: Option<string>)
    ensures r.Some? ==> n.Element? && |n.children| > 0 && n.children[0] == Text(r.value)
    ensures n.Element? && |n.children| > 0 && n.children[0].Text? ==> r.Some?
  {
    if n.Element? && |n.children| > 0 && n.children[0].Text? then Some(n.children[0].data) else None
  }

  /** ElementTree's `element.get(name)`. */
  function Attr(n: Node, name: string): (r: Option<string>)
    ensures r.Some? <==> n.Element? && name in n.attrs
    ensures r.Some? ==> r.value == n.attrs[name]
  {
    if n.Element? && name in n.attrs then Some(n.attrs[name]) else None
  }

  /** ElementTree's `root.iter(tag)`: every element with that tag, the root
      included, in document order (a pre-order walk). */
  function Iter(n: Node, tag: string): (r: seq<Node>)
    ensures forall i :: 0 <= i < |r| ==> r[i].Element? && r[i].tag == tag
    decreases n, 1
  {
    match n
    case Text(_) => []
    case Element(t, _, kids) => (if t == tag then [n] else []) + IterAll(kids, tag)
  }

  /** `Iter` over a run of siblings, in order. */
  function IterAll(ns: seq<Node>, tag: string): (r: seq<Node>)
    ensures forall i :: 0 <= i < |r| ==> r[i].Element? && r[i].tag == tag
    decreases ns, 0
  {
    if ns == [] then [] else Iter(ns[0], tag) + IterAll(ns[1..], tag)
  }

  lemma {:induction false} IterAllAppend(a: seq<Node>, b: seq<Node>, tag: string)
    ensures IterAll(a + b, tag) == IterAll(a, tag) + IterAll(b, tag)
  {
    if a != [] {
      assert (a + b)[0] == a[0];
      assert (a + b)[1..] == a[1..] + b;
      IterAllAppend(a[1..], b, tag);
    } else {
      assert a + b == b;
    }
  }

  /** A single sibling contributes its own walk. */
  lemma {:induction false} IterAllOne(n: Node, tag: string)
    ensures IterAll([n], tag) == Iter(n, tag)
  {
    assert [n][1..] == [];
  }

  /** The tags of an element's element children, in order. */
  function ChildTags(n: Node): seq<string> {
    if n.Text? then [] else TagsOf(n.children)
  }

  function TagsOf(ns: seq<Node>): (r: seq<string>)
    ensures |r| <= |ns|
  {
    if ns == [] then []
    else (if ns[0].Element? then [ns[0].tag] else []) + TagsOf(ns[1..])
  }

  /** The first element child carrying `tag`. */
  function Child(n: Node, tag: string): Option<Node> {
    if n.Text? then None else FirstWithTag(n.children, tag)
  }

  function FirstWithTag(ns: seq<Node>, tag: string): (r: Option<Node>)
    ensures r.Some? ==> r.value in ns && r.value.Element? && r.value.tag == tag
  {
    if ns == [] then None
    else if ns[0].Element? && ns[0].tag == tag then Some(ns[0])
    else FirstWithTag(ns[1..], tag)
  }

  /** Follows `path` from `n`, one child tag at a time. */
  function At(n: Node, path: seq<string>): Option<Node>
    decreases |path|
  {
    if path == [] then Some(n)
    else match Child(n, path[0])
      case None => None
      case Some(c) => At(c, path[1..])
  }

  /** Following `p + q` is following `p`, then `q` from where `p` ended. */
  lemma {:induction false} AtAppend(n: Node, p: seq<string>, q: seq<string>)
    ensures At(n, p + q) == if At(n, p).Some? then At(At(n, p).value, q) else None
    decreases |p|
  {
    if p == [] {
      assert p + q == q;
    } else {
      assert (p + q)[0] == p[0];
      assert (p + q)[1..] == p[1..] + q;
      match Child(n, p[0])
      case None =>
      case Some(c) => AtAppend(c, p[1..], q);
    }
  }

  /** A one-step path is a child lookup. */
  lemma {:induction false} AtOne(n: Node, t: string)
    ensures At(n, [t]) == Child(n, t)
  {
    assert [t][1..] == [];
  }

  /** `TextOf` the node at `path`, `None` when there is no such node. */
  function TextAt(n: Node, path: seq<string>): Option<string> {
    match At(n, path)
    case None => None
    case Some(c) => TextOf(c)
  }

  /** When every node is an element, the tags read back are theirs, in order. */
  lemma {:induction false} TagsOfElements(ns: seq<Node>)
    requires forall i :: 0 <= i < |ns| ==> ns[i].Element?
    ensures |TagsOf(ns)| == |ns|
    ensures forall i :: 0 <= i < |ns| ==> TagsOf(ns)[i] == ns[i].tag
  {
    if ns != [] {
      TagsOfElements(ns[1..]);
    }
  }

  /** The lookup by tag finds the first sibling that carries it. */
  lemma {:induction false} FirstWithTagAt(ns: seq<Node>, i: nat, tag: string)
    requires i < |ns| && ns[i].Element? && ns[i].tag == tag
    requires forall j :: 0 <= j < i ==> !(ns[j].Element? && ns[j].tag == tag)
    ensures FirstWithTag(ns, tag) == Some(ns[i])
  {
    if i > 0 {
      FirstWithTagAt(ns[1..], i - 1, tag);
    }
  }

  /** A lookup by a tag that no sibling carries finds nothing. */
  lemma {:induction false} FirstWithTagAbsent(ns: seq<Node>, tag: string)
    requires forall j :: 0 <= j < |ns| ==> !(ns[j].Element? && ns[j].tag == tag)
    ensures FirstWithTag(ns, tag) == None
  {
    if ns != [] {
      FirstWithTagAbsent(ns[1..], tag);
    }
  }
}
