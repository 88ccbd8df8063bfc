/** XML documents as trees, and the SAX events libxml2 makes of them. */
module Xml {
  import opened Wrappers

  type Attributes = seq<(string, string)>

  datatype Node = Elem(name: string, attrs: Attributes, children: seq<Node>) | Text(text: string)

  datatype Event = Start(name: string, attrs: Attributes) | Chars(text: string) | End

  function Events(n: Node): seq<Event> {
    match n
    case Text(s) => [Chars(s)]
    case Elem(name, attrs, children) => [Start(name, attrs)] + EventsOf(children) + [End]
  }

  function EventsOf(nodes: seq<Node>): seq<Event> {
    if nodes == [] then [] else Events(nodes[0]) + EventsOf(nodes[1..])
  }

  /** All text below a node, in document order. */
  function AllText(n: Node): string {
    match n
    case Text(s) => s
    case Elem(_, _, children) => AllTextOf(children)
  }

  function AllTextOf(nodes: seq<Node>): string {
    if nodes == [] then "" else AllText(nodes[0]) + AllTextOf(nodes[1..])
  }

  /** The elements with this name, in order. */
  function Select(nodes: seq<Node>, name: string): seq<Node> {
    if nodes == [] then []
    else (if nodes[0].Elem? && nodes[0].name == name then [nodes[0]] else []) + Select(nodes[1..], name)
  }

  /** The children of all elements with this name, in order. */
  function Descend(nodes: seq<Node>, name: string): seq<Node> {
    if nodes == [] then []
    else (if nodes[0].Elem? && nodes[0].name == name then nodes[0].children else []) + Descend(nodes[1..], name)
  }

  function Content(n: Node): string {
    if n.Elem? then AllTextOf(n.children) else ""
  }

  lemma DescendStep(nodes: seq<Node>, name: string)
    requires nodes != []
    ensures Descend(nodes, name) == Descend(nodes[..1], name) + Descend(nodes[1..], name)
    ensures Descend(nodes[..1], name)
            == if nodes[0].Elem? && nodes[0].name == name then nodes[0].children else []
  {
    assert nodes[..1][1..] == [];
  }

  /** lr_find_attr: the value of the first attribute with this name. */
  function Attr(attrs: Attributes, name: string): Option<string> {
    if attrs == [] then None
    else if attrs[0].0 == name then Some(attrs[0].1)
    else Attr(attrs[1..], name)
  }

  /** The k-th attribute is the first with this name, and v is its value. */
  predicate FirstAt(attrs: Attributes, name: string, v: string, k: nat) {
    k < |attrs| && attrs[k] == (name, v) && forall j :: 0 <= j < k ==> attrs[j].0 != name
  }

  /** There is a value exactly when some attribute has the name, and it is the value of the first of them. */
  lemma {:induction false} AttrIsFirst(attrs: Attributes, name: string)
    ensures Attr(attrs, name).None? <==> forall k :: 0 <= k < |attrs| ==> attrs[k].0 != name
    ensures forall v :: Attr(attrs, name) == Some(v) <==> exists k: nat :: FirstAt(attrs, name, v, k)
  {
    if attrs != [] && attrs[0].0 != name {
      AttrIsFirst(attrs[1..], name);
      forall v
        ensures Attr(attrs, name) == Some(v) <==> exists k: nat :: FirstAt(attrs, name, v, k)
      {
        if k: nat :| FirstAt(attrs, name, v, k) {
          assert FirstAt(attrs[1..], name, v, k - 1);
        }
        if k: nat :| FirstAt(attrs[1..], name, v, k) {
          assert FirstAt(attrs, name, v, k + 1);
        }
      }
      assert forall k :: 1 <= k < |attrs| ==> attrs[k] == attrs[1..][k - 1];
    } else if attrs != [] {
      assert FirstAt(attrs, name, attrs[0].1, 0);
    }
  }

  method FindAttr(name: string, attrs: Attributes) returns (r: Option<string>)
    ensures r == Attr(attrs, name)
    ensures r.None? <==> forall k :: 0 <= k < |attrs| ==> attrs[k].0 != name
    ensures forall v :: r == Some(v) <==> exists k: nat :: FirstAt(attrs, name, v, k)
  {
    AttrIsFirst(attrs, name);
    var k := 0;
    while k < |attrs|
      invariant 0 <= k <= |attrs| && Attr(attrs[k..], name) == Attr(attrs, name)
    {
      if name == attrs[k].0 {
        return Some(attrs[k].1);
      }
      k := k + 1;
    }
    r := None;
  }

  /** The elements open after these events, innermost last; None when an end event closes nothing. */
  function Open(stack: seq<string>, events: seq<Event>): Option<seq<string>>
    decreases |events|
  {
    if events == [] then Some(stack)
    else match events[0]
      case Start(name, _) => Open(stack + [name], events[1..])
      case Chars(_) => Open(stack, events[1..])
      case End => if stack == [] then None else Open(stack[..|stack| - 1], events[1..])
  }

  lemma {:induction false} OpenConcat(stack: seq<string>, a: seq<Event>, b: seq<Event>)
    requires Open(stack, a).Some?
    ensures Open(stack, a + b) == Open(Open(stack, a).value, b)
    decreases |a|
  {
    if a == [] {
      assert a + b == b;
    } else {
      assert (a + b)[1..] == a[1..] + b;
      var next := match a[0]
        case Start(name, _) => stack + [name]
        case Chars(_) => stack
        case End => stack[..|stack| - 1];
      OpenConcat(next, a[1..], b);
    }
  }

  lemma NextEvent(stack: seq<string>, events: seq<Event>, k: nat)
    requires k < |events| && Open(stack, events[k..]).Some?
    ensures events[k..][1..] == events[k + 1..] && Open(stack, [events[k]]).Some?
    ensures Open(stack, events[k..]) == Open(Open(stack, [events[k]]).value, events[k + 1..])
  {
    assert events[k..][1..] == events[k + 1..] && [events[k]][1..] == [];
  }

  /** An element leaves the stack as it found it, and on the way never closes what it did not open. */
  lemma {:induction false} NodeIsBalanced(stack: seq<string>, n: Node, k: nat)
    requires k <= |Events(n)|
    ensures Open(stack, Events(n)) == Some(stack)
    ensures Open(stack, Events(n)[..k]).Some?
    decreases n, 0
  {
    match n
    case Text(s) =>
      assert Events(n)[1..] == [];
    case Elem(name, attrs, children) =>
      var inner := EventsOf(children);
      var inside := stack + [name];
      assert Events(n)[1..] == inner + [End];
      assert inside[..|inside| - 1] == stack;
      NodesAreBalanced(inside, children, if 1 <= k <= |inner| + 1 then k - 1 else 0);
      OpenConcat(inside, inner, [End]);
      assert [End][1..] == [];
      if 1 <= k <= |inner| + 1 {
        assert Events(n)[..k][1..] == inner[..k - 1];
      } else if k > |inner| + 1 {
        assert Events(n)[..k] == Events(n);
      }
  }

  /** Wherever a document is interrupted, its next event finds an element to close. */
  lemma PrefixIsBalanced(n: Node, k: nat)
    requires k < |Events(n)|
    ensures Open([], Events(n)[..k]).Some? && Open(Open([], Events(n)[..k]).value, [Events(n)[k]]).Some?
  {
    NodeIsBalanced([], n, k);
    NodeIsBalanced([], n, k + 1);
    assert Events(n)[..k + 1] == Events(n)[..k] + [Events(n)[k]];
    OpenConcat([], Events(n)[..k], [Events(n)[k]]);
  }

  lemma {:induction false} NodesAreBalanced(stack: seq<string>, nodes: seq<Node>, k: nat)
    requires k <= |EventsOf(nodes)|
    ensures Open(stack, EventsOf(nodes)) == Some(stack)
    ensures Open(stack, EventsOf(nodes)[..k]).Some?
    decreases nodes, 1
  {
    if nodes != [] {
      var first, rest := Events(nodes[0]), EventsOf(nodes[1..]);
      NodeIsBalanced(stack, nodes[0], Min(k, |first|));
      NodesAreBalanced(stack, nodes[1..], Max(0, k - |first|));
      OpenConcat(stack, first, rest);
      if k <= |first| {
        assert (first + rest)[..k] == first[..k];
      } else {
        assert (first + rest)[..k] == first + rest[..k - |first|];
        OpenConcat(stack, first, rest[..k - |first|]);
      }
    }
  }
}
