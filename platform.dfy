/**
 * An abstract platform (DOM) node: the attributes, the plain properties the
 * event-handler keys are stored under, the style map, the text of a text node
 * and the ordered child list. Browser behaviour beyond these maps is not
 * modelled.
 */
module Platform {
  import opened Values

  type NodeId = nat

  datatype NodeKind = ElementNode(name: string) | TextNode

  datatype PNode = PNode(
    kind: NodeKind,
    attrs: map<string, Value>,
    properties: map<string, Value>,
    style: map<string, Value>,
    text: Value,
    children: seq<NodeId>)

  /** `document.createElement(name)`. */
  function NewElement(name: string): PNode
  {
    PNode(ElementNode(name), map[], map[], map[], Undefined, [])
  }

  /** `document.createTextNode(text)`. */
  function NewText(text: Value): PNode
  {
    PNode(TextNode, map[], map[], map[], text, [])
  }

  /** Whether `node.setAttribute` exists: element nodes have it, text nodes do not. */
  predicate HasSetAttribute(n: PNode)
  {
    n.kind.ElementNode?
  }

  /** `node.appendChild(c)`, abstractly: `c` goes last in the child list. */
  function AppendChild(n: PNode, c: NodeId): PNode
  {
    n.(children := n.children + [c])
  }

  /** `node.removeChild(c)`, abstractly: `c` no longer occurs in the child list. */
  function RemoveChild(n: PNode, c: NodeId): (r: PNode)
    ensures c !in r.children
    ensures forall x :: x in r.children <==> x in n.children && x != c
  {
    n.(children := Filter(n.children, c))
  }

  function Filter(s: seq<NodeId>, c: NodeId): (r: seq<NodeId>)
    ensures forall x :: x in r <==> x in s && x != c
  {
    if s == [] then []
    else if s[0] == c then Filter(s[1..], c)
    else [s[0]] + Filter(s[1..], c)
  }
}
