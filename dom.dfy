/**
 * The already-parsed XML document a telemetry message decodes to, with the
 * three W3C DOM queries the parser uses: `getNodeName`, `getTextContent` and
 * `Document.getElementsByTagName`.
 */
module Dom {
  import opened Wrappers

  /** A DOM node: an element with attributes and child nodes, or a text node. */
  datatype Node =
    | Element(tag: string, attributes: map<string, string>, children: seq<Node>)
    | Text(text: string)

  /** A parsed message; `root` is its document element. */
  datatype Document = Document(root: Node)

  /** The node name the DOM gives every text node. */
  const TextNodeName := "#text"

  function NodeName(n: Node): string
  {
    match n
    case Element(tag, _, _) => tag
    case Text(_) => TextNodeName
  }

  /** `getChildNodes()`: a text node has none. */
  function ChildNodes(n: Node): seq<Node>
  {
    match n
    case Element(_, _, cs) => cs
    case Text(_) => []
  }

  /**
   * `n.getAttributes().getNamedItem(key).getNodeValue()`. `None` where Java
   * dereferences null: a text node has no attribute map, and `getNamedItem`
   * returns null for a missing attribute.
   */
  function AttributeValue(n: Node, key: string): Option<string>
  {
    if n.Element? && key in n.attributes then Some(n.attributes[key]) else None
  }

  /** `getTextContent()`: the text of every descendant text node, in document order. */
  function TextContent(n: Node): string
  {
    match n
    case Text(t) => t
    case Element(_, _, cs) =>
      Flatten(seq(|cs|, i requires 0 <= i < |cs| => TextContent(cs[i])))
  }

  /** Whether the tree holds an element with the given tag (the reference for the search below). */
  predicate HasElement(n: Node, tag: string)
  {
    match n
    case Text(_) => false
    case Element(t, _, cs) => t == tag || exists i :: 0 <= i < |cs| && HasElement(cs[i], tag)
  }

  /**
   * `getElementsByTagName(tag)` on the document: every element with that tag
   * in the whole tree, the root included, in document (pre-)order.
   */
  function ElementsByTagName(n: Node, tag: string): (r: seq<Node>)
    ensures forall e :: e in r ==> e.Element? && e.tag == tag
    ensures r != [] <==> HasElement(n, tag)
    ensures n.Element? && n.tag == tag ==> r[0] == n
  {
    match n
    case Text(_) => []
    case Element(t, _, cs) =>
      var below := seq(|cs|, i requires 0 <= i < |cs| => ElementsByTagName(cs[i], tag));
      MatchesBelow(below, cs, tag);
      (if t == tag then [n] else []) + Flatten(below)
  }

  /** What the recursive calls of ElementsByTagName promise, lifted to their concatenation. */
  lemma MatchesBelow(below: seq<seq<Node>>, cs: seq<Node>, tag: string)
    requires |below| == |cs|
    requires forall i :: 0 <= i < |cs| ==> forall e :: e in below[i] ==> e.Element? && e.tag == tag
    requires forall i :: 0 <= i < |cs| ==> (below[i] != [] <==> HasElement(cs[i], tag))
    ensures forall e :: e in Flatten(below) ==> e.Element? && e.tag == tag
    ensures Flatten(below) != [] <==> exists i :: 0 <= i < |cs| && HasElement(cs[i], tag)
  {
    forall e | e in Flatten(below)
      ensures e.Element? && e.tag == tag
    {
      FlattenMember(below, e);
    }
    FlattenEmpty(below);
  }

  /**
   * Document order: below a root that does not match, the first element found
   * is the first one found in the first child subtree holding a match.
   */
  lemma FirstInDocumentOrder(n: Node, tag: string, k: nat)
    requires n.Element? && n.tag != tag
    requires k < |n.children| && HasElement(n.children[k], tag)
    requires forall i :: 0 <= i < k ==> !HasElement(n.children[i], tag)
    ensures ElementsByTagName(n, tag)[0] == ElementsByTagName(n.children[k], tag)[0]
  {
    var cs := n.children;
    var below := seq(|cs|, i requires 0 <= i < |cs| => ElementsByTagName(cs[i], tag));
    assert ElementsByTagName(n, tag) == Flatten(below);
    FlattenFirst(below, k);
  }
}
