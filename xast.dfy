/**
 * The document tree the passes rewrite: svgo's syntax tree, whose nodes are
 * updated in place. A node is the document root, an element with a name,
 * an attribute map and ordered children, or a text node with a value.
 */
module Xast {

  datatype NodeKind = Root | Element | Text

  class XNode {
    const kind: NodeKind
    /** The element name; unused by roots and text nodes. */
    const name: string
    /** The attributes; only elements have them (`node.attributes` is undefined elsewhere). */
    var attributes: map<string, string>
    /** The text of a text node. */
    var value: string
    var children: seq<XNode>

    constructor Element(name: string, attributes: map<string, string>, children: seq<XNode>)
      ensures kind == NodeKind.Element && this.name == name
      ensures this.attributes == attributes && this.children == children && value == ""
    {
      kind := NodeKind.Element;
      this.name := name;
      this.attributes := attributes;
      this.children := children;
      value := "";
    }

    constructor Text(value: string)
      ensures kind == NodeKind.Text && this.value == value
      ensures name == "" && attributes == map[] && children == []
    {
      kind := NodeKind.Text;
      name := "";
      attributes := map[];
      this.value := value;
      children := [];
    }

    constructor Root(children: seq<XNode>)
      ensures kind == NodeKind.Root && this.children == children
      ensures name == "" && attributes == map[] && value == ""
    {
      kind := NodeKind.Root;
      name := "";
      attributes := map[];
      value := "";
      this.children := children;
    }

    /** svgo's `isElem(name)`. */
    predicate IsElem(n: string)
      reads this
    {
      kind == NodeKind.Element && name == n
    }
  }
}
