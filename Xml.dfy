/**
 * The slice of an XML element tree the WiX generator builds. Elements are
 * values; an XElement object is an element under construction whose
 * children grow by Add.
 */
module Xml {

  datatype Attr = Attr(name: string, value: string)

  /** An element: its local name (all elements live in the WiX namespace), attributes and children. */
  datatype Node = Element(tag: string, attrs: seq<Attr>, children: seq<Node>)

  /** The value of the first attribute called `name`, or "" when there is none. */
  function AttrValue(attrs: seq<Attr>, name: string): string {
    if attrs == [] then ""
    else if attrs[0].name == name then attrs[0].value
    else AttrValue(attrs[1..], name)
  }

  function IdOf(n: Node): string {
    AttrValue(n.attrs, "Id")
  }

  /** An element being built: its name and attributes are fixed, children are appended. */
  class XElement {
    const tag: string
    const attrs: seq<Attr>
    var children: seq<Node>

    constructor (tag: string, attrs: seq<Attr>)
      ensures this.tag == tag && this.attrs == attrs && children == []
    {
      this.tag := tag;
      this.attrs := attrs;
      children := [];
    }

    /** Appends a child at the end. */
    method Add(child: Node)
      modifies this
      ensures children == old(children) + [child]
    {
      children := children + [child];
    }

    /** The element as it stands now. */
    function Value(): Node
      reads this
    {
      Element(tag, attrs, children)
    }
  }
}
