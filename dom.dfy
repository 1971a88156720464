/**
 * The element tree that the node-type writer builds, and the builder that
 * grows it one call at a time.
 *
 * The builder keeps a stack of open elements, split into the current element
 * (where attribute and child calls go) and its open ancestors, the document
 * element first. Starting an element makes a new empty element current;
 * ending it appends it, closed, to the children of its parent, which becomes
 * current again.
 */
module Dom {

  datatype Node =
    | Element(name: string, attributes: map<string, string>, children: seq<Node>)
    | Text(content: string)

  /** An element that is still open on the builder's stack. */
  datatype Frame = Frame(name: string, attributes: map<string, string>, children: seq<Node>)

  function Close(f: Frame): Node
  {
    Element(f.name, f.attributes, f.children)
  }

  /** `f` with one more child after its existing children. */
  function AddChild(f: Frame, n: Node): Frame
  {
    f.(children := f.children + [n])
  }

  /** `f` with attribute `name` set to `value`, replacing an earlier value. */
  function SetAttr(f: Frame, name: string, value: string): Frame
  {
    f.(attributes := f.attributes[name := value])
  }

  /** Text of a boolean attribute. */
  function BooleanText(b: bool): string
  {
    if b then "true" else "false"
  }

  /** An element holding one text child and no attributes. */
  function ContentElement(name: string, content: string): Node
  {
    Element(name, map[], [Text(content)])
  }

  /** Pushing a frame and taking the stack back to its old length gives back the old stack. */
  lemma PushThenPop(stack: seq<Frame>, f: Frame)
    ensures (stack + [f])[..|stack|] == stack
    ensures (stack + [f])[|stack|] == f
  {
  }

  /** `DOMBuilder`: a document under construction. */
  class DomBuilder {
    /** The open ancestors of the current element, the document element first. */
    var ancestors: seq<Frame>
    /** The current element. */
    var current: Frame

    /** A new document whose document element is named `rootName` and is current. */
    constructor (rootName: string)
      ensures ancestors == [] && current == Frame(rootName, map[], [])
    {
      ancestors := [];
      current := Frame(rootName, map[], []);
    }

    /** Opens a new, empty element and makes it current; the old current element becomes its open parent. */
    method StartElement(name: string)
      modifies this
      ensures ancestors == old(ancestors) + [old(current)]
      ensures current == Frame(name, map[], [])
    {
      ancestors := ancestors + [current];
      current := Frame(name, map[], []);
    }

    /** Closes the current element, appends it to its parent, and makes the parent current again. */
    method EndElement()
      requires |ancestors| > 0
      modifies this
      ensures ancestors == old(ancestors)[..|old(ancestors)| - 1]
      ensures current == AddChild(old(ancestors)[|old(ancestors)| - 1], Close(old(current)))
    {
      current := AddChild(ancestors[|ancestors| - 1], Close(current));
      ancestors := ancestors[..|ancestors| - 1];
    }

    /** Sets a string attribute of the current element. */
    method SetAttribute(name: string, value: string)
      modifies this`current
      ensures current == SetAttr(old(current), name, value)
    {
      current := SetAttr(current, name, value);
    }

    /** Sets a boolean attribute of the current element as `true` or `false`. */
    method SetBooleanAttribute(name: string, value: bool)
      modifies this`current
      ensures current == SetAttr(old(current), name, BooleanText(value))
    {
      SetAttribute(name, BooleanText(value));
    }

    /** Appends a text node to the current element. */
    method AddContent(content: string)
      modifies this`current
      ensures current == AddChild(old(current), Text(content))
    {
      current := AddChild(current, Text(content));
    }

    /** Appends an element holding only the given text to the current element. */
    method AddContentElement(name: string, content: string)
      modifies this
      ensures ancestors == old(ancestors)
      ensures current == AddChild(old(current), ContentElement(name, content))
    {
      StartElement(name);
      AddContent(content);
      assert [] + [Text(content)] == [Text(content)];
      EndElement();
    }

    /** The finished document: its element once every other element has been ended. */
    function Document(): Node
      requires ancestors == []
      reads this
    {
      Close(current)
    }
  }
}
