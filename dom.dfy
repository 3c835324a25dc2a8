/** An abstract HTML document tree, standing in for the browser's DOM: nodes are values, an
    element found in a tree is reported together with its parent and its position, so that
    `nextElementSibling` and `parentElement` can be answered, and the few selectors the roster
    parser uses are a small datatype. */
module Dom {
  import opened Wrappers

  /** A text node, or an element with its upper-case tag name (as `tagName` reports it), its class
      list, its other attributes and its child nodes in document order. */
  datatype Node =
    | Text(value: string)
    | Element(tag: string, classes: set<string>, attrs: map<string, string>, children: seq<Node>)

  /** A parsed document; `root` is its document element. */
  datatype Document = Document(root: Node)

  function Kids(n: Node): seq<Node> {
    if n.Element? then n.children else []
  }

  /** An element found in a tree, with the node that contains it and its index among that node's children. */
  datatype ElementRef = ElementRef(node: Node, parent: Node, index: nat)

  predicate WellPlaced(r: ElementRef) {
    r.node.Element? && r.index < |Kids(r.parent)| && Kids(r.parent)[r.index] == r.node
  }

  // ---------------------------------------------------------------------------------------
  // textContent
  // ---------------------------------------------------------------------------------------

  /** `textContent`: the text of every text node below `n`, concatenated in document order. */
  function TextContent(n: Node): string
    decreases n, 1, 0
  {
    match n
    case Text(v) => v
    case Element(_, _, _, _) => ChildrenText(n, 0)
  }

  function ChildrenText(n: Node, i: nat): string
    decreases n, 0, |Kids(n)| - i
  {
    if i >= |Kids(n)| then "" else TextContent(n.children[i]) + ChildrenText(n, i + 1)
  }

  // ---------------------------------------------------------------------------------------
  // Descendants in document order
  // ---------------------------------------------------------------------------------------

  /** Every element strictly below `n`, in document (pre-)order. */
  function Descendants(n: Node): seq<ElementRef>
    decreases n, 1, 0
  {
    DescendantsFrom(n, 0)
  }

  /** The elements in the subtrees of the children of `n` from index `i` on, in document order. */
  function DescendantsFrom(n: Node, i: nat): seq<ElementRef>
    decreases n, 0, |Kids(n)| - i
  {
    if i >= |Kids(n)| then []
    else
      var c := n.children[i];
      (if c.Element? then [ElementRef(c, n, i)] + Descendants(c) else []) + DescendantsFrom(n, i + 1)
  }

  /** Every element reported below a node really sits at the reported place in its parent. */
  lemma {:induction false} DescendantsWellPlaced(n: Node)
    ensures forall k :: 0 <= k < |Descendants(n)| ==> WellPlaced(Descendants(n)[k])
    decreases n, 1, 0
  {
    DescendantsFromWellPlaced(n, 0);
  }

  lemma {:induction false} DescendantsFromWellPlaced(n: Node, i: nat)
    ensures forall k :: 0 <= k < |DescendantsFrom(n, i)| ==> WellPlaced(DescendantsFrom(n, i)[k])
    decreases n, 0, |Kids(n)| - i
  {
    if i < |Kids(n)| {
      var c := n.children[i];
      DescendantsFromWellPlaced(n, i + 1);
      if c.Element? {
        DescendantsWellPlaced(c);
        var head := [ElementRef(c, n, i)] + Descendants(c);
        assert WellPlaced(ElementRef(c, n, i));
        assert forall k :: 0 <= k < |head| ==> WellPlaced(head[k]) by {
          forall k | 0 <= k < |head| ensures WellPlaced(head[k]) {
            if k > 0 {
              assert head[k] == Descendants(c)[k - 1];
            }
          }
        }
        var all := head + DescendantsFrom(n, i + 1);
        assert forall k :: 0 <= k < |all| ==> WellPlaced(all[k]) by {
          forall k | 0 <= k < |all| ensures WellPlaced(all[k]) {
            if k >= |head| {
              assert all[k] == DescendantsFrom(n, i + 1)[k - |head|];
            }
          }
        }
      }
    }
  }

  // ---------------------------------------------------------------------------------------
  // Selectors
  // ---------------------------------------------------------------------------------------

  /** The selectors the roster parser uses: `.c`, `:not(.c)`, `.c:has(tag)` and `.c[attr="value"]`. */
  datatype Selector =
    | ClassSel(cls: string)
    | NotClass(cls: string)
    | ClassHasTag(cls: string, tag: string)
    | ClassAttr(cls: string, attr: string, value: string)

  /** `classList.contains(c)` */
  predicate HasClass(n: Node, c: string) {
    n.Element? && c in n.classes
  }

  predicate HasDescendantTag(n: Node, tag: string) {
    var ds := Descendants(n);
    exists k :: 0 <= k < |ds| && ds[k].node.Element? && ds[k].node.tag == tag
  }

  predicate Matches(n: Node, sel: Selector) {
    n.Element? &&
    match sel
    case ClassSel(c) => c in n.classes
    case NotClass(c) => c !in n.classes
    case ClassHasTag(c, t) => c in n.classes && HasDescendantTag(n, t)
    case ClassAttr(c, a, v) => c in n.classes && a in n.attrs && n.attrs[a] == v
  }

  /** The entries of `refs` whose element matches `sel`, in their order. */
  function Select(refs: seq<ElementRef>, sel: Selector): (r: seq<ElementRef>)
    ensures |r| <= |refs|
  {
    if |refs| == 0 then []
    else (if Matches(refs[0].node, sel) then [refs[0]] else []) + Select(refs[1..], sel)
  }

  /** A selection holds exactly the entries that match. */
  lemma {:induction false} SelectMembers(refs: seq<ElementRef>, sel: Selector)
    ensures forall x :: x in Select(refs, sel) <==> x in refs && Matches(x.node, sel)
  {
    if |refs| > 0 {
      SelectMembers(refs[1..], sel);
      assert refs == [refs[0]] + refs[1..];
    }
  }

  /** `n.querySelectorAll(sel)`: the matching elements strictly below `n`, in document order. */
  function QuerySelectorAll(n: Node, sel: Selector): seq<ElementRef> {
    Select(Descendants(n), sel)
  }

  /** The position in `refs` of the first entry at or after `i` whose element matches `sel`. */
  function FirstMatchFrom(refs: seq<ElementRef>, sel: Selector, i: nat): (r: Option<nat>)
    ensures r.Some? ==> i <= r.value < |refs| && Matches(refs[r.value].node, sel)
    ensures r.Some? ==> forall j :: i <= j < r.value ==> !Matches(refs[j].node, sel)
    ensures r.None? ==> forall j :: i <= j < |refs| ==> !Matches(refs[j].node, sel)
    decreases |refs| - i
  {
    if i >= |refs| then None
    else if Matches(refs[i].node, sel) then Some(i)
    else FirstMatchFrom(refs, sel, i + 1)
  }

  /** `n.querySelector(sel)`: the first matching element strictly below `n` in document order, or null. */
  function QuerySelector(n: Node, sel: Selector): Option<ElementRef> {
    match FirstMatchFrom(Descendants(n), sel, 0)
    case Some(k) => Some(Descendants(n)[k])
    case None => None
  }

  /** The first element of a selection is what `querySelector` returns. */
  lemma {:induction false} SelectHeadIsFirstMatch(refs: seq<ElementRef>, sel: Selector, i: nat)
    requires i <= |refs|
    ensures FirstMatchFrom(refs, sel, i).None? <==> Select(refs[i..], sel) == []
    ensures FirstMatchFrom(refs, sel, i).Some? ==>
              Select(refs[i..], sel)[0] == refs[FirstMatchFrom(refs, sel, i).value]
    decreases |refs| - i
  {
    if i < |refs| {
      assert refs[i..][1..] == refs[i + 1..];
      SelectHeadIsFirstMatch(refs, sel, i + 1);
    }
  }

  /** `querySelector` is the head of `querySelectorAll`. */
  lemma {:induction false} QuerySelectorIsFirst(n: Node, sel: Selector)
    ensures QuerySelector(n, sel).None? <==> QuerySelectorAll(n, sel) == []
    ensures QuerySelector(n, sel).Some? ==> QuerySelector(n, sel).value == QuerySelectorAll(n, sel)[0]
  {
    assert Descendants(n)[0..] == Descendants(n);
    SelectHeadIsFirstMatch(Descendants(n), sel, 0);
  }

  // ---------------------------------------------------------------------------------------
  // Siblings, parents, documents
  // ---------------------------------------------------------------------------------------

  /** The first element child of `p` at or after index `i`. */
  function NextElementFrom(p: Node, i: nat): (r: Option<ElementRef>)
    ensures r.Some? ==> WellPlaced(r.value) && r.value.parent == p && i <= r.value.index
    ensures r.Some? ==> forall j :: i <= j < r.value.index ==> !Kids(p)[j].Element?
    ensures r.None? ==> forall j :: i <= j < |Kids(p)| ==> !Kids(p)[j].Element?
    decreases |Kids(p)| - i
  {
    if i >= |Kids(p)| then None
    else if p.children[i].Element? then Some(ElementRef(p.children[i], p, i))
    else NextElementFrom(p, i + 1)
  }

  /** `nextElementSibling`: the next element among the parent's children, skipping text nodes. */
  function NextElementSibling(r: ElementRef): Option<ElementRef> {
    NextElementFrom(r.parent, r.index + 1)
  }

  /** `parentElement` of an element found below some element. */
  function ParentElement(r: ElementRef): Node {
    r.parent
  }

  /** The document node, whose only child is the document element. */
  function DocumentNode(doc: Document): Node {
    Element("#document", {}, map[], [doc.root])
  }

  /** `document.querySelectorAll(sel)`: every matching element of the document, the document
      element included, in document order. */
  function DocumentQuerySelectorAll(doc: Document, sel: Selector): seq<ElementRef> {
    QuerySelectorAll(DocumentNode(doc), sel)
  }
}
