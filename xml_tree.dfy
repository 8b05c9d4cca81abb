/**
 * The parsed XML document as an element tree, and the descendant search that
 * BeautifulSoup's `find(name)` performs on it.
 */
module XmlTree {
  import opened Wrappers

  /** One element of a parsed document: its tag name, its child elements in
      document order, and its string value (`.text`, all the character data
      beneath it as the parser concatenates it). The document itself is the
      root element, whose name plays no part in any search. */
  datatype Element = Element(name: string, children: seq<Element>, text: string)

  /** Every element of a forest in document order: an element, then all of
      its descendants, then its following siblings and theirs. */
  function Preorder(nodes: seq<Element>): seq<Element>
  {
    if nodes == [] then [] else [nodes[0]] + Preorder(nodes[0].children) + Preorder(nodes[1..])
  }

  /** The proper descendants of `e` in document order (`e.descendants`). */
  function Descendants(e: Element): seq<Element>
  {
    Preorder(e.children)
  }

  /** The position of the first element named `name` in `s`, or `|s|` when there is none. */
  function FirstIndex(s: seq<Element>, name: string): (k: nat)
    ensures k <= |s|
    ensures forall j :: 0 <= j < k ==> s[j].name != name
    ensures k < |s| ==> s[k].name == name
  {
    if s == [] then 0
    else if s[0].name == name then 0
    else 1 + FirstIndex(s[1..], name)
  }

  /** The first element of `s` named `name`: the reference meaning of a search in document order. */
  function FirstNamed(s: seq<Element>, name: string): Option<Element>
  {
    var k := FirstIndex(s, name);
    if k < |s| then Some(s[k]) else None
  }

  /** Whether some element of `s` is named `name`. */
  predicate HasNamed(s: seq<Element>, name: string)
  {
    exists i :: 0 <= i < |s| && s[i].name == name
  }

  /** A search over a concatenation looks in the second part only when the first has no match. */
  lemma FirstNamedConcat(a: seq<Element>, b: seq<Element>, name: string)
    ensures FirstNamed(a + b, name) == if FirstNamed(a, name).Some? then FirstNamed(a, name) else FirstNamed(b, name)
  {
    var ka, kab := FirstIndex(a, name), FirstIndex(a + b, name);
    assert forall j :: 0 <= j < |a| ==> (a + b)[j] == a[j];
    if ka == |a| {
      var kb := FirstIndex(b, name);
      assert forall j :: |a| <= j < |a| + kb ==> (a + b)[j] == b[j - |a|];
      if kb < |b| {
        assert (a + b)[|a| + kb] == b[kb];
      }
    }
  }

  /** `FirstNamed` finds something exactly when something is there to find. */
  lemma FirstNamedFinds(s: seq<Element>, name: string)
    ensures FirstNamed(s, name).Some? <==> HasNamed(s, name)
    ensures FirstNamed(s, name).Some? ==> FirstNamed(s, name).value.name == name
  {
    var k := FirstIndex(s, name);
    if HasNamed(s, name) {
      var i :| 0 <= i < |s| && s[i].name == name;
      assert k <= i;
    }
  }

  /** The recursive search BeautifulSoup performs: try each element, then
      its subtree, then its following siblings. */
  function FindIn(nodes: seq<Element>, name: string): Option<Element>
  {
    if nodes == [] then None
    else if nodes[0].name == name then Some(nodes[0])
    else match FindIn(nodes[0].children, name)
      case Some(found) => Some(found)
      case None => FindIn(nodes[1..], name)
  }

  /** The recursive search returns the first match in document order. */
  lemma {:induction false} FindInDocumentOrder(nodes: seq<Element>, name: string)
    ensures FindIn(nodes, name) == FirstNamed(Preorder(nodes), name)
  {
    if nodes != [] {
      var head, rest := nodes[0], nodes[1..];
      FindInDocumentOrder(head.children, name);
      FindInDocumentOrder(rest, name);
      FirstNamedConcat([head] + Preorder(head.children), Preorder(rest), name);
      FirstNamedConcat([head], Preorder(head.children), name);
    }
  }

  /** `e.find(name)`: the search over the proper descendants of `e`; what
      it returns is characterised by `FindIsFirstInDocumentOrder`. */
  function Find(e: Element, name: string): (r: Option<Element>)
    ensures r.Some? ==> r.value.name == name
  {
    FindInDocumentOrder(e.children, name);
    FirstNamedFinds(Descendants(e), name);
    FindIn(e.children, name)
  }

  /** `e.find(name)` is the first proper descendant of `e` named `name` in
      document order, however deep it lies, and `None` exactly when no
      descendant has that name. */
  lemma FindIsFirstInDocumentOrder(e: Element, name: string)
    ensures Find(e, name) == FirstNamed(Descendants(e), name)
    ensures Find(e, name).Some? <==> HasNamed(Descendants(e), name)
  {
    FindInDocumentOrder(e.children, name);
    FirstNamedFinds(Descendants(e), name);
  }
}
