/** The parsed XML document as a tree, and the document-order walk that stands in for the
    XPath queries (`//x`, `.//x`, `find`) and for `itersiblings()`. Namespaces are dropped:
    an element is known by its local name. */
module Xml {
  import opened Wrappers

  /** An element: local name, attributes in document order, its `.text` (None when the
      element has no leading text) and its child elements. */
  datatype Element = Element(local: string, attrs: seq<(string, string)>, text: Option<string>,
                             children: seq<Element>)

  /** An element met in document order, with the siblings that follow it
      (what `itersiblings()` yields). */
  datatype Node = Node(elem: Element, following: seq<Element>)

  /** Preorder walk of a forest: each element, then its subtree, then its later siblings. */
  function Walk(forest: seq<Element>): (nodes: seq<Node>)
    decreases forest
  {
    if forest == [] then []
    else [Node(forest[0], forest[1..])] + Subtree(forest[0]) + Walk(forest[1..])
  }

  function Subtree(e: Element): seq<Node>
    decreases e
  {
    Walk(e.children)
  }

  /** `//x` over the document: the root and everything below it. */
  function AllNodes(root: Element): seq<Node> { Walk([root]) }

  /** `.//x` from the root: everything strictly below it. */
  function Descendants(root: Element): seq<Node> { Walk(root.children) }

  /** The first element below the root with the given local name (`root.find('.//p:name')`). */
  function FindFirst(root: Element, local: string): (r: Option<Element>)
    ensures r.None? <==> forall k :: 0 <= k < |Descendants(root)| ==> Descendants(root)[k].elem.local != local
    ensures r.Some? ==> r.value.local == local
    ensures r.Some? ==>
              exists k :: 0 <= k < |Descendants(root)| && Descendants(root)[k].elem == r.value &&
                          forall j :: 0 <= j < k ==> Descendants(root)[j].elem.local != local
  {
    FirstNamed(Descendants(root), local, 0)
  }

  function FirstNamed(nodes: seq<Node>, local: string, from: nat): (r: Option<Element>)
    requires from <= |nodes|
    requires forall j :: 0 <= j < from ==> nodes[j].elem.local != local
    ensures r.None? <==> forall k :: 0 <= k < |nodes| ==> nodes[k].elem.local != local
    ensures r.Some? ==> r.value.local == local
    ensures r.Some? ==>
              exists k :: 0 <= k < |nodes| && nodes[k].elem == r.value &&
                          forall j :: 0 <= j < k ==> nodes[j].elem.local != local
    decreases |nodes| - from
  {
    if from == |nodes| then None
    else if nodes[from].elem.local == local then Some(nodes[from].elem)
    else FirstNamed(nodes, local, from + 1)
  }

  /** The element of one list of siblings, each with the siblings after it. */
  function Pairs(list: seq<Element>): (ps: seq<Node>)
    ensures |ps| == |list| && forall j :: 0 <= j < |list| ==> ps[j] == Node(list[j], list[j + 1..])
  {
    if list == [] then [] else [Node(list[0], list[1..])] + Pairs(list[1..])
  }

  /** The pairs of every list of siblings in the forest: the forest itself, then the
      children of each of its elements, and so on down. */
  function AllPairs(forest: seq<Element>): seq<Node>
    decreases forest, 1
  {
    Pairs(forest) + PairsBelow(forest)
  }

  function PairsBelow(forest: seq<Element>): seq<Node>
    decreases forest, 0
  {
    if forest == [] then [] else PairsOfChildren(forest[0]) + PairsBelow(forest[1..])
  }

  function PairsOfChildren(e: Element): seq<Node>
    decreases e
  {
    AllPairs(e.children)
  }

  /** The walk meets each element of every list of siblings, at any depth, exactly once and
      together with exactly the siblings after it: it is a reordering of `AllPairs`. */
  lemma {:induction false} WalkIsAllPairs(forest: seq<Element>)
    ensures multiset(Walk(forest)) == multiset(AllPairs(forest))
    decreases forest
  {
    if forest != [] {
      WalkIsAllPairs(forest[1..]);
      ChildrenWalkIsAllPairs(forest[0]);
      assert Pairs(forest) == [Node(forest[0], forest[1..])] + Pairs(forest[1..]);
      assert Walk(forest) == [Node(forest[0], forest[1..])] + Subtree(forest[0]) + Walk(forest[1..]);
      assert PairsBelow(forest) == PairsOfChildren(forest[0]) + PairsBelow(forest[1..]);
    }
  }

  lemma {:induction false} ChildrenWalkIsAllPairs(e: Element)
    ensures multiset(Subtree(e)) == multiset(PairsOfChildren(e))
    decreases e
  {
    WalkIsAllPairs(e.children);
  }

  /** Every root-level element of the forest is met by the walk, together with exactly the
      siblings after it: `itersiblings()` of `forest[i]` is `forest[i+1..]`. */
  lemma {:induction false} WalkVisitsForest(forest: seq<Element>, i: nat)
    requires i < |forest|
    ensures Node(forest[i], forest[i + 1..]) in Walk(forest)
    decreases forest
  {
    if i > 0 {
      WalkVisitsForest(forest[1..], i - 1);
      assert forest[1..][i - 1..] == forest[i..];
      assert forest[1..][i - 1] == forest[i];
      assert forest[1..][i..] == forest[i + 1..];
    }
  }
}
