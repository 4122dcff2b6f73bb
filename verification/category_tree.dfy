/**
 * The category hierarchy engine of `category.repo.ts`: `buildTree` turns a flat list of
 * categories carrying a materialised `path` into a forest, and `getFlatTree` turns the forest
 * back into a flat list in depth-first order.
 *
 * `buildTree` is modelled on the sequence it actually iterates over, the input stably sorted by
 * path length. The node at index `i` of that sequence is either a root, a child of an earlier
 * node found through the path index, or dropped; the forest is the unfolding of those links.
 */
module CategoryTree {
  import opened Wrappers

  /** Number of characters each level of the tree adds to a materialised path. */
  const SegmentWidth: nat := 4

  /** A category as stored: the flat representation, without `children`. */
  datatype Category = Category(
    id: string,
    name: string,
    slug: Option<string>,
    path: string,
    depth: int,
    numchild: int)

  /**
   * A category of the nested representation: a `Leaf` has no `children` property at all, as
   * on a node that received no child; a `Branch` carries one.
   */
  datatype CategoryItem = Leaf(base: Category) | Branch(base: Category, children: seq<CategoryItem>)

  /**
   * The path of the parent: the path without its last segment. Like JavaScript's
   * `slice(0, -4)`, a path shorter than one segment gives the empty string.
   */
  function ParentPath(path: string): (parent: string)
    ensures |path| >= SegmentWidth ==> |parent| == |path| - SegmentWidth && parent <= path
    ensures |path| < SegmentWidth ==> parent == ""
  {
    if |path| >= SegmentWidth then path[..|path| - SegmentWidth] else ""
  }

  // ---------------------------------------------------------------------------------------
  // The stable sort by path length
  // ---------------------------------------------------------------------------------------

  predicate SortedByPathLength(s: seq<Category>) {
    forall i, j :: 0 <= i < j < |s| ==> |s[i].path| <= |s[j].path|
  }

  /** Places `c` in front of the first element of `sorted` whose path is not shorter. */
  function Insert(c: Category, sorted: seq<Category>): (r: seq<Category>)
    ensures multiset(r) == multiset(sorted) + multiset{c}
  {
    if sorted == [] || |c.path| <= |sorted[0].path| then [c] + sorted
    else
      assert sorted == [sorted[0]] + sorted[1..];
      [sorted[0]] + Insert(c, sorted[1..])
  }

  lemma {:induction false} InsertSorted(c: Category, sorted: seq<Category>)
    requires SortedByPathLength(sorted)
    ensures SortedByPathLength(Insert(c, sorted))
  {
    if sorted == [] || |c.path| <= |sorted[0].path| {
    } else {
      var rest := Insert(c, sorted[1..]);
      InsertSorted(c, sorted[1..]);
      forall x | x in rest
        ensures |sorted[0].path| <= |x.path|
      {
        assert x in multiset(rest);
      }
    }
  }

  /**
   * `[...categories].sort((a, b) => a.path.length - b.path.length)`: a copy of the input,
   * ordered by path length; `Array.prototype.sort` is stable, and so is this insertion sort.
   */
  function SortByPathLength(categories: seq<Category>): (sorted: seq<Category>)
    ensures multiset(sorted) == multiset(categories)
    ensures SortedByPathLength(sorted)
  {
    if categories == [] then []
    else
      assert categories == [categories[0]] + categories[1..];
      var rest := SortByPathLength(categories[1..]);
      InsertSorted(categories[0], rest);
      Insert(categories[0], rest)
  }

  /** The elements of `s` whose path has length `len`, in order. */
  function WithPathLength(s: seq<Category>, len: nat): seq<Category> {
    if s == [] then []
    else if |s[0].path| == len then [s[0]] + WithPathLength(s[1..], len)
    else WithPathLength(s[1..], len)
  }

  /** The elements of `s` whose depth is `depth`, in order. */
  function WithDepth(s: seq<Category>, depth: int): seq<Category> {
    if s == [] then []
    else if s[0].depth == depth then [s[0]] + WithDepth(s[1..], depth)
    else WithDepth(s[1..], depth)
  }

  // ---------------------------------------------------------------------------------------
  // Where `buildTree` puts each node of the sorted sequence
  // ---------------------------------------------------------------------------------------

  /** The fate of one node: a root, a child of an earlier node, or silently dropped. */
  datatype Placement = Root | ChildOf(parent: nat) | Dropped

  /** The index the path index `map[path]` holds after the nodes before `hi` were processed. */
  function LastWithPath(nodes: seq<Category>, path: string, hi: nat): (r: Option<nat>)
    requires hi <= |nodes|
    ensures r.Some? ==> r.value < hi && nodes[r.value].path == path
    ensures r.Some? ==> forall k :: r.value < k < hi ==> nodes[k].path != path
    ensures r.None? ==> forall k :: 0 <= k < hi ==> nodes[k].path != path
  {
    if hi == 0 then None
    else if nodes[hi - 1].path == path then Some(hi - 1)
    else LastWithPath(nodes, path, hi - 1)
  }

  /**
   * The placement of the node at index `i` of the sorted sequence. The node is registered in
   * the path index before its parent is looked up, and a later node with the same path
   * replaces an earlier one in the index.
   */
  function PlacementOf(nodes: seq<Category>, i: nat): (p: Placement)
    requires i < |nodes|
    ensures p.Root? <==> nodes[i].depth == nodes[0].depth
    ensures p.ChildOf? ==>
      && p.parent <= i
      && nodes[p.parent].path == ParentPath(nodes[i].path)
      && forall k :: p.parent < k <= i ==> nodes[k].path != ParentPath(nodes[i].path)
    ensures p.Dropped? <==>
      && nodes[i].depth != nodes[0].depth
      && forall k :: 0 <= k <= i ==> nodes[k].path != ParentPath(nodes[i].path)
  {
    if nodes[i].depth == nodes[0].depth then Root
    else
      match LastWithPath(nodes, ParentPath(nodes[i].path), i + 1)
      case None => Dropped
      case Some(j) => ChildOf(j)
  }

  /** The indices in `[from, |nodes|)` whose placement is `p`, in increasing order. */
  function Matching(nodes: seq<Category>, p: Placement, from: nat): (ks: seq<nat>)
    requires from <= |nodes|
    decreases |nodes| - from
    ensures forall m :: 0 <= m < |ks| ==> from <= ks[m] < |nodes| && PlacementOf(nodes, ks[m]) == p
    ensures forall k :: from <= k < |nodes| && PlacementOf(nodes, k) == p ==> k in ks
    ensures forall m, m' :: 0 <= m < m' < |ks| ==> ks[m] < ks[m']
  {
    if from == |nodes| then []
    else if PlacementOf(nodes, from) == p then [from] + Matching(nodes, p, from + 1)
    else Matching(nodes, p, from + 1)
  }

  /** The indices of the children of node `i`, in the order they were pushed. */
  function Kids(nodes: seq<Category>, i: nat): seq<nat>
    requires i < |nodes|
  {
    Matching(nodes, ChildOf(i), i + 1)
  }

  /** The indices of the roots, in the order they were pushed. */
  function RootIndices(nodes: seq<Category>): seq<nat> {
    Matching(nodes, Root, 0)
  }

  /** The subtree `buildTree` hangs under the node at index `i`. */
  function Node(nodes: seq<Category>, i: nat): CategoryItem
    requires i < |nodes|
    decreases |nodes| - i, 1, 0
  {
    var kids := Kids(nodes, i);
    if kids == [] then Leaf(nodes[i]) else Branch(nodes[i], Nodes(nodes, kids, i))
  }

  /** The subtrees of the nodes `ks`, all of whose indices exceed `bound`. */
  function Nodes(nodes: seq<Category>, ks: seq<nat>, bound: int): (items: seq<CategoryItem>)
    requires forall m :: 0 <= m < |ks| ==> bound < ks[m] < |nodes|
    decreases |nodes| - bound, 0, |ks|
    ensures |items| == |ks|
    ensures forall m :: 0 <= m < |ks| ==> items[m] == Node(nodes, ks[m])
  {
    if ks == [] then [] else [Node(nodes, ks[0])] + Nodes(nodes, ks[1..], bound)
  }

  /**
   * `buildTree`: sorts a copy of the input by path length, makes every node at the depth of
   * the first sorted node a root, and attaches every other node to the node whose path is its
   * own minus the last segment, dropping it when there is none.
   */
  function BuildTree(categories: seq<Category>): (roots: seq<CategoryItem>)
    ensures roots == [] <==> categories == []
    ensures |roots| <= |categories|
  {
    if |categories| == 0 then []
    else
      var nodes := SortByPathLength(categories);
      assert |nodes| == |multiset(nodes)| == |categories|;
      assert 0 in RootIndices(nodes);
      var ks := RootIndices(nodes);
      RootCountBound(nodes, ks, 0);
      Nodes(nodes, ks, -1)
  }

  /** Helper: a strictly increasing sequence of indices below `|nodes|` is no longer than `nodes`. */
  lemma {:induction false} RootCountBound(nodes: seq<Category>, ks: seq<nat>, from: nat)
    requires forall m :: 0 <= m < |ks| ==> from <= ks[m] < |nodes|
    requires forall m, m' :: 0 <= m < m' < |ks| ==> ks[m] < ks[m']
    requires from <= |nodes|
    ensures |ks| <= |nodes| - from
    decreases |ks|
  {
    if ks != [] {
      RootCountBound(nodes, ks[1..], ks[0] + 1);
    }
  }

  // ---------------------------------------------------------------------------------------
  // `getFlatTree`
  // ---------------------------------------------------------------------------------------

  /** The reference pre-order: each node, then its subtree, then the following siblings. */
  function PreOrder(items: seq<CategoryItem>): seq<Category>
    decreases items, 1
  {
    if items == [] then [] else [items[0].base] + Below(items[0]) + PreOrder(items[1..])
  }

  /** The pre-order of the descendants of `item`. */
  function Below(item: CategoryItem): seq<Category>
    decreases item, 2
  {
    match item
    case Leaf(_) => []
    case Branch(_, cs) => PreOrder(cs)
  }

  /**
   * `getFlatTree`: the `reduce` over the roots with an accumulator, appending each node
   * without its `children` and then the flattened children.
   */
  function GetFlatTree(roots: seq<CategoryItem>): (flat: seq<Category>)
    decreases roots, 1
    ensures flat == PreOrder(roots)
  {
    FlattenInto([], roots)
  }

  /** One step of the `reduce` of `getFlatTree`, from accumulator `acc` over `items`. */
  function FlattenInto(acc: seq<Category>, items: seq<CategoryItem>): (flat: seq<Category>)
    decreases items, 0
    ensures flat == acc + PreOrder(items)
  {
    if items == [] then acc
    else
      var next := acc + [items[0].base] + FlattenChildren(items[0]);
      var flat := FlattenInto(next, items[1..]);
      assert flat == acc + ([items[0].base] + Below(items[0]) + PreOrder(items[1..]));
      flat
  }

  /** The flattened children of one item: nothing for a leaf. */
  function FlattenChildren(item: CategoryItem): (flat: seq<Category>)
    decreases item, 2
    ensures flat == Below(item)
  {
    match item
    case Leaf(_) => []
    case Branch(_, cs) => GetFlatTree(cs)
  }
}
