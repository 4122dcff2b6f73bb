/**
 * Properties of `buildTree` and `getFlatTree`: the sort is stable, the roots are the nodes at
 * the depth of the first sorted node, dropped nodes take their whole subtree with them, and on
 * a well-formed input flattening the built forest gives back exactly the input's elements.
 *
 * The proofs work on node indices of the sorted sequence. `Sub(i)` lists the indices of the
 * subtree under node `i` in pre-order and `Descends(i, k)` says that following parent links
 * from `i` reaches `k`.
 */
module CategoryTreeFacts {
  import opened Wrappers
  import opened CategoryTree

  // ---------------------------------------------------------------------------------------
  // The sort is stable
  // ---------------------------------------------------------------------------------------

  lemma {:induction false} InsertKeepsLengthClass(c: Category, t: seq<Category>, len: nat)
    ensures WithPathLength(Insert(c, t), len)
         == if |c.path| == len then [c] + WithPathLength(t, len) else WithPathLength(t, len)
  {
    if t == [] || |c.path| <= |t[0].path| {
      assert ([c] + t)[1..] == t;
    } else {
      InsertKeepsLengthClass(c, t[1..], len);
      assert ([t[0]] + Insert(c, t[1..]))[1..] == Insert(c, t[1..]);
    }
  }

  /**
   * Stability: among the categories whose paths have the same length, the sorted copy keeps
   * the input order.
   */
  lemma {:induction false} SortIsStable(categories: seq<Category>, len: nat)
    ensures WithPathLength(SortByPathLength(categories), len) == WithPathLength(categories, len)
  {
    if categories != [] {
      SortIsStable(categories[1..], len);
      InsertKeepsLengthClass(categories[0], SortByPathLength(categories[1..]), len);
    }
  }

  // ---------------------------------------------------------------------------------------
  // The forest in terms of node indices
  // ---------------------------------------------------------------------------------------

  /** The indices of the subtree under node `i`, in pre-order. */
  function Sub(nodes: seq<Category>, i: nat): (r: seq<nat>)
    requires i < |nodes|
    decreases |nodes| - i, 1, 0
    ensures forall m :: 0 <= m < |r| ==> i <= r[m] < |nodes|
  {
    [i] + Pre(nodes, Kids(nodes, i), i)
  }

  /** The indices of the subtrees under the nodes `ks`, one subtree after the other. */
  function Pre(nodes: seq<Category>, ks: seq<nat>, bound: int): (r: seq<nat>)
    requires forall m :: 0 <= m < |ks| ==> bound < ks[m] < |nodes|
    decreases |nodes| - bound, 0, |ks|
    ensures forall m :: 0 <= m < |r| ==> bound < r[m] < |nodes|
  {
    if ks == [] then [] else Sub(nodes, ks[0]) + Pre(nodes, ks[1..], bound)
  }

  /** The categories at the indices `ps`. */
  function Project(nodes: seq<Category>, ps: seq<nat>): (r: seq<Category>)
    requires forall m :: 0 <= m < |ps| ==> ps[m] < |nodes|
    ensures |r| == |ps|
    ensures forall m :: 0 <= m < |ps| ==> r[m] == nodes[ps[m]]
  {
    if ps == [] then [] else [nodes[ps[0]]] + Project(nodes, ps[1..])
  }

  function Range(lo: nat, hi: nat): (r: seq<nat>)
    requires lo <= hi
    decreases hi - lo
    ensures |r| == hi - lo
    ensures forall m :: 0 <= m < |r| ==> r[m] == lo + m
  {
    if lo == hi then [] else [lo] + Range(lo + 1, hi)
  }

  lemma {:induction false} ProjectAppend(nodes: seq<Category>, a: seq<nat>, b: seq<nat>)
    requires forall m :: 0 <= m < |a| ==> a[m] < |nodes|
    requires forall m :: 0 <= m < |b| ==> b[m] < |nodes|
    ensures Project(nodes, a + b) == Project(nodes, a) + Project(nodes, b)
  {
    if a != [] {
      assert (a + b)[0] == a[0];
      assert (a + b)[1..] == a[1..] + b;
      ProjectAppend(nodes, a[1..], b);
    } else {
      assert a + b == b;
    }
  }

  lemma {:induction false} ProjectRange(nodes: seq<Category>, lo: nat)
    requires lo <= |nodes|
    decreases |nodes| - lo
    ensures Project(nodes, Range(lo, |nodes|)) == nodes[lo..]
  {
    if lo < |nodes| {
      ProjectRange(nodes, lo + 1);
      assert nodes[lo..] == [nodes[lo]] + nodes[lo + 1..];
    }
  }

  /**
   * Taking the categories at fewer indices gives fewer categories: the multiset of the
   * categories at `ps` is within that at `qs` when the indices are.
   */
  lemma {:induction false} ProjectSub(nodes: seq<Category>, ps: seq<nat>, qs: seq<nat>)
    requires forall m :: 0 <= m < |ps| ==> ps[m] < |nodes|
    requires forall m :: 0 <= m < |qs| ==> qs[m] < |nodes|
    requires multiset(ps) <= multiset(qs)
    ensures multiset(Project(nodes, ps)) <= multiset(Project(nodes, qs))
    decreases |ps|
  {
    if ps != [] {
      var x := ps[0];
      assert x in multiset(qs);
      var k :| 0 <= k < |qs| && qs[k] == x;
      var others := Without(qs, k);
      ProjectRemove(nodes, qs, k);
      assert multiset(Project(nodes, ps[1..])) <= multiset(Project(nodes, others)) by {
        RemoveOne(ps, qs, k);
        ProjectSub(nodes, ps[1..], others);
      }
      assert Project(nodes, ps) == [nodes[x]] + Project(nodes, ps[1..]);
    }
  }

  /** The indices with the one at `k` taken out. */
  function Without(qs: seq<nat>, k: nat): seq<nat>
    requires k < |qs|
  {
    qs[..k] + qs[k + 1..]
  }

  /** Removing the index at `k` removes one copy of its category, and nothing else. */
  lemma ProjectRemove(nodes: seq<Category>, qs: seq<nat>, k: nat)
    requires forall m :: 0 <= m < |qs| ==> qs[m] < |nodes|
    requires k < |qs|
    ensures forall m :: 0 <= m < |Without(qs, k)| ==> Without(qs, k)[m] < |nodes|
    ensures multiset(Project(nodes, qs))
      == multiset{nodes[qs[k]]} + multiset(Project(nodes, Without(qs, k)))
  {
    var a, b := qs[..k], qs[k + 1..];
    assert Without(qs, k) == a + b;
    assert forall m :: 0 <= m < |a + b| ==> (a + b)[m] < |nodes| by {
      forall m | 0 <= m < |a + b|
        ensures (a + b)[m] < |nodes|
      {
        if m < k {
          assert (a + b)[m] == qs[m];
        } else {
          assert (a + b)[m] == qs[m + 1];
        }
      }
    }
    ProjectSplit(nodes, qs, k);
    ProjectAppend(nodes, a, b);
    MultisetMiddle(Project(nodes, a), nodes[qs[k]], Project(nodes, b));
  }

  /** The multiset of the categories at some indices only depends on the multiset of indices. */
  lemma ProjectPermutation(nodes: seq<Category>, ps: seq<nat>, qs: seq<nat>)
    requires forall m :: 0 <= m < |ps| ==> ps[m] < |nodes|
    requires forall m :: 0 <= m < |qs| ==> qs[m] < |nodes|
    requires multiset(ps) == multiset(qs)
    ensures multiset(Project(nodes, ps)) == multiset(Project(nodes, qs))
  {
    ProjectSub(nodes, ps, qs);
    ProjectSub(nodes, qs, ps);
  }

  lemma MultisetMiddle<T>(a: seq<T>, y: T, b: seq<T>)
    ensures multiset(a + [y] + b) == multiset{y} + multiset(a + b)
  {
  }

  lemma RemoveOne<T>(ps: seq<T>, qs: seq<T>, k: nat)
    requires ps != [] && k < |qs| && qs[k] == ps[0] && multiset(ps) <= multiset(qs)
    ensures multiset(ps[1..]) <= multiset(qs[..k] + qs[k + 1..])
  {
    var x := ps[0];
    var a, b := qs[..k], qs[k + 1..];
    assert ps == [x] + ps[1..];
    assert qs == a + [x] + b;
    var mp, mq := multiset(ps[1..]), multiset(a + b);
    assert multiset(ps) == multiset{x} + mp;
    assert multiset(qs) == multiset{x} + mq by {
      MultisetMiddle(a, x, b);
    }
    forall y ensures mp[y] <= mq[y] {
      assert (multiset{x} + mp)[y] <= (multiset{x} + mq)[y];
    }
  }

  lemma {:induction false} ProjectSplit(nodes: seq<Category>, qs: seq<nat>, k: nat)
    requires forall m :: 0 <= m < |qs| ==> qs[m] < |nodes|
    requires k < |qs|
    ensures Project(nodes, qs) == Project(nodes, qs[..k]) + [nodes[qs[k]]] + Project(nodes, qs[k + 1..])
    decreases k
  {
    if k == 0 {
      assert qs[..0] == [] && qs[1..] == qs[k + 1..];
    } else {
      var tail := qs[1..];
      ProjectSplit(nodes, tail, k - 1);
      assert tail[..k - 1] == qs[..k][1..];
      assert tail[k - 1 + 1..] == qs[k + 1..];
      assert tail[k - 1] == qs[k];
    }
  }

  /** The pre-order of the subtree built for node `i` lists the categories at `Sub(i)`. */
  lemma {:induction false} NodeFlattens(nodes: seq<Category>, i: nat)
    requires i < |nodes|
    decreases |nodes| - i, 1, 0
    ensures Node(nodes, i).base == nodes[i]
    ensures [nodes[i]] + Below(Node(nodes, i)) == Project(nodes, Sub(nodes, i))
  {
    var kids := Kids(nodes, i);
    if kids != [] {
      NodesFlatten(nodes, kids, i);
    }
    ProjectAppend(nodes, [i], Pre(nodes, kids, i));
  }

  lemma {:induction false} NodesFlatten(nodes: seq<Category>, ks: seq<nat>, bound: int)
    requires forall m :: 0 <= m < |ks| ==> bound < ks[m] < |nodes|
    decreases |nodes| - bound, 0, |ks|
    ensures PreOrder(Nodes(nodes, ks, bound)) == Project(nodes, Pre(nodes, ks, bound))
  {
    if ks != [] {
      var items := Nodes(nodes, ks, bound);
      NodeFlattens(nodes, ks[0]);
      NodesFlatten(nodes, ks[1..], bound);
      assert items[1..] == Nodes(nodes, ks[1..], bound);
      ProjectAppend(nodes, Sub(nodes, ks[0]), Pre(nodes, ks[1..], bound));
    }
  }

  /** `getFlatTree(buildTree(categories))` lists the categories at the root subtrees' indices. */
  lemma FlatTreeIndices(categories: seq<Category>)
    requires categories != []
    ensures
      var nodes := SortByPathLength(categories);
      && |nodes| == |categories|
      && GetFlatTree(BuildTree(categories)) == Project(nodes, Pre(nodes, RootIndices(nodes), -1))
  {
    var nodes := SortByPathLength(categories);
    assert |nodes| == |multiset(nodes)| == |categories|;
    NodesFlatten(nodes, RootIndices(nodes), -1);
  }

  // ---------------------------------------------------------------------------------------
  // Descent along parent links
  // ---------------------------------------------------------------------------------------

  /** Following parent links from node `i` reaches node `k` (possibly in zero steps). */
  predicate Descends(nodes: seq<Category>, i: nat, k: nat)
    requires i < |nodes|
    decreases i
  {
    || i == k
    || (var p := PlacementOf(nodes, i); p.ChildOf? && p.parent < i && Descends(nodes, p.parent, k))
  }

  lemma {:induction false} DescendsBelow(nodes: seq<Category>, i: nat, k: nat)
    requires i < |nodes| && Descends(nodes, i, k)
    ensures k <= i
    decreases i
  {
    if i != k {
      DescendsBelow(nodes, PlacementOf(nodes, i).parent, k);
    }
  }

  lemma {:induction false} DescendsTransitive(nodes: seq<Category>, i: nat, j: nat, k: nat)
    requires i < |nodes| && j < |nodes|
    requires Descends(nodes, i, j) && Descends(nodes, j, k)
    ensures Descends(nodes, i, k)
    decreases i
  {
    if i != j {
      DescendsTransitive(nodes, PlacementOf(nodes, i).parent, j, k);
    }
  }

  /** The ancestors of a node form a chain. */
  lemma {:induction false} DescendsChain(nodes: seq<Category>, i: nat, a: nat, b: nat)
    requires i < |nodes| && Descends(nodes, i, a) && Descends(nodes, i, b)
    ensures a < |nodes| && b < |nodes|
    ensures Descends(nodes, a, b) || Descends(nodes, b, a)
    decreases i
  {
    DescendsBelow(nodes, i, a);
    DescendsBelow(nodes, i, b);
    if i != a && i != b {
      DescendsChain(nodes, PlacementOf(nodes, i).parent, a, b);
    }
  }

  /** A strict descendant of `k` descends from a child of `k` that lies on its chain of parents. */
  lemma {:induction false} ChildOnChain(nodes: seq<Category>, i: nat, k: nat) returns (c: nat)
    requires i < |nodes| && Descends(nodes, i, k) && i != k
    ensures k < c <= i && PlacementOf(nodes, c) == ChildOf(k) && Descends(nodes, i, c)
    decreases i
  {
    var p := PlacementOf(nodes, i).parent;
    if p == k {
      c := i;
    } else {
      c := ChildOnChain(nodes, p, k);
    }
  }

  // ---------------------------------------------------------------------------------------
  // Counting occurrences
  // ---------------------------------------------------------------------------------------

  /** The number of positions of `ks` holding a node that `i` descends from. */
  function CountDescends(nodes: seq<Category>, i: nat, ks: seq<nat>): nat
    requires i < |nodes|
  {
    if ks == [] then 0
    else (if Descends(nodes, i, ks[0]) then 1 else 0) + CountDescends(nodes, i, ks[1..])
  }

  lemma {:induction false} CountNone(nodes: seq<Category>, i: nat, ks: seq<nat>)
    requires i < |nodes|
    requires forall m :: 0 <= m < |ks| ==> !Descends(nodes, i, ks[m])
    ensures CountDescends(nodes, i, ks) == 0
  {
    if ks != [] {
      CountNone(nodes, i, ks[1..]);
    }
  }

  lemma {:induction false} CountOne(nodes: seq<Category>, i: nat, ks: seq<nat>, m0: nat)
    requires i < |nodes| && m0 < |ks| && Descends(nodes, i, ks[m0])
    requires forall m :: 0 <= m < |ks| && m != m0 ==> !Descends(nodes, i, ks[m])
    ensures CountDescends(nodes, i, ks) == 1
  {
    if m0 == 0 {
      CountNone(nodes, i, ks[1..]);
    } else {
      CountOne(nodes, i, ks[1..], m0 - 1);
    }
  }

  /** Node `i` occurs below exactly one child of `k` when it is a strict descendant of `k`. */
  lemma {:induction false} KidsCount(nodes: seq<Category>, i: nat, k: nat)
    requires i < |nodes| && k < |nodes|
    ensures CountDescends(nodes, i, Kids(nodes, k)) == if i != k && Descends(nodes, i, k) then 1 else 0
  {
    var ks := Kids(nodes, k);
    if i != k && Descends(nodes, i, k) {
      var c := ChildOnChain(nodes, i, k);
      var m0 :| 0 <= m0 < |ks| && ks[m0] == c;
      forall m | 0 <= m < |ks| && m != m0
        ensures !Descends(nodes, i, ks[m])
      {
        var d := ks[m];
        if Descends(nodes, i, d) {
          DescendsChain(nodes, i, c, d);
          if Descends(nodes, c, d) {
            DescendsBelow(nodes, k, d);
          } else {
            DescendsBelow(nodes, k, c);
          }
        }
      }
      CountOne(nodes, i, ks, m0);
    } else {
      forall m | 0 <= m < |ks|
        ensures !Descends(nodes, i, ks[m])
      {
        var d := ks[m];
        if Descends(nodes, i, d) {
          assert Descends(nodes, d, k);
          if i == k {
            DescendsBelow(nodes, i, d);
          } else {
            DescendsTransitive(nodes, i, d, k);
          }
        }
      }
      CountNone(nodes, i, ks);
    }
  }

  /** Node `i` occurs once in the subtree of `k` when it descends from `k`, and never otherwise. */
  lemma {:induction false} SubCount(nodes: seq<Category>, k: nat, i: nat)
    requires k < |nodes| && i < |nodes|
    decreases |nodes| - k, 1, 0
    ensures multiset(Sub(nodes, k))[i] == if Descends(nodes, i, k) then 1 else 0
  {
    PreCount(nodes, Kids(nodes, k), k, i);
    KidsCount(nodes, i, k);
  }

  lemma {:induction false} PreCount(nodes: seq<Category>, ks: seq<nat>, bound: int, i: nat)
    requires forall m :: 0 <= m < |ks| ==> bound < ks[m] < |nodes|
    requires i < |nodes|
    decreases |nodes| - bound, 0, |ks|
    ensures multiset(Pre(nodes, ks, bound))[i] == CountDescends(nodes, i, ks)
  {
    if ks != [] {
      SubCount(nodes, ks[0], i);
      PreCount(nodes, ks[1..], bound, i);
    }
  }

  /** The subtree of `k` is `k` itself followed by exactly the strict descendants of `k`. */
  lemma SubtreeIsDescendants(nodes: seq<Category>, k: nat, i: nat)
    requires k < |nodes| && i < |nodes|
    ensures Sub(nodes, k)[0] == k
    ensures i in Sub(nodes, k)[1..] <==> i != k && Descends(nodes, i, k)
  {
    var s := Sub(nodes, k);
    SubCount(nodes, k, i);
    SubCount(nodes, k, k);
    assert s == [k] + s[1..];
    assert multiset(s) == multiset{k} + multiset(s[1..]);
  }

  // ---------------------------------------------------------------------------------------
  // Roots, dropped nodes and the round trip
  // ---------------------------------------------------------------------------------------

  /** Node `i` hangs under a root of the forest. */
  ghost predicate Grounded(nodes: seq<Category>, i: nat)
    requires i < |nodes|
  {
    exists r :: 0 <= r < |nodes| && PlacementOf(nodes, r).Root? && Descends(nodes, i, r)
  }

  lemma {:induction false} RootsCount(nodes: seq<Category>, i: nat, r: nat)
    requires i < |nodes| && r < |nodes| && PlacementOf(nodes, r).Root? && Descends(nodes, i, r)
    ensures CountDescends(nodes, i, RootIndices(nodes)) == 1
  {
    var ks := RootIndices(nodes);
    var m0 :| 0 <= m0 < |ks| && ks[m0] == r;
    forall m | 0 <= m < |ks| && m != m0
      ensures !Descends(nodes, i, ks[m])
    {
      if Descends(nodes, i, ks[m]) {
        DescendsChain(nodes, i, r, ks[m]);
      }
    }
    CountOne(nodes, i, ks, m0);
  }

  /**
   * A node whose parent path matched no processed node is dropped, and so is every node
   * below it: none of them occurs in the flattened forest.
   */
  lemma DroppedSubtreeVanishes(nodes: seq<Category>, o: nat, i: nat)
    requires o < |nodes| && i < |nodes|
    requires PlacementOf(nodes, o).Dropped? && Descends(nodes, i, o)
    ensures i !in Pre(nodes, RootIndices(nodes), -1)
  {
    var ks := RootIndices(nodes);
    forall m | 0 <= m < |ks|
      ensures !Descends(nodes, i, ks[m])
    {
      if Descends(nodes, i, ks[m]) {
        DescendsChain(nodes, i, o, ks[m]);
      }
    }
    CountNone(nodes, i, ks);
    PreCount(nodes, ks, -1, i);
  }

  /**
   * The well-formedness the round trip needs: depth is at least 1, every path has one segment
   * per level, and every node that is not at the smallest depth has its parent in the input.
   */
  ghost predicate WellFormed(categories: seq<Category>) {
    && (forall c :: c in categories ==> c.depth >= 1 && |c.path| == SegmentWidth * c.depth)
    && (forall c, d :: c in categories && d in categories && d.depth < c.depth ==>
          ParentPath(c.path) in PathsOf(categories))
  }

  /** The paths the categories carry. */
  function PathsOf(categories: seq<Category>): (paths: set<string>)
    ensures forall c :: c in categories ==> c.path in paths
  {
    if categories == [] then {} else {categories[0].path} + PathsOf(categories[1..])
  }

  /** A path in `PathsOf` is carried by some category, at some index. */
  lemma {:induction false} PathOwner(categories: seq<Category>, path: string) returns (q: nat)
    requires path in PathsOf(categories)
    ensures q < |categories| && categories[q].path == path
  {
    if categories[0].path == path {
      q := 0;
    } else {
      var q' := PathOwner(categories[1..], path);
      q := q' + 1;
    }
  }

  /** Categories with the same elements carry the same paths. */
  lemma SamePaths(a: seq<Category>, b: seq<Category>)
    requires multiset(a) == multiset(b)
    ensures PathsOf(a) == PathsOf(b)
  {
    forall path | path in PathsOf(a) ensures path in PathsOf(b) {
      var q := PathOwner(a, path);
      assert a[q] in multiset(b);
    }
    forall path | path in PathsOf(b) ensures path in PathsOf(a) {
      var q := PathOwner(b, path);
      assert b[q] in multiset(a);
    }
  }

  /** On a well-formed sorted input every node hangs under a root. */
  lemma {:induction false} GroundOf(nodes: seq<Category>, i: nat) returns (r: nat)
    requires WellFormed(nodes) && SortedByPathLength(nodes) && i < |nodes|
    ensures r < |nodes| && PlacementOf(nodes, r).Root? && Descends(nodes, i, r)
    decreases i
  {
    if PlacementOf(nodes, i).Root? {
      r := i;
    } else {
      var c, d := nodes[i], nodes[0];
      assert c in nodes && d in nodes;
      assert d.depth < c.depth;
      var q := PathOwner(nodes, ParentPath(c.path));
      assert q < i;
      var j := PlacementOf(nodes, i).parent;
      assert j != i;
      r := GroundOf(nodes, j);
    }
  }

  lemma WellFormedPermutation(a: seq<Category>, b: seq<Category>)
    requires multiset(a) == multiset(b) && WellFormed(a)
    ensures WellFormed(b)
  {
    forall x ensures x in a <==> x in b {
      assert x in a <==> x in multiset(a);
      assert x in b <==> x in multiset(b);
    }
    SamePaths(a, b);
  }

  /**
   * Round trip: for a well-formed input, flattening the built forest gives the input's
   * categories again, each as often as it occurs in the input.
   */
  lemma RoundTrip(categories: seq<Category>)
    requires WellFormed(categories)
    ensures multiset(GetFlatTree(BuildTree(categories))) == multiset(categories)
  {
    if categories != [] {
      var nodes := SortByPathLength(categories);
      var flat := GetFlatTree(BuildTree(categories));
      assert multiset(flat) == multiset(nodes) by {
        FlatTreeIndices(categories);
        WellFormedPermutation(categories, nodes);
        PreIsPermutation(nodes);
      }
    }
  }

  /** On a well-formed sorted input the categories at the flattened indices are the input's. */
  lemma PreIsPermutation(nodes: seq<Category>)
    requires WellFormed(nodes) && SortedByPathLength(nodes)
    ensures multiset(Project(nodes, Pre(nodes, RootIndices(nodes), -1))) == multiset(nodes)
  {
    var ps := Pre(nodes, RootIndices(nodes), -1);
    EveryIndexOnce(nodes);
    ProjectAllIndices(nodes, ps);
  }

  /** Indices that are each index of `nodes` exactly once pick out the categories of `nodes`. */
  lemma ProjectAllIndices(nodes: seq<Category>, ps: seq<nat>)
    requires forall m :: 0 <= m < |ps| ==> ps[m] < |nodes|
    requires multiset(ps) == multiset(Range(0, |nodes|))
    ensures multiset(Project(nodes, ps)) == multiset(nodes)
  {
    var all := Range(0, |nodes|);
    ProjectPermutation(nodes, ps, all);
    ProjectRange(nodes, 0);
    assert nodes[0..] == nodes;
  }

  /** On a well-formed sorted input the flattened forest holds every index exactly once. */
  lemma EveryIndexOnce(nodes: seq<Category>)
    requires WellFormed(nodes) && SortedByPathLength(nodes)
    ensures multiset(Pre(nodes, RootIndices(nodes), -1)) == multiset(Range(0, |nodes|))
  {
    var n := |nodes|;
    var ps := Pre(nodes, RootIndices(nodes), -1);
    var all := Range(0, n);
    var mps: multiset<nat> := multiset(ps);
    var mall: multiset<nat> := multiset(all);
    forall x: nat
      ensures mps[x] == mall[x]
    {
      if x < n {
        IndexOnce(nodes, x);
        RangeCount(0, n, x);
      } else {
        assert x !in ps;
        assert x !in all;
      }
    }
    assert mps == mall;
  }

  /** A node of a well-formed sorted input hangs under exactly one root. */
  lemma IndexOnce(nodes: seq<Category>, x: nat)
    requires WellFormed(nodes) && SortedByPathLength(nodes) && x < |nodes|
    ensures multiset(Pre(nodes, RootIndices(nodes), -1))[x] == 1
  {
    PreCount(nodes, RootIndices(nodes), -1, x);
    var r := GroundOf(nodes, x);
    RootsCount(nodes, x, r);
  }

  /**
   * Whatever the input, flattening the built forest never yields a category more often than
   * the input holds it: dropped nodes vanish and no node is placed twice.
   */
  lemma FlatWithinInput(categories: seq<Category>)
    ensures multiset(GetFlatTree(BuildTree(categories))) <= multiset(categories)
  {
    if categories != [] {
      var nodes := SortByPathLength(categories);
      FlatTreeIndices(categories);
      AtMostOnce(nodes);
      ProjectSub(nodes, Pre(nodes, RootIndices(nodes), -1), Range(0, |nodes|));
      ProjectRange(nodes, 0);
    }
  }

  /** On any sorted input the flattened forest holds every index at most once. */
  lemma AtMostOnce(nodes: seq<Category>)
    ensures multiset(Pre(nodes, RootIndices(nodes), -1)) <= multiset(Range(0, |nodes|))
  {
    var n := |nodes|;
    var ks := RootIndices(nodes);
    var mps: multiset<nat> := multiset(Pre(nodes, ks, -1));
    var mall: multiset<nat> := multiset(Range(0, n));
    forall x: nat
      ensures mps[x] <= mall[x]
    {
      if x < n {
        IndexAtMostOnce(nodes, x);
        RangeCount(0, n, x);
      } else {
        assert x !in Pre(nodes, ks, -1);
      }
    }
    assert mps <= mall;
  }

  /** On any sorted input the flattened forest holds a given index at most once. */
  lemma IndexAtMostOnce(nodes: seq<Category>, x: nat)
    requires x < |nodes|
    ensures multiset(Pre(nodes, RootIndices(nodes), -1))[x] <= 1
  {
    var ks := RootIndices(nodes);
    PreCount(nodes, ks, -1, x);
    if r :| 0 <= r < |nodes| && PlacementOf(nodes, r).Root? && Descends(nodes, x, r) {
      RootsCount(nodes, x, r);
    } else {
      CountNone(nodes, x, ks);
    }
  }

  lemma {:induction false} RangeCount(lo: nat, hi: nat, x: nat)
    requires lo <= x < hi
    decreases hi - lo
    ensures multiset(Range(lo, hi))[x] == 1
  {
    if lo < x {
      RangeCount(lo + 1, hi, x);
    } else {
      assert x !in Range(lo + 1, hi);
    }
  }

  /**
   * The roots of the forest are the sorted categories whose depth is the depth of the first
   * sorted category, in sorted order.
   */
  lemma RootsAreFirstDepth(categories: seq<Category>)
    requires categories != []
    ensures
      var nodes := SortByPathLength(categories);
      && nodes != []
      && Bases(BuildTree(categories)) == WithDepth(nodes, nodes[0].depth)
  {
    var nodes := SortByPathLength(categories);
    assert |nodes| == |multiset(nodes)| == |categories|;
    NodesBases(nodes, RootIndices(nodes), -1);
    MatchingRootsProject(nodes, 0);
  }

  function Bases(items: seq<CategoryItem>): (r: seq<Category>)
    ensures |r| == |items|
  {
    if items == [] then [] else [items[0].base] + Bases(items[1..])
  }

  lemma {:induction false} NodesBases(nodes: seq<Category>, ks: seq<nat>, bound: int)
    requires forall m :: 0 <= m < |ks| ==> bound < ks[m] < |nodes|
    ensures Bases(Nodes(nodes, ks, bound)) == Project(nodes, ks)
  {
    if ks != [] {
      NodesBases(nodes, ks[1..], bound);
      assert Nodes(nodes, ks, bound)[1..] == Nodes(nodes, ks[1..], bound);
    }
  }

  lemma {:induction false} MatchingRootsProject(nodes: seq<Category>, from: nat)
    requires from <= |nodes| && nodes != []
    decreases |nodes| - from
    ensures Project(nodes, Matching(nodes, Root, from)) == WithDepth(nodes[from..], nodes[0].depth)
  {
    if from < |nodes| {
      MatchingRootsProject(nodes, from + 1);
      assert nodes[from..][1..] == nodes[from + 1..];
    }
  }
}
