/** Dependency paths, cycles, and what the numbers kept on a graph's nodes measure. */
module GraphPaths {
  import opened DepGraph

  /** A path goes from a node to one of its inputs at each step. */
  predicate IsPath(g: Graph, p: seq<nat>) {
    && p != []
    && (forall k | 0 <= k < |p| :: p[k] < |g.inputs|)
    && forall k | 0 < k < |p| :: p[k] in g.inputs[p[k - 1]]
  }

  lemma PathCons(g: Graph, i: nat, rest: seq<nat>)
    requires IsPath(g, rest) && i < |g.inputs| && rest[0] in g.inputs[i]
    ensures IsPath(g, [i] + rest)
  {
    var p := [i] + rest;
    forall k | 0 < k < |p| ensures p[k] in g.inputs[p[k - 1]] {
      assert p[k] == rest[k - 1];
      assert k > 1 ==> rest[k - 1] in g.inputs[rest[k - 2]];
    }
  }

  ghost predicate DependsOnCycle(g: Graph, i: nat) {
    exists p :: IsPath(g, p) && p[0] == i && !NoDup(p)
  }

  function SetOf(s: seq<nat>): set<nat> { set x | x in s }

  function Numbers(n: nat): (s: set<nat>)
    ensures forall i: nat :: i in s <==> i < n
  {
    if n == 0 then {} else Numbers(n - 1) + {n - 1}
  }

  lemma {:induction false} NumbersSize(n: nat)
    ensures |Numbers(n)| == n
  {
    if n == 0 {
    } else {
      NumbersSize(n - 1);
      assert Numbers(n) == Numbers(n - 1) + {n - 1};
    }
  }

  lemma {:induction false} DistinctSize(s: seq<nat>)
    requires NoDup(s)
    ensures |SetOf(s)| == |s|
  {
    if s != [] {
      var init, last := s[..|s| - 1], s[|s| - 1];
      DistinctSize(init);
      assert s == init + [last];
      assert last !in init;
      assert SetOf(s) == SetOf(init) + {last};
    } else {
      assert SetOf(s) == {};
    }
  }

  lemma Smaller(a: set<nat>, b: set<nat>)
    requires a <= b
    ensures |a| <= |b|
    decreases |b|
  {
    if a != {} {
      var x :| x in a;
      Smaller(a - {x}, b - {x});
    }
  }

  /** Distinct numbers below `n` are at most `n` many. */
  lemma Pigeonhole(s: seq<nat>, n: nat)
    requires NoDup(s) && forall k | 0 <= k < |s| :: s[k] < n
    ensures |s| <= n
  {
    DistinctSize(s);
    NumbersSize(n);
    Smaller(SetOf(s), Numbers(n));
  }

  /* ---- topological orders ---- */

  predicate Stuck(g: Graph, order: seq<nat>, i: nat)
    requires i < |g.inputs|
  {
    exists j | j in g.inputs[i] :: j !in order
  }

  /** No repeats, every node after all its inputs, and nothing left out that could come next. */
  predicate IsKahnOrder(g: Graph, order: seq<nat>) {
    && NoDup(order)
    && (forall k | 0 <= k < |order| :: order[k] < |g.inputs| && forall j | j in g.inputs[order[k]] :: j in order[..k])
    && forall i {:trigger Stuck(g, order, i)} | 0 <= i < |g.inputs| && i !in order :: Stuck(g, order, i)
  }

  lemma {:induction false} PathGoesBack(g: Graph, order: seq<nat>, p: seq<nat>, at: nat, a: nat) returns (to: nat)
    requires IsKahnOrder(g, order) && IsPath(g, p) && at < |order| && p[0] == order[at] && a < |p|
    ensures to <= at && order[to] == p[a] && (a > 0 ==> to < at)
    decreases a
  {
    if a == 0 {
      to := at;
    } else {
      to := PathGoesBack(g, order, p, at, a - 1);
      assert p[a] in g.inputs[p[a - 1]];
      var k :| 0 <= k < to && order[..to][k] == p[a];
      to := k;
    }
  }

  lemma OrderedHasNoCycle(g: Graph, order: seq<nat>, p: seq<nat>)
    requires IsKahnOrder(g, order) && IsPath(g, p) && p[0] in order
    ensures NoDup(p)
  {
    var at :| 0 <= at < |order| && order[at] == p[0];
    forall a, b | 0 <= a < b < |p| ensures p[a] != p[b] {
      var ta := PathGoesBack(g, order, p, at, a);
      assert IsPath(g, p[a..]);
      var tb := PathGoesBack(g, order, p[a..], ta, b - a);
      assert p[a..][b - a] == p[b];
    }
  }

  /** From a node outside the order there are paths of any length that stay outside. */
  lemma {:induction false} OutsidePath(g: Graph, order: seq<nat>, i: nat, n: nat) returns (p: seq<nat>)
    requires Wired(g) && IsKahnOrder(g, order) && i < |g.inputs| && i !in order
    ensures IsPath(g, p) && p[0] == i && |p| == n + 1
    decreases n
  {
    if n == 0 {
      p := [i];
    } else {
      assert Stuck(g, order, i);
      var j :| j in g.inputs[i] && j !in order;
      var rest := OutsidePath(g, order, j, n - 1);
      PathCons(g, i, rest);
      p := [i] + rest;
    }
  }

  /** The order lists exactly the nodes that do not depend, however indirectly, on a cycle. */
  lemma OrderedIffNoCycle(g: Graph, order: seq<nat>, i: nat)
    requires Wired(g) && IsKahnOrder(g, order) && i < |g.inputs|
    ensures i in order <==> !DependsOnCycle(g, i)
  {
    if i in order {
      forall p | IsPath(g, p) && p[0] == i ensures NoDup(p) {
        OrderedHasNoCycle(g, order, p);
      }
    } else {
      var p := OutsidePath(g, order, i, |g.inputs|);
      if NoDup(p) {
        Pigeonhole(p, |g.inputs|);
      }
    }
  }

  /** Where a node stands in the order. */
  function Place(order: seq<nat>, i: nat): nat
    requires i in order
    ensures Place(order, i) < |order| && order[Place(order, i)] == i
  {
    if order[|order| - 1] == i then |order| - 1 else Place(order[..|order| - 1], i)
  }

  lemma PlaceUnique(order: seq<nat>, i: nat, k: nat)
    requires NoDup(order) && k < |order| && order[k] == i
    ensures i in order && Place(order, i) == k
  {
  }

  lemma {:induction false} RankedInOrder(g: Graph, order: seq<nat>, rank: seq<nat>, i: nat)
    requires Wired(g) && IsKahnOrder(g, order) && IsRank(g, rank) && i < |g.inputs|
    ensures i in order
    decreases rank[i]
  {
    if i !in order {
      assert Stuck(g, order, i);
      var j :| j in g.inputs[i] && j !in order;
      RankedInOrder(g, order, rank, j);
    }
  }

  lemma OrderGivesRank(g: Graph, order: seq<nat>)
    requires Wired(g) && IsKahnOrder(g, order) && forall i | 0 <= i < |g.inputs| :: i in order
    ensures Acyclic(g)
  {
    var n := |g.inputs|;
    var rank := seq(n, i requires 0 <= i < n => Place(order, i));
    forall i, j | 0 <= i < n && j in g.inputs[i] ensures j < n && rank[j] < rank[i] {
      var at := Place(order, i);
      var k :| 0 <= k < at && order[..at][k] == j;
      PlaceUnique(order, j, k);
    }
    assert IsRank(g, rank);
  }

  lemma AllIffAsMany(g: Graph, order: seq<nat>)
    requires IsKahnOrder(g, order)
    ensures (forall i | 0 <= i < |g.inputs| :: i in order) <==> |order| == |g.inputs|
  {
    var n := |g.inputs|;
    DistinctSize(order);
    NumbersSize(n);
    assert SetOf(order) <= Numbers(n);
    Smaller(SetOf(order), Numbers(n));
    if |order| == n {
      SameSize(SetOf(order), Numbers(n));
      forall i | 0 <= i < n ensures i in order {
        assert i in Numbers(n);
      }
    }
    if forall i | 0 <= i < n :: i in order {
      Smaller(Numbers(n), SetOf(order));
    }
  }

  /** It is a permutation of the nodes exactly when the graph is acyclic. */
  lemma PermutationIffAcyclic(g: Graph, order: seq<nat>)
    requires Wired(g) && IsKahnOrder(g, order)
    ensures Acyclic(g) <==> forall i | 0 <= i < |g.inputs| :: i in order
    ensures Acyclic(g) <==> |order| == |g.inputs|
  {
    AllIffAsMany(g, order);
    if Acyclic(g) {
      var rank :| IsRank(g, rank);
      forall i | 0 <= i < |g.inputs| ensures i in order { RankedInOrder(g, order, rank, i); }
    }
    if forall i | 0 <= i < |g.inputs| :: i in order {
      OrderGivesRank(g, order);
    }
  }

  lemma SameSize(a: set<nat>, b: set<nat>)
    requires a <= b && |a| == |b|
    ensures a == b
  {
    if x :| x in b && x !in a {
      Smaller(a, b - {x});
    }
  }

  /* ---- longest paths ---- */

  /** One more than the largest of the numbers at `at`, and 0 if there are none. */
  function MaxPlus(h: seq<nat>, at: seq<nat>): nat
    requires forall k | 0 <= k < |at| :: at[k] < |h|
  {
    if at == [] then 0
    else
      var before, last := MaxPlus(h, at[..|at| - 1]), h[at[|at| - 1]] + 1;
      if before < last then last else before
  }

  lemma {:induction false} MaxPlusBound(h: seq<nat>, at: seq<nat>, k: nat)
    requires (forall k | 0 <= k < |at| :: at[k] < |h|) && k < |at|
    ensures h[at[k]] + 1 <= MaxPlus(h, at)
  {
    if k == |at| - 1 {
    } else {
      MaxPlusBound(h, at[..|at| - 1], k);
    }
  }

  lemma {:induction false} MaxPlusReached(h: seq<nat>, at: seq<nat>) returns (k: nat)
    requires (forall k | 0 <= k < |at| :: at[k] < |h|) && at != []
    ensures k < |at| && h[at[k]] + 1 == MaxPlus(h, at)
  {
    k := |at| - 1;
    if |at| > 1 && MaxPlus(h, at[..|at| - 1]) >= h[at[|at| - 1]] + 1 {
      k := MaxPlusReached(h, at[..|at| - 1]);
    }
  }

  /** Heights as the second pass defines them. */
  ghost predicate AreHeights(g: Graph, h: seq<nat>)
    requires Wired(g)
  {
    && |h| == |g.inputs|
    && forall i | 0 <= i < |g.inputs| :: InRange(g.inputs[i], |h|) && h[i] == MaxPlus(h, g.inputs[i])
  }

  predicate InRange(s: seq<nat>, n: nat) { forall k | 0 <= k < |s| :: s[k] < n }

  lemma {:induction false} NoLongerPath(g: Graph, h: seq<nat>, p: seq<nat>)
    requires Wired(g) && AreHeights(g, h) && IsPath(g, p)
    ensures |p| <= h[p[0]] + 1
    decreases |p|
  {
    if |p| <= 1 {
    } else {
      assert IsPath(g, p[1..]);
      NoLongerPath(g, h, p[1..]);
      assert p[1] in g.inputs[p[0]];
      var k :| 0 <= k < |g.inputs[p[0]]| && g.inputs[p[0]][k] == p[1];
      MaxPlusBound(h, g.inputs[p[0]], k);
    }
  }

  lemma {:induction false} PathToLeaf(g: Graph, h: seq<nat>, i: nat) returns (p: seq<nat>)
    requires Wired(g) && AreHeights(g, h) && i < |g.inputs|
    ensures IsPath(g, p) && p[0] == i && g.inputs[p[|p| - 1]] == [] && |p| == h[i] + 1
    decreases h[i]
  {
    if g.inputs[i] == [] {
      p := [i];
    } else {
      var k := MaxPlusReached(h, g.inputs[i]);
      var j := g.inputs[i][k];
      var rest := PathToLeaf(g, h, j);
      PathCons(g, i, rest);
      p := [i] + rest;
    }
  }

  /** The height of a node is the length of the longest path down from it, and that path ends at a leaf. */
  lemma HeightIsLongest(g: Graph, h: seq<nat>, i: nat)
    requires Wired(g) && AreHeights(g, h) && i < |g.inputs|
    ensures forall p | IsPath(g, p) && p[0] == i :: |p| - 1 <= h[i]
    ensures exists p :: IsPath(g, p) && p[0] == i && g.inputs[p[|p| - 1]] == [] && |p| - 1 == h[i]
  {
    forall p | IsPath(g, p) && p[0] == i ensures |p| - 1 <= h[i] { NoLongerPath(g, h, p); }
    var p := PathToLeaf(g, h, i);
  }

  /* ---- unfolded trees ---- */

  datatype Tree = Tree(node: nat, kids: seq<Tree>)

  function TreeSize(t: Tree): nat { 1 + TreesSize(t.kids) }

  function TreesSize(ts: seq<Tree>): nat {
    if ts == [] then 0 else TreesSize(ts[..|ts| - 1]) + TreeSize(ts[|ts| - 1])
  }

  /** `t` is what unfolding the dependencies of `i` gives, shared nodes repeated. */
  predicate Unfolds(g: Graph, i: nat, t: Tree)
    decreases t
  {
    && i < |g.inputs| && t.node == i && |t.kids| == |g.inputs[i]|
    && forall k | 0 <= k < |t.kids| :: Unfolds(g, g.inputs[i][k], t.kids[k])
  }

  function SumAt(size: seq<nat>, at: seq<nat>): nat
    requires InRange(at, |size|)
  {
    if at == [] then 0 else SumAt(size, at[..|at| - 1]) + size[at[|at| - 1]]
  }

  ghost predicate AreSizes(g: Graph, size: seq<nat>)
    requires Wired(g)
  {
    && |size| == |g.inputs|
    && forall i | 0 <= i < |g.inputs| :: InRange(g.inputs[i], |size|) && size[i] == 1 + SumAt(size, g.inputs[i])
  }

  lemma {:induction false} SizeIsTree(g: Graph, size: seq<nat>, i: nat, t: Tree)
    requires Wired(g) && AreSizes(g, size) && Unfolds(g, i, t)
    ensures size[i] == TreeSize(t)
    decreases t, 1, 0
  {
    SizesAreTrees(g, size, i, t, |t.kids|);
    assert g.inputs[i][..|t.kids|] == g.inputs[i] && t.kids[..|t.kids|] == t.kids;
  }

  lemma SumAtNext(size: seq<nat>, at: seq<nat>, n: nat)
    requires InRange(at, |size|) && 0 < n <= |at|
    ensures InRange(at[..n], |size|) && InRange(at[..n - 1], |size|)
    ensures SumAt(size, at[..n]) == SumAt(size, at[..n - 1]) + size[at[n - 1]]
  {
    assert at[..n][..n - 1] == at[..n - 1];
  }

  lemma TreesSizeNext(ts: seq<Tree>, n: nat)
    requires 0 < n <= |ts|
    ensures TreesSize(ts[..n]) == TreesSize(ts[..n - 1]) + TreeSize(ts[n - 1])
  {
    assert ts[..n][..n - 1] == ts[..n - 1];
  }

  lemma {:induction false} SizesAreTrees(g: Graph, size: seq<nat>, i: nat, t: Tree, n: nat)
    requires Wired(g) && AreSizes(g, size) && Unfolds(g, i, t) && n <= |t.kids|
    ensures InRange(g.inputs[i][..n], |size|) && SumAt(size, g.inputs[i][..n]) == TreesSize(t.kids[..n])
    decreases t, 0, n
  {
    hide Wired, TreeSize;
    if n == 0 {
    } else {
      SizesAreTrees(g, size, i, t, n - 1);
      SizeIsTree(g, size, g.inputs[i][n - 1], t.kids[n - 1]);
      SumAtNext(size, g.inputs[i], n);
      TreesSizeNext(t.kids, n);
    }
  }

  lemma {:induction false} MakeTrees(g: Graph, rank: seq<nat>, i: nat, n: nat) returns (ts: seq<Tree>)
    requires Wired(g) && IsRank(g, rank) && i < |g.inputs| && n <= |g.inputs[i]|
    ensures |ts| == n && forall k | 0 <= k < n :: Unfolds(g, g.inputs[i][k], ts[k])
    decreases rank[i], n
  {
    if n == 0 {
      ts := [];
    } else {
      ts := MakeTrees(g, rank, i, n - 1);
      var j := g.inputs[i][n - 1];
      assert j in g.inputs[i];
      var kids := MakeTrees(g, rank, j, |g.inputs[j]|);
      ts := ts + [Tree(j, kids)];
    }
  }

  /** On an acyclic graph every node has an unfolded tree, and `size` counts its nodes. */
  lemma SizeCountsTree(g: Graph, size: seq<nat>, i: nat)
    requires Wired(g) && AreSizes(g, size) && Acyclic(g) && i < |g.inputs|
    ensures exists t :: Unfolds(g, i, t) && TreeSize(t) == size[i]
  {
    var rank :| IsRank(g, rank);
    var kids := MakeTrees(g, rank, i, |g.inputs[i]|);
    var t := Tree(i, kids);
    assert Unfolds(g, i, t);
    SizeIsTree(g, size, i, t);
  }

  /** The nodes of a tree. */
  function NodesOf(t: Tree): set<nat> { {t.node} + NodesOfAll(t.kids) }

  function NodesOfAll(ts: seq<Tree>): set<nat> {
    if ts == [] then {} else NodesOfAll(ts[..|ts| - 1]) + NodesOf(ts[|ts| - 1])
  }

  lemma {:induction false} NodesAtMostSize(t: Tree)
    ensures |NodesOf(t)| <= TreeSize(t)
    decreases t, 1, 0
  {
    AllNodesAtMostSize(t, |t.kids|);
    assert t.kids[..|t.kids|] == t.kids;
    UnionSize({t.node}, NodesOfAll(t.kids));
  }

  lemma {:induction false} AllNodesAtMostSize(t: Tree, n: nat)
    requires n <= |t.kids|
    ensures |NodesOfAll(t.kids[..n])| <= TreesSize(t.kids[..n])
    decreases t, 0, n
  {
    if n == 0 {
    } else {
      AllNodesAtMostSize(t, n - 1);
      NodesAtMostSize(t.kids[n - 1]);
      assert t.kids[..n][..n - 1] == t.kids[..n - 1];
      UnionSize(NodesOfAll(t.kids[..n - 1]), NodesOf(t.kids[n - 1]));
    }
  }

  lemma UnionSize(a: set<nat>, b: set<nat>)
    ensures |a + b| <= |a| + |b|
    decreases |b|
  {
    if b == {} {
      assert a + b == a;
    } else {
      var x :| x in b;
      UnionSize(a, b - {x});
      if x in a + (b - {x}) {
        assert a + b == a + (b - {x});
      } else {
        assert a + b == (a + (b - {x})) + {x};
      }
    }
  }

  lemma {:induction false} KidInAll(ts: seq<Tree>, k: nat)
    requires k < |ts|
    ensures NodesOf(ts[k]) <= NodesOfAll(ts)
  {
    if k == |ts| - 1 {
    } else {
      KidInAll(ts[..|ts| - 1], k);
    }
  }

  lemma {:induction false} ReachedInTree(g: Graph, t: Tree, p: seq<nat>)
    requires IsPath(g, p) && Unfolds(g, p[0], t)
    ensures p[|p| - 1] in NodesOf(t)
    decreases |p|
  {
    if |p| <= 1 {
    } else {
      assert p[1] in g.inputs[p[0]];
      var k :| 0 <= k < |g.inputs[p[0]]| && g.inputs[p[0]][k] == p[1];
      assert IsPath(g, p[1..]);
      ReachedInTree(g, t.kids[k], p[1..]);
      KidInAll(t.kids, k);
    }
  }

  /** `size` is at least the number of distinct nodes a node depends on, itself included. */
  lemma SizeBoundsDependencies(g: Graph, size: seq<nat>, i: nat, deps: set<nat>)
    requires Wired(g) && AreSizes(g, size) && Acyclic(g) && i < |g.inputs|
    requires forall j | j in deps :: exists p :: IsPath(g, p) && p[0] == i && p[|p| - 1] == j
    ensures |deps| <= size[i]
  {
    SizeCountsTree(g, size, i);
    var t :| Unfolds(g, i, t) && TreeSize(t) == size[i];
    forall j | j in deps ensures j in NodesOf(t) {
      var p :| IsPath(g, p) && p[0] == i && p[|p| - 1] == j;
      ReachedInTree(g, t, p);
    }
    NodesAtMostSize(t);
    Smaller(deps, NodesOf(t));
  }

  /* ---- depths ---- */

  /** A path from a root to `i`. */
  predicate RootPath(g: Graph, p: seq<nat>, i: nat) {
    IsPath(g, p) && p[0] < |g.outputs| && g.outputs[p[0]] == [] && p[|p| - 1] == i
  }

  ghost predicate IsDepth(g: Graph, i: nat, depth: nat) {
    && (forall p | RootPath(g, p, i) :: |p| - 1 <= depth)
    && exists p :: RootPath(g, p, i) && |p| - 1 == depth
  }

  lemma {:induction false} RankFalls(g: Graph, rank: seq<nat>, p: seq<nat>, a: nat, b: nat)
    requires IsRank(g, rank) && IsPath(g, p) && a < b < |p|
    ensures rank[p[b]] < rank[p[a]]
    decreases b
  {
    assert p[b] in g.inputs[p[b - 1]];
    if a == b - 1 {
    } else {
      RankFalls(g, rank, p, a, b - 1);
    }
  }

  lemma PathShort(g: Graph, p: seq<nat>)
    requires Wired(g) && Acyclic(g) && IsPath(g, p)
    ensures |p| <= |g.inputs|
  {
    var rank :| IsRank(g, rank);
    forall a, b | 0 <= a < b < |p| ensures p[a] != p[b] {
      RankFalls(g, rank, p, a, b);
    }
    Pigeonhole(p, |g.inputs|);
  }

  lemma PathSnoc(g: Graph, p: seq<nat>, j: nat)
    requires IsPath(g, p) && j < |g.inputs| && j in g.inputs[p[|p| - 1]]
    ensures IsPath(g, p + [j])
  {
  }

  /** On an acyclic graph every node hangs below some root. */
  lemma {:induction false} SomeRootPath(g: Graph, p: seq<nat>) returns (q: seq<nat>)
    requires Wired(g) && Acyclic(g) && IsPath(g, p)
    ensures RootPath(g, q, p[|p| - 1]) && |q| >= |p|
    decreases |g.inputs| - |p|
  {
    PathShort(g, p);
    if g.outputs[p[0]] == [] {
      q := p;
    } else {
      var o := g.outputs[p[0]][0];
      assert o in g.outputs[p[0]];
      var up := [o] + p;
      PathCons(g, o, p);
      PathShort(g, up);
      q := SomeRootPath(g, up);
    }
  }
}
