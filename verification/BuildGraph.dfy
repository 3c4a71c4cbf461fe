/** Building the derivation graph from the store: discovery, wiring, and the passes after it. */
module BuildGraph {
  import opened DepGraph
  import opened GraphPaths
  import opened GraphPasses
  import opened DrvGraph

  /** The readable derivations, each with its input derivations in the order of their map. */
  type Store = map<StorePath, seq<StorePath>>

  predicate Distinct(s: seq<StorePath>) {
    forall i, j | 0 <= i < j < |s| :: s[i] != s[j]
  }

  predicate StoreOk(store: Store) {
    forall p | p in store :: Distinct(store[p])
  }

  /** What a derivation depends on; nothing if it cannot be read. */
  function DepsOf(store: Store, p: StorePath): seq<StorePath> {
    if p in store then store[p] else []
  }

  /** `p` can be read, and `q` is among its input derivations. */
  predicate Needs(store: Store, p: StorePath, q: StorePath) { p in store && q in store[p] }

  /** A chain of dependencies in the store. */
  predicate IsChain(store: Store, c: seq<StorePath>) {
    c != [] && forall k | 0 < k < |c| :: Needs(store, c[k - 1], c[k])
  }

  ghost predicate Reached(store: Store, roots: seq<StorePath>, p: StorePath) {
    exists c :: IsChain(store, c) && c[0] in roots && c[|c| - 1] == p
  }

  lemma ReachedRoot(store: Store, roots: seq<StorePath>, p: StorePath)
    requires p in roots
    ensures Reached(store, roots, p)
  {
    assert IsChain(store, [p]);
  }

  lemma ReachedNext(store: Store, roots: seq<StorePath>, p: StorePath, q: StorePath)
    requires Reached(store, roots, p) && q in DepsOf(store, p)
    ensures Reached(store, roots, q)
  {
    var c :| IsChain(store, c) && c[0] in roots && c[|c| - 1] == p;
    assert IsChain(store, c + [q]);
    assert (c + [q])[0] in roots;
  }

  lemma {:induction false} ClosedHasReached(store: Store, roots: seq<StorePath>, known: set<StorePath>,
      c: seq<StorePath>, k: nat)
    requires forall r | r in roots :: r in known
    requires forall p | p in known :: forall q | q in DepsOf(store, p) :: q in known
    requires IsChain(store, c) && c[0] in roots && k < |c|
    ensures c[k] in known
    decreases k
  {
    if k == 0 {
    } else {
      ClosedHasReached(store, roots, known, c, k - 1);
    }
  }

  lemma ReachedInClosed(store: Store, roots: seq<StorePath>, known: set<StorePath>, p: StorePath)
    requires forall r | r in roots :: r in known
    requires forall p | p in known :: forall q | q in DepsOf(store, p) :: q in known
    requires Reached(store, roots, p)
    ensures p in known
  {
    var c :| IsChain(store, c) && c[0] in roots && c[|c| - 1] == p;
    ClosedHasReached(store, roots, known, c, |c| - 1);
  }

  /** Every path that could turn up. */
  function Universe(store: Store, roots: seq<StorePath>): set<StorePath> {
    (set r | r in roots) + (set p, q | p in store && q in store[p] :: q)
  }

  function Paths(nodes: seq<Node>): (r: seq<StorePath>)
    ensures |r| == |nodes| && forall i | 0 <= i < |nodes| :: r[i] == nodes[i].drvPath
  {
    seq(|nodes|, i requires 0 <= i < |nodes| => nodes[i].drvPath)
  }

  /** `index` leads from every path to the first node with that path. */
  predicate Indexed(nodes: seq<Node>, index: map<StorePath, nat>) {
    && (forall i | 0 <= i < |nodes| :: nodes[i].drvPath in index && index[nodes[i].drvPath] <= i)
    && (forall p | p in index :: index[p] < |nodes| && nodes[index[p]].drvPath == p)
  }

  lemma IndexKeys(nodes: seq<Node>, index: map<StorePath, nat>)
    requires Indexed(nodes, index)
    ensures index.Keys == set p | p in Paths(nodes)
  {
    forall p | p in index ensures p in Paths(nodes) {
      assert Paths(nodes)[index[p]] == p;
    }
  }

  /** The roots come first, as given; nothing after them repeats what came before. */
  predicate RootsThenNew(roots: seq<StorePath>, all: seq<StorePath>) {
    && |roots| <= |all| && all[..|roots|] == roots
    && forall i, j | 0 <= i < j < |all| && |roots| <= j :: all[i] != all[j]
  }

  /** Without repeated roots there is one node for each derivation. */
  lemma NoRepeats(roots: seq<StorePath>, all: seq<StorePath>)
    requires RootsThenNew(roots, all) && Distinct(roots)
    ensures Distinct(all)
  {
    forall i, j | 0 <= i < j < |all| ensures all[i] != all[j] {
      if j < |roots| {
        assert all[..|roots|][i] == roots[i] && all[..|roots|][j] == roots[j];
      }
    }
  }

  /** The nodes the index does not lead to are exactly those for a root given again. */
  lemma UnindexedIffRepeated(roots: seq<StorePath>, nodes: seq<Node>, index: map<StorePath, nat>, i: nat)
    requires RootsThenNew(roots, Paths(nodes)) && Indexed(nodes, index) && i < |nodes|
    ensures index[nodes[i].drvPath] == i <==> forall k | 0 <= k < i && k < |roots| :: roots[k] != nodes[i].drvPath
  {
    var all := Paths(nodes);
    var f := index[nodes[i].drvPath];
    assert forall k | 0 <= k < |roots| :: all[..|roots|][k] == roots[k];
    if f < i {
      assert all[f] == all[i];
    }
    forall k | 0 <= k < i && k < |roots| && roots[k] == nodes[i].drvPath ensures f != i {
      assert nodes[k].drvPath == nodes[i].drvPath;
    }
  }

  /* ---- the order of discovery ---- */

  /** All dependencies of the paths, one path after the other. */
  function Mentioned(store: Store, paths: seq<StorePath>): seq<StorePath> {
    if paths == [] then []
    else
      var last := paths[|paths| - 1];
      Mentioned(store, paths[..|paths| - 1]) + if last in store then store[last] else []
  }

  /** `known`, followed by what is new in `more`, in the order in which it comes. */
  function FirstMentions(known: seq<StorePath>, more: seq<StorePath>): seq<StorePath>
    decreases |more|
  {
    if more == [] then known
    else FirstMentions(if more[0] in known then known else known + [more[0]], more[1..])
  }

  lemma {:induction false} MentionsAppend(known: seq<StorePath>, a: seq<StorePath>, b: seq<StorePath>)
    ensures FirstMentions(known, a + b) == FirstMentions(FirstMentions(known, a), b)
    decreases |a|
  {
    if a == [] {
      assert a + b == b;
    } else {
      assert (a + b)[1..] == a[1..] + b;
      MentionsAppend(if a[0] in known then known else known + [a[0]], a[1..], b);
    }
  }

  lemma MentionedNext(store: Store, roots: seq<StorePath>, done: seq<StorePath>, path: StorePath)
    ensures FirstMentions(roots, Mentioned(store, done + [path]))
         == FirstMentions(FirstMentions(roots, Mentioned(store, done)), DepsOf(store, path))
  {
    assert (done + [path])[..|done|] == done;
    MentionsAppend(roots, Mentioned(store, done), DepsOf(store, path));
  }

  /** Breadth first: what has been visited and what is queued is in the order of the first mention. */
  ghost predicate BreadthFirst(store: Store, roots: seq<StorePath>, done: seq<StorePath>, toVisit: seq<StorePath>) {
    done + toVisit == FirstMentions(roots, Mentioned(store, done))
  }

  /** `done` are the paths of the nodes so far. */
  ghost predicate DiscoverInv(store: Store, roots: seq<StorePath>, done: seq<StorePath>, toVisit: seq<StorePath>,
      seen: set<StorePath>)
  {
    && RootsThenNew(roots, done + toVisit)
    && seen == (set p | p in done + toVisit)
    && seen <= Universe(store, roots)
    && (forall p | p in seen :: Reached(store, roots, p))
  }

  ghost predicate DepsSeen(store: Store, known: set<StorePath>, seen: set<StorePath>) {
    forall p | p in known :: forall q | q in DepsOf(store, p) :: q in seen
  }

  lemma InUniverse(store: Store, roots: seq<StorePath>, p: StorePath, q: StorePath)
    requires q in DepsOf(store, p)
    ensures q in Universe(store, roots)
  {
  }

  lemma Queue(store: Store, roots: seq<StorePath>, done: seq<StorePath>, toVisit: seq<StorePath>, seen: set<StorePath>,
      p: StorePath, q: StorePath)
    requires DiscoverInv(store, roots, done, toVisit, seen) && p in seen && q in DepsOf(store, p) && q !in seen
    ensures DiscoverInv(store, roots, done, toVisit + [q], seen + {q})
  {
    hide Universe, Reached, DepsOf;
    ReachedNext(store, roots, p, q);
    InUniverse(store, roots, p, q);
    var all := done + toVisit;
    assert done + (toVisit + [q]) == all + [q];
    assert forall x :: x in all + [q] <==> x in all || x == q;
  }

  lemma Visit(store: Store, roots: seq<StorePath>, done: seq<StorePath>, toVisit: seq<StorePath>, seen: set<StorePath>)
    requires DiscoverInv(store, roots, done, toVisit, seen) && toVisit != []
    ensures toVisit[0] in seen
    ensures DiscoverInv(store, roots, done + [toVisit[0]], toVisit[1..], seen)
  {
    hide Universe, Reached, RootsThenNew;
    assert done + [toVisit[0]] + toVisit[1..] == done + toVisit;
    assert (done + toVisit)[|done|] == toVisit[0];
  }

  /** All fields still as the constructor left them. */
  predicate Blank(nodes: seq<Node>)
    reads nodes
  {
    forall i | 0 <= i < |nodes| ::
      && nodes[i].inputs == nodes[i].outputs == []
      && nodes[i].depth == nodes[i].height == nodes[i].subtreeSize == 0
  }

  twostate predicate AllFresh(new nodes: seq<Node>) {
    forall i | 0 <= i < |nodes| :: fresh(nodes[i])
  }

  lemma BlankOne(node: Node)
    requires node.inputs == node.outputs == [] && node.depth == node.height == node.subtreeSize == 0
    ensures Blank([node])
  {
  }

  /** `emplace` keeps an entry that is there already. */
  function Emplace(index: map<StorePath, nat>, path: StorePath, i: nat): map<StorePath, nat> {
    if path in index then index else index[path := i]
  }

  lemma IndexedNext(nodes: seq<Node>, index: map<StorePath, nat>, node: Node)
    requires Indexed(nodes, index)
    ensures Indexed(nodes + [node], Emplace(index, node.drvPath, |nodes|))
  {
    var nodes', index' := nodes + [node], Emplace(index, node.drvPath, |nodes|);
    forall p | p in index' ensures index'[p] < |nodes'| && nodes'[index'[p]].drvPath == p {
      assert p in index ==> nodes'[index[p]] == nodes[index[p]];
    }
  }

  lemma PathsNext(nodes: seq<Node>, node: Node)
    ensures Paths(nodes + [node]) == Paths(nodes) + [node.drvPath]
  {
  }

  lemma BlankNext(nodes: seq<Node>, node: Node)
    requires Blank(nodes) && Blank([node])
    ensures Blank(nodes + [node])
  {
    assert [node][0].inputs == [node][0].outputs == [];
  }

  twostate lemma FreshNext(new nodes: seq<Node>, new node: Node)
    requires AllFresh(nodes) && fresh(node)
    ensures AllFresh(nodes + [node])
  {
  }

  method AddNode(nodes0: seq<Node>, index0: map<StorePath, nat>, path: StorePath)
    returns (nodes: seq<Node>, index: map<StorePath, nat>, node: Node)
    requires Indexed(nodes0, index0) && Blank(nodes0) && Apart(nodes0)
    ensures Indexed(nodes, index) && Blank(nodes) && Apart(nodes) && index.Keys == index0.Keys + {path}
    ensures fresh(node) && nodes == nodes0 + [node] && Paths(nodes) == Paths(nodes0) + [path]
  {
    node := new Node(path);
    BlankOne(node);
    BlankNext(nodes0, node);
    IndexedNext(nodes0, index0, node);
    PathsNext(nodes0, node);
    index := Emplace(index0, path, |nodes0|);
    nodes := nodes0 + [node];
  }

  lemma RootsFound(roots: seq<StorePath>, done: seq<StorePath>)
    requires RootsThenNew(roots, done)
    ensures |roots| <= |done| && forall r | r in roots :: r in done
  {
    forall r | r in roots ensures r in done {
      var k :| 0 <= k < |roots| && roots[k] == r;
      assert done[..|roots|][k] == r;
    }
  }

  lemma AllFound(store: Store, roots: seq<StorePath>, done: seq<StorePath>, known: set<StorePath>, seen: set<StorePath>)
    requires DiscoverInv(store, roots, done, [], seen) && DepsSeen(store, known, seen)
    requires known == set p | p in done
    ensures forall p :: p in known <==> Reached(store, roots, p)
    ensures RootsThenNew(roots, done)
  {
    hide RootsThenNew, Universe, Reached, DepsOf;
    assert done + [] == done && seen == known;
    RootsFound(roots, done);
    forall p ensures p in known <==> Reached(store, roots, p) {
      if Reached(store, roots, p) {
        ReachedInClosed(store, roots, known, p);
      }
    }
  }

  lemma DiscoverBegins(store: Store, roots: seq<StorePath>)
    ensures DiscoverInv(store, roots, [], roots, set r | r in roots) && DepsSeen(store, {}, set r | r in roots)
  {
    assert [] + roots == roots;
    forall r | r in roots ensures Reached(store, roots, r) { ReachedRoot(store, roots, r); }
  }

  twostate lemma NothingYet()
    ensures Blank([]) && Indexed([], map[]) && AllFresh([]) && Apart([]) && Paths([]) == []
  {
  }

  lemma NothingMentioned(store: Store, roots: seq<StorePath>)
    ensures BreadthFirst(store, roots, [], roots)
  {
    assert [] + roots == roots;
  }

  lemma AllMentioned(store: Store, roots: seq<StorePath>, done: seq<StorePath>)
    requires BreadthFirst(store, roots, done, [])
    ensures done == FirstMentions(roots, Mentioned(store, done))
  {
    assert done + [] == done;
  }

  method VisitNext(store: Store, ghost roots: seq<StorePath>, nodes0: seq<Node>, index0: map<StorePath, nat>,
          toVisit0: seq<StorePath>, seen0: set<StorePath>)
    returns (nodes: seq<Node>, index: map<StorePath, nat>, node: Node, toVisit: seq<StorePath>, seen: set<StorePath>)
    requires Indexed(nodes0, index0) && Blank(nodes0) && Apart(nodes0) && toVisit0 != []
    requires DiscoverInv(store, roots, Paths(nodes0), toVisit0, seen0) && DepsSeen(store, index0.Keys, seen0)
    requires BreadthFirst(store, roots, Paths(nodes0), toVisit0)
    ensures BreadthFirst(store, roots, Paths(nodes), toVisit)
    ensures Indexed(nodes, index) && Blank(nodes) && Apart(nodes) && fresh(node) && nodes == nodes0 + [node]
    ensures DiscoverInv(store, roots, Paths(nodes), toVisit, seen) && DepsSeen(store, index.Keys, seen)
    ensures (seen == seen0 && |toVisit| < |toVisit0|)
      || |Universe(store, roots) - seen| < |Universe(store, roots) - seen0|
  {
    hide DiscoverInv, DepsSeen, Indexed, Universe, Blank, Reached, Distinct, StoreOk, DepsOf, Apart, Paths;
    hide FirstMentions, Mentioned;
    Visit(store, roots, Paths(nodes0), toVisit0, seen0);
    var path := toVisit0[0];
    nodes, index, node := AddNode(nodes0, index0, path);
    FewerSeen(store, index0.Keys, index.Keys - {path}, seen0);
    toVisit, seen := QueueInputs(store, roots, Paths(nodes), index.Keys, path, toVisit0[1..], seen0);
    MentionedNext(store, roots, Paths(nodes0), path);
    assert Paths(nodes0) + [path] + toVisit0[1..] == Paths(nodes0) + toVisit0;
    if seen != seen0 {
      MoreSeen(store, roots, Paths(nodes), toVisit, seen0, seen);
    }
  }

  lemma FewerSeen(store: Store, known: set<StorePath>, fewer: set<StorePath>, seen: set<StorePath>)
    requires DepsSeen(store, known, seen) && fewer <= known
    ensures DepsSeen(store, fewer, seen)
  {
  }

  /** The universe is finite, so there cannot be more and more to see. */
  lemma MoreSeen(store: Store, roots: seq<StorePath>, done: seq<StorePath>, toVisit: seq<StorePath>,
      seen0: set<StorePath>, seen: set<StorePath>)
    requires DiscoverInv(store, roots, done, toVisit, seen) && seen0 < seen
    ensures |Universe(store, roots) - seen| < |Universe(store, roots) - seen0|
  {
    hide Universe, Reached, RootsThenNew;
    var all := Universe(store, roots);
    var p :| p in seen && p !in seen0;
    assert all - seen <= all - seen0 - {p};
    Smaller(all - seen, all - seen0 - {p});
  }

  lemma {:induction false} Smaller(a: set<StorePath>, b: set<StorePath>)
    requires a <= b
    ensures |a| <= |b|
  {
    if a == {} {
    } else {
      var x :| x in a;
      Smaller(a - {x}, b - {x});
    }
  }

  /** First pass: a node for every derivation reachable from the roots, and another one each time
      a root is repeated; breadth first, in the order in which they are mentioned. */
  method Discover(store: Store, roots: seq<StorePath>) returns (nodes: seq<Node>, index: map<StorePath, nat>)
    requires StoreOk(store)
    ensures Blank(nodes) && Indexed(nodes, index) && Apart(nodes) && (forall i | 0 <= i < |nodes| :: fresh(nodes[i]))
    ensures forall p :: p in index <==> Reached(store, roots, p)
    ensures RootsThenNew(roots, Paths(nodes))
    ensures Paths(nodes) == FirstMentions(roots, Mentioned(store, Paths(nodes)))
  {
    hide DiscoverInv, DepsSeen, DepsOf, Reached, Universe, Distinct, StoreOk, RootsThenNew;
    hide Indexed, Blank, AllFresh, Apart, BreadthFirst, FirstMentions, Mentioned, Paths;
    var toVisit, seen := roots, set r | r in roots;
    nodes, index := [], map[];
    DiscoverBegins(store, roots);
    NothingYet();
    NothingMentioned(store, roots);
    assert index.Keys == {};
    while toVisit != []
      invariant Blank(nodes) && Indexed(nodes, index) && AllFresh(nodes) && Apart(nodes)
      invariant DiscoverInv(store, roots, Paths(nodes), toVisit, seen) && DepsSeen(store, index.Keys, seen)
      invariant BreadthFirst(store, roots, Paths(nodes), toVisit)
      decreases |Universe(store, roots) - seen|, |toVisit|
    {
      ghost var few := nodes;
      var node;
      nodes, index, node, toVisit, seen := VisitNext(store, roots, nodes, index, toVisit, seen);
      FreshNext(few, node);
    }
    IndexKeys(nodes, index);
    AllFound(store, roots, Paths(nodes), index.Keys, seen);
    AllMentioned(store, roots, Paths(nodes));
    FreshMeans(nodes);
  }

  /** A root given twice gets two nodes, and the index leads to the first. */
  method RepeatedRoot(p: StorePath) returns (nodes: seq<Node>, index: map<StorePath, nat>)
    ensures |nodes| == 2 && nodes[0] != nodes[1] && nodes[0].drvPath == nodes[1].drvPath == p
    ensures index == map[p := 0]
  {
    hide Reached, Universe;
    nodes, index := Discover(map[], [p, p]);
    var all := Paths(nodes);
    assert all[..2] == [p, p] && all[0] == p && all[1] == p;
    forall q | q in all ensures q == p {
      OnlyRoots([p, p], q);
    }
    IndexKeys(nodes, index);
    TwoOnly(all, p);
  }

  lemma TwoOnly(all: seq<StorePath>, p: StorePath)
    requires RootsThenNew([p, p], all) && forall x | x in all :: x == p
    ensures |all| == 2
  {
    hide RootsThenNew;
    RootsFound([p, p], all);
    if |all| > 2 {
      NewPath([p, p], all, 2);
      assert false;
    }
  }

  lemma NewPath(roots: seq<StorePath>, all: seq<StorePath>, k: nat)
    requires RootsThenNew(roots, all) && |roots| <= k < |all|
    ensures all[k] in all && all[k] !in roots
  {
    assert forall i | 0 <= i < |roots| :: all[..|roots|][i] == roots[i];
  }

  /** From an empty store only the roots are reached. */
  lemma OnlyRoots(roots: seq<StorePath>, p: StorePath)
    requires Reached(map[], roots, p)
    ensures p in roots
  {
    var empty: Store := map[];
    var c :| IsChain(empty, c) && c[0] in roots && c[|c| - 1] == p;
    assert |c| > 1 ==> Needs(empty, c[0], c[1]);
  }

  twostate lemma FreshMeans(new nodes: seq<Node>)
    requires AllFresh(nodes)
    ensures forall i | 0 <= i < |nodes| :: fresh(nodes[i])
  {
  }

  method QueueInputs(store: Store, ghost roots: seq<StorePath>, ghost done: seq<StorePath>, ghost known: set<StorePath>,
          path: StorePath, toVisit0: seq<StorePath>, seen0: set<StorePath>)
    returns (toVisit: seq<StorePath>, seen: set<StorePath>)
    requires DiscoverInv(store, roots, done, toVisit0, seen0) && path in seen0
    requires DepsSeen(store, known - {path}, seen0)
    ensures DiscoverInv(store, roots, done, toVisit, seen) && DepsSeen(store, known, seen)
    ensures done + toVisit == FirstMentions(done + toVisit0, DepsOf(store, path))
    ensures seen0 <= seen && (seen == seen0 ==> toVisit == toVisit0)
  {
    hide DiscoverInv, DepsSeen, DepsOf;
    toVisit, seen := toVisit0, seen0;
    var deps := DepsOf(store, path);
    assert deps[0..] == deps;
    for k := 0 to |deps|
      invariant FirstMentions(done + toVisit, deps[k..]) == FirstMentions(done + toVisit0, deps)
      invariant DiscoverInv(store, roots, done, toVisit, seen)
      invariant seen0 <= seen && (seen == seen0 ==> toVisit == toVisit0)
      invariant forall m | 0 <= m < k :: deps[m] in seen
    {
      assert deps[k..][1..] == deps[k + 1..];
      SeenAre(store, roots, done, toVisit, seen);
      assert done + (toVisit + [deps[k]]) == done + toVisit + [deps[k]];
      if deps[k] !in seen {
        Queue(store, roots, done, toVisit, seen, path, deps[k]);
        toVisit := toVisit + [deps[k]];
        seen := seen + {deps[k]};
      }
    }
    AllQueued(store, known, path, seen0, seen);
  }

  lemma SeenAre(store: Store, roots: seq<StorePath>, done: seq<StorePath>, toVisit: seq<StorePath>,
      seen: set<StorePath>)
    requires DiscoverInv(store, roots, done, toVisit, seen)
    ensures forall p :: p in seen <==> p in done + toVisit
  {
  }

  lemma AllQueued(store: Store, known: set<StorePath>, path: StorePath, seen0: set<StorePath>, seen: set<StorePath>)
    requires DepsSeen(store, known - {path}, seen0) && seen0 <= seen
    requires forall m | 0 <= m < |DepsOf(store, path)| :: DepsOf(store, path)[m] in seen
    ensures DepsSeen(store, known, seen)
  {
    forall p, q | p in known && q in DepsOf(store, p) ensures q in seen {
      assert p != path ==> p in known - {path};
    }
  }

  /* ---- second pass: wiring ---- */

  /** Each node's inputs are its dependencies, in order; each node's outputs are the nodes that
      have it as an input, in index order. */
  ghost predicate WiredTo(store: Store, nodes: seq<Node>, index: map<StorePath, nat>, g: Graph) {
    && |g.inputs| == |g.outputs| == |nodes|
    && (forall i | 0 <= i < |nodes| ::
          InputsAre(index, if nodes[i].drvPath in store then store[nodes[i].drvPath] else [], g.inputs[i]))
    && OutputsAre(g)
  }

  predicate InputsAre(index: map<StorePath, nat>, deps: seq<StorePath>, ins: seq<nat>) {
    |ins| == |deps| && forall k | 0 <= k < |deps| :: deps[k] in index && ins[k] == index[deps[k]]
  }

  predicate Ascending(s: seq<nat>) {
    forall a, b | 0 <= a < b < |s| :: s[a] < s[b]
  }

  predicate OutputsAre(g: Graph) {
    && |g.outputs| == |g.inputs|
    && (forall j | 0 <= j < |g.outputs| :: Ascending(g.outputs[j]))
    && (forall j | 0 <= j < |g.outputs| :: forall i | i in g.outputs[j] :: i < |g.inputs| && j in g.inputs[i])
    && (forall i | 0 <= i < |g.inputs| :: forall j | j in g.inputs[i] :: j < |g.outputs| && i in g.outputs[j])
  }

  lemma WiredToIsWired(store: Store, nodes: seq<Node>, index: map<StorePath, nat>, g: Graph)
    requires StoreOk(store) && Indexed(nodes, index) && WiredTo(store, nodes, index, g)
    ensures Wired(g)
  {
    forall i | 0 <= i < |nodes| ensures NoDup(g.inputs[i]) && NoDup(g.outputs[i]) {
      var deps, ins := DepsOf(store, nodes[i].drvPath), g.inputs[i];
      assert InputsAre(index, deps, ins);
      forall a, b | 0 <= a < b < |ins| ensures ins[a] != ins[b] {
        assert deps[a] != deps[b];
      }
    }
  }

  /** After wiring all of `i`'s dependencies before the `k`-th. */
  ghost predicate WiringInv(store: Store, nodes: seq<Node>, index: map<StorePath, nat>, g: Graph, i: nat, k: nat) {
    && |g.inputs| == |nodes| && i <= |nodes|
    && (forall a | 0 <= a < i :: InputsAre(index, DepsOf(store, nodes[a].drvPath), g.inputs[a]))
    && (forall a | i < a < |nodes| :: g.inputs[a] == [])
    && (i < |nodes| ==>
          k <= |DepsOf(store, nodes[i].drvPath)| && InputsAre(index, DepsOf(store, nodes[i].drvPath)[..k], g.inputs[i]))
    && OutputsAre(g)
    && (forall j | 0 <= j < |g.outputs| :: forall a | a in g.outputs[j] :: a <= i)
  }

  lemma NewEdge(store: Store, nodes: seq<Node>, index: map<StorePath, nat>, ins: seq<nat>, i: nat, k: nat)
    requires StoreOk(store) && Indexed(nodes, index) && i < |nodes|
    requires k < |DepsOf(store, nodes[i].drvPath)| && DepsOf(store, nodes[i].drvPath)[k] in index
    requires InputsAre(index, DepsOf(store, nodes[i].drvPath)[..k], ins)
    ensures var j := index[DepsOf(store, nodes[i].drvPath)[k]];
      j < |nodes| && j !in ins && InputsAre(index, DepsOf(store, nodes[i].drvPath)[..k + 1], ins + [j])
  {
    var deps := DepsOf(store, nodes[i].drvPath);
    forall a | 0 <= a < k ensures ins[a] != index[deps[k]] {
      assert deps[..k][a] == deps[a] != deps[k];
    }
  }

  lemma WireOne(store: Store, nodes: seq<Node>, index: map<StorePath, nat>, g: Graph, i: nat, k: nat)
    requires StoreOk(store) && Indexed(nodes, index) && WiringInv(store, nodes, index, g, i, k)
    requires i < |nodes| && k < |DepsOf(store, nodes[i].drvPath)| && DepsOf(store, nodes[i].drvPath)[k] in index
    ensures var j := index[DepsOf(store, nodes[i].drvPath)[k]];
      && j < |g.outputs| == |g.inputs|
      && WiringInv(store, nodes, index, AddEdge(g, i, j), i, k + 1)
  {
    hide StoreOk, Indexed, InputsAre, DepsOf;
    var j := index[DepsOf(store, nodes[i].drvPath)[k]];
    NewEdge(store, nodes, index, g.inputs[i], i, k);
    EdgeOutputs(g, i, j);
    forall b, a | 0 <= b < |g.outputs| && a in AddEdge(g, i, j).outputs[b] ensures a <= i {
      assert a == i || a in g.outputs[b];
    }
  }

  function AddEdge(g: Graph, i: nat, j: nat): Graph
    requires i < |g.inputs| && j < |g.outputs|
  {
    Graph(g.inputs[i := g.inputs[i] + [j]], g.outputs[j := g.outputs[j] + [i]])
  }

  lemma EdgeOutputs(g: Graph, i: nat, j: nat)
    requires OutputsAre(g) && i < |g.inputs| && j < |g.outputs| && j !in g.inputs[i]
    requires forall b | 0 <= b < |g.outputs| :: forall a | a in g.outputs[b] :: a <= i
    ensures OutputsAre(AddEdge(g, i, j))
  {
    var g' := AddEdge(g, i, j);
    assert i !in g.outputs[j];
    forall b | 0 <= b < |g.outputs| ensures Ascending(g'.outputs[b]) {
      assert Ascending(g.outputs[b]);
      assert forall a | 0 <= a < |g.outputs[j]| :: g.outputs[j][a] in g.outputs[j];
    }
  }

  lemma WireNext(store: Store, nodes: seq<Node>, index: map<StorePath, nat>, g: Graph, i: nat)
    requires i < |nodes| && WiringInv(store, nodes, index, g, i, |DepsOf(store, nodes[i].drvPath)|)
    ensures WiringInv(store, nodes, index, g, i + 1, 0)
  {
    var deps := DepsOf(store, nodes[i].drvPath);
    assert deps[..|deps|] == deps;
    if i + 1 < |nodes| {
      assert DepsOf(store, nodes[i + 1].drvPath)[..0] == [];
    }
  }

  lemma WireBegins(store: Store, nodes: seq<Node>, index: map<StorePath, nat>)
    requires forall i | 0 <= i < |nodes| :: nodes[i].inputs == nodes[i].outputs == []
    ensures WiringInv(store, nodes, index, Shape(nodes), 0, 0)
  {
    hide InputsOf, OutputsOf;
    if nodes != [] {
      assert DepsOf(store, nodes[0].drvPath)[..0] == [];
    }
  }

  lemma WireEnds(store: Store, nodes: seq<Node>, index: map<StorePath, nat>, g: Graph)
    requires WiringInv(store, nodes, index, g, |nodes|, 0)
    ensures WiredTo(store, nodes, index, g)
  {
  }

  /** Whatever a discovered derivation depends on has been discovered. */
  ghost predicate Closed(store: Store, nodes: seq<Node>, index: map<StorePath, nat>) {
    forall i | 0 <= i < |nodes| :: forall q | q in DepsOf(store, nodes[i].drvPath) :: q in index
  }

  lemma ReachedIsClosed(store: Store, roots: seq<StorePath>, nodes: seq<Node>, index: map<StorePath, nat>)
    requires Indexed(nodes, index) && forall p :: p in index <==> Reached(store, roots, p)
    ensures Closed(store, nodes, index)
  {
    forall i, q | 0 <= i < |nodes| && q in DepsOf(store, nodes[i].drvPath) ensures q in index {
      assert nodes[i].drvPath in index;
      ReachedNext(store, roots, nodes[i].drvPath, q);
    }
  }

  method Wire(store: Store, nodes: seq<Node>, index: map<StorePath, nat>)
    requires StoreOk(store) && Indexed(nodes, index) && Closed(store, nodes, index) && Apart(nodes)
    requires forall i | 0 <= i < |nodes| :: nodes[i].inputs == nodes[i].outputs == []
    modifies nodes`inputs, nodes`outputs
    ensures WiredTo(store, nodes, index, Shape(nodes))
  {
    hide WiringInv, WiredTo, Closed, StoreOk, Indexed, InputsOf, OutputsOf, Shape, DepsOf, Apart;
    WireBegins(store, nodes, index);
    for i := 0 to |nodes|
      invariant WiringInv(store, nodes, index, Shape(nodes), i, 0)
    {
      WireNode(store, nodes, index, i);
      WireNext(store, nodes, index, Shape(nodes), i);
    }
    WireEnds(store, nodes, index, Shape(nodes));
  }

  method WireNode(store: Store, nodes: seq<Node>, index: map<StorePath, nat>, i: nat)
    requires StoreOk(store) && Indexed(nodes, index) && Closed(store, nodes, index) && Apart(nodes) && i < |nodes|
    requires WiringInv(store, nodes, index, Shape(nodes), i, 0)
    modifies nodes`inputs, nodes`outputs
    ensures WiringInv(store, nodes, index, Shape(nodes), i, |DepsOf(store, nodes[i].drvPath)|)
  {
    hide WiringInv, Closed, StoreOk, InputsOf, OutputsOf, DepsOf, Shape, Indexed;
    var deps := DepsOf(store, nodes[i].drvPath);
    for k := 0 to |deps|
      invariant WiringInv(store, nodes, index, Shape(nodes), i, k)
    {
      FoundDep(store, nodes, index, i, k);
      // every dependency was discovered, so the lookup always succeeds
      if deps[k] in index {
        WireOne(store, nodes, index, Shape(nodes), i, k);
        Connect(nodes, i, index[deps[k]]);
      }
    }
  }

  lemma FoundDep(store: Store, nodes: seq<Node>, index: map<StorePath, nat>, i: nat, k: nat)
    requires Closed(store, nodes, index) && Indexed(nodes, index)
    requires i < |nodes| && k < |DepsOf(store, nodes[i].drvPath)|
    ensures DepsOf(store, nodes[i].drvPath)[k] in index
    ensures index[DepsOf(store, nodes[i].drvPath)[k]] < |nodes|
  {
  }

  method Connect(nodes: seq<Node>, i: nat, j: nat)
    requires Apart(nodes) && i < |nodes| && j < |nodes|
    modifies nodes`inputs, nodes`outputs
    ensures |old(Shape(nodes)).inputs| == |old(Shape(nodes)).outputs| == |nodes|
    ensures Shape(nodes) == AddEdge(old(Shape(nodes)), i, j)
  {
    hide InputsOf, OutputsOf;
    nodes[i].inputs := nodes[i].inputs + [j];
    nodes[j].outputs := nodes[j].outputs + [i];
    assert Shape(nodes).inputs == AddEdge(old(Shape(nodes)), i, j).inputs;
    assert Shape(nodes).outputs == AddEdge(old(Shape(nodes)), i, j).outputs;
  }

  /* ---- roots and leaves ---- */

  method FindEnds(nodes: seq<Node>) returns (roots: seq<nat>, leaves: seq<nat>)
    ensures AreRoots(nodes, roots) && Ascending(roots) && Ascending(leaves)
    ensures forall i: nat :: i in leaves <==> i < |nodes| && nodes[i].inputs == []
  {
    roots, leaves := [], [];
    for i := 0 to |nodes|
      invariant forall k: nat :: k in roots <==> k < i && nodes[k].outputs == []
      invariant forall k: nat :: k in leaves <==> k < i && nodes[k].inputs == []
      invariant Ascending(roots) && Ascending(leaves)
    {
      assert forall a | 0 <= a < |roots| :: roots[a] in roots;
      assert forall a | 0 <= a < |leaves| :: leaves[a] in leaves;
      if nodes[i].outputs == [] {
        roots := roots + [i];
      }
      if nodes[i].inputs == [] {
        leaves := leaves + [i];
      }
    }
  }

  /* ---- the whole construction ---- */

  /** No derivation depends on itself, however indirectly: paths can be ranked. */
  ghost predicate StoreAcyclic(store: Store) {
    exists rank :: Ranks(store, rank)
  }

  predicate Ranks(store: Store, rank: map<StorePath, nat>) {
    forall p | p in store :: p in rank && forall q | q in store[p] :: q in rank && rank[q] < rank[p]
  }

  lemma GraphAcyclic(store: Store, nodes: seq<Node>, index: map<StorePath, nat>, g: Graph)
    requires StoreOk(store) && StoreAcyclic(store) && Indexed(nodes, index) && WiredTo(store, nodes, index, g)
    ensures Acyclic(g)
  {
    var rank :| Ranks(store, rank);
    var r := seq(|nodes|, i requires 0 <= i < |nodes| =>
      if nodes[i].drvPath in rank then rank[nodes[i].drvPath] else 0);
    forall i, j | 0 <= i < |nodes| && j in g.inputs[i] ensures j < |r| && r[j] < r[i] {
      var deps, ins := DepsOf(store, nodes[i].drvPath), g.inputs[i];
      assert InputsAre(index, deps, ins);
      var k :| 0 <= k < |ins| && ins[k] == j;
      assert deps[k] in deps && nodes[j].drvPath == deps[k];
    }
    assert IsRank(g, r);
  }

  /** What the passes leave on the nodes. */
  ghost predicate Measured(nodes: seq<Node>)
    reads nodes
  {
    var g := Shape(nodes);
    && Wired(g)
    && (forall i | 0 <= i < |nodes| :: IsDepth(g, i, nodes[i].depth))
    && AreHeights(g, HeightsOf(nodes)) && AreSizes(g, SizesOf(nodes))
  }

  class DerivationGraph {
    var nodes: seq<Node>
    var pathToIndex: map<StorePath, nat>
    var roots: seq<nat>
    var leaves: seq<nat>

    /** From the store and the root derivations to the finished graph. */
    constructor (store: Store, rootPaths: seq<StorePath>)
      requires StoreOk(store) && StoreAcyclic(store)
      ensures Indexed(nodes, pathToIndex) && forall p :: p in pathToIndex <==> Reached(store, rootPaths, p)
      ensures RootsThenNew(rootPaths, Paths(nodes))
      ensures Paths(nodes) == FirstMentions(rootPaths, Mentioned(store, Paths(nodes)))
      ensures WiredTo(store, nodes, pathToIndex, Shape(nodes)) && Acyclic(Shape(nodes))
      ensures AreRoots(nodes, roots) && forall i: nat :: i in leaves <==> i < |nodes| && nodes[i].inputs == []
      ensures Measured(nodes)
    {
      hide WiredTo, Wired, Acyclic, StoreOk, StoreAcyclic, Reached, Indexed, Measured;
      hide InputsOf, OutputsOf, AreRoots, Shape, Apart, RootsThenNew, FirstMentions, Mentioned, Paths;
      var ns, index := DiscoverAndWire(store, rootPaths);
      WiredToIsWired(store, ns, index, Shape(ns));
      GraphAcyclic(store, ns, index, Shape(ns));
      var ends, tips := FindEnds(ns);
      ComputeMetrics(ns, ends);
      nodes, pathToIndex, roots, leaves := ns, index, ends, tips;
    }
  }

  /** The depth pass, then the height pass; neither touches the edges. */
  method ComputeMetrics(nodes: seq<Node>, roots: seq<nat>)
    requires Apart(nodes) && Wired(Shape(nodes)) && Acyclic(Shape(nodes)) && AreRoots(nodes, roots)
    requires forall i | 0 <= i < |nodes| :: nodes[i].depth == nodes[i].height == 0
    modifies nodes`depth, nodes`height, nodes`subtreeSize
    ensures Measured(nodes)
  {
    hide Wired, Acyclic, AreHeights, AreSizes, IsDepth, InputsOf, OutputsOf, HeightsOf, SizesOf, AreRoots, Shape, Apart;
    ComputeDepths(nodes, roots);
    ComputeHeights(nodes);
  }

  method DiscoverAndWire(store: Store, rootPaths: seq<StorePath>) returns (nodes: seq<Node>, index: map<StorePath, nat>)
    requires StoreOk(store)
    ensures Indexed(nodes, index) && forall p :: p in index <==> Reached(store, rootPaths, p)
    ensures RootsThenNew(rootPaths, Paths(nodes)) && Apart(nodes)
    ensures Paths(nodes) == FirstMentions(rootPaths, Mentioned(store, Paths(nodes)))
    ensures WiredTo(store, nodes, index, Shape(nodes)) && forall i | 0 <= i < |nodes| :: fresh(nodes[i])
    ensures forall i | 0 <= i < |nodes| :: nodes[i].depth == nodes[i].height == nodes[i].subtreeSize == 0
  {
    hide WiredTo, StoreOk, Reached, Indexed, Closed, Blank, InputsOf, OutputsOf, Shape, Apart, RootsThenNew;
    hide FirstMentions, Mentioned, Paths;
    nodes, index := Discover(store, rootPaths);
    BlankMeans(nodes);
    ReachedIsClosed(store, rootPaths, nodes, index);
    Wire(store, nodes, index);
  }

  lemma BlankMeans(nodes: seq<Node>)
    requires Blank(nodes)
    ensures forall i | 0 <= i < |nodes| :: nodes[i].inputs == nodes[i].outputs == []
    ensures forall i | 0 <= i < |nodes| :: nodes[i].depth == nodes[i].height == nodes[i].subtreeSize == 0
  {
  }
}
