/** The derivation graph: its nodes as objects, and the passes that fill in their fields. */
module DrvGraph {
  import opened DepGraph
  import opened ReadyOrder
  import opened GraphPaths
  import opened GraphPasses

  datatype StorePath = StorePath(text: string)

  class Node {
    const drvPath: StorePath
    var inputs: seq<nat>
    var outputs: seq<nat>
    var depth: nat
    var height: nat
    var subtreeSize: nat

    constructor (path: StorePath)
      ensures drvPath == path && inputs == outputs == [] && depth == height == subtreeSize == 0
    {
      drvPath := path;
      inputs, outputs := [], [];
      depth, height, subtreeSize := 0, 0, 0;
    }
  }

  /* ---- the fields of all nodes, as sequences ---- */

  ghost function InputsOf(ns: seq<Node>): (r: seq<seq<nat>>)
    reads ns`inputs
    ensures |r| == |ns| && forall i | 0 <= i < |ns| :: r[i] == ns[i].inputs
  {
    if ns == [] then [] else InputsOf(ns[..|ns| - 1]) + [ns[|ns| - 1].inputs]
  }

  ghost function OutputsOf(ns: seq<Node>): (r: seq<seq<nat>>)
    reads ns`outputs
    ensures |r| == |ns| && forall i | 0 <= i < |ns| :: r[i] == ns[i].outputs
  {
    if ns == [] then [] else OutputsOf(ns[..|ns| - 1]) + [ns[|ns| - 1].outputs]
  }

  ghost function DepthsOf(ns: seq<Node>): (r: seq<nat>)
    reads ns`depth
    ensures |r| == |ns| && forall i | 0 <= i < |ns| :: r[i] == ns[i].depth
  {
    if ns == [] then [] else DepthsOf(ns[..|ns| - 1]) + [ns[|ns| - 1].depth]
  }

  ghost function HeightsOf(ns: seq<Node>): (r: seq<nat>)
    reads ns`height
    ensures |r| == |ns| && forall i | 0 <= i < |ns| :: r[i] == ns[i].height
  {
    if ns == [] then [] else HeightsOf(ns[..|ns| - 1]) + [ns[|ns| - 1].height]
  }

  ghost function SizesOf(ns: seq<Node>): (r: seq<nat>)
    reads ns`subtreeSize
    ensures |r| == |ns| && forall i | 0 <= i < |ns| :: r[i] == ns[i].subtreeSize
  {
    if ns == [] then [] else SizesOf(ns[..|ns| - 1]) + [ns[|ns| - 1].subtreeSize]
  }

  ghost function Shape(ns: seq<Node>): Graph
    reads ns`inputs, ns`outputs
  {
    Graph(InputsOf(ns), OutputsOf(ns))
  }

  predicate Apart(ns: seq<Node>) {
    forall i, j | 0 <= i < j < |ns| :: ns[i] != ns[j]
  }

  /** The nodes with the given indices. */
  ghost function At(ns: seq<Node>, order: seq<nat>): (r: seq<Node>)
    requires InRange(order, |ns|)
    ensures |r| == |order| && forall k | 0 <= k < |order| :: r[k] == ns[order[k]]
  {
    if order == [] then [] else At(ns, order[..|order| - 1]) + [ns[order[|order| - 1]]]
  }

  /** `roots` are the nodes nothing depends on. */
  ghost predicate AreRoots(ns: seq<Node>, roots: seq<nat>)
    reads ns`outputs
  {
    forall i: nat :: i in roots <==> i < |ns| && ns[i].outputs == []
  }

  /* ---- Kahn's algorithm ---- */

  /** Dependencies before dependents, as nodes and as indices; nodes on or above a cycle are left out. Nodes come in
      the order in which they become ready. */
  method TopologicalOrder(nodes: seq<Node>) returns (result: seq<Node>, order: seq<nat>)
    requires Apart(nodes) && Wired(Shape(nodes))
    ensures InRange(order, |nodes|) && result == At(nodes, order)
    ensures IsKahnOrder(Shape(nodes), order) && order == ReadyAfter(Shape(nodes), order)
  {
    hide InputsOf, OutputsOf, DepthsOf, HeightsOf, SizesOf, At;
    hide ReadyAfter, LeavesFrom, Unlocked, KahnInv, IsKahnOrder, Wired, Apart, NoDup;
    ghost var g := Shape(nodes);
    var inDegree := CountInputs(nodes);
    var ready := FindLeaves(g, inDegree);
    result, order := [], [];
    KahnBegins(g, inDegree, ready);
    FirstReady(g);
    assert [] + ready == ready;
    while ready != []
      invariant KahnInv(g, inDegree, order, ready, [])
      invariant order + ready == ReadyAfter(g, order)
      invariant InRange(order, |nodes|) && result == At(nodes, order)
      decreases |nodes| - |order|
    {
      KahnBounded(g, inDegree, order, ready, []);
      var idx;
      idx, inDegree, ready := OrderNext(nodes, g, order, inDegree, ready);
      result := result + [nodes[idx]];
      ghost var before := order;
      order := order + [idx];
      assert order[..|order| - 1] == before;
    }
    KahnEnds(g, inDegree, order);
    assert order + [] == order;
  }

  /** Take the first ready node and tell its dependents. */
  method OrderNext(nodes: seq<Node>, ghost g: Graph, ghost order: seq<nat>, inDegree0: seq<nat>, ready0: seq<nat>)
    returns (idx: nat, inDegree: seq<nat>, ready: seq<nat>)
    requires Shape(nodes) == g && Wired(g) && ready0 != []
    requires KahnInv(g, inDegree0, order, ready0, []) && order + ready0 == ReadyAfter(g, order)
    ensures idx < |nodes| && KahnInv(g, inDegree, order + [idx], ready, [])
    ensures (order + [idx]) + ready == ReadyAfter(g, order + [idx])
  {
    hide InputsOf, OutputsOf, KahnInv, ReadyAfter, Unlocked, Handled, NoDup;
    ReadyInRange(g, inDegree0, order, ready0);
    KahnPops(g, inDegree0, order, ready0);
    idx := ready0[0];
    ready := ready0[1..];
    InputsInRange(g, idx);
    NoDupOutputs(g, idx);
    assert [idx] + ready == ready0;
    ReadyNext(g, order, ready, idx);
    inDegree, ready := LowerDependents(g, nodes[idx].outputs, inDegree0, order + [idx], ready);
  }

  lemma ReadyInRange(g: Graph, inDegree: seq<nat>, order: seq<nat>, ready: seq<nat>)
    requires KahnInv(g, inDegree, order, ready, []) && ready != []
    ensures ready[0] < |g.inputs|
  {
  }

  lemma NoDupOutputs(g: Graph, i: nat)
    requires Wired(g) && i < |g.inputs|
    ensures NoDup(g.outputs[i])
  {
  }

  method CountInputs(nodes: seq<Node>) returns (inDegree: seq<nat>)
    ensures |inDegree| == |nodes| && forall k | 0 <= k < |nodes| :: inDegree[k] == |nodes[k].inputs|
  {
    inDegree := [];
    for i := 0 to |nodes|
      invariant |inDegree| == i && forall k | 0 <= k < i :: inDegree[k] == |nodes[k].inputs|
    {
      inDegree := inDegree + [|nodes[i].inputs|];
    }
  }

  method FindLeaves(ghost g: Graph, inDegree: seq<nat>) returns (ready: seq<nat>)
    requires |inDegree| == |g.inputs| && forall k | 0 <= k < |inDegree| :: inDegree[k] == |g.inputs[k]|
    ensures NoDup(ready) && forall k: nat :: k in ready <==> k < |inDegree| && inDegree[k] == 0
    ensures ready == LeavesFrom(g, 0)
  {
    ready := [];
    for i := 0 to |inDegree|
      invariant NoDup(ready) && forall k: nat :: k in ready <==> k < i && inDegree[k] == 0
      invariant ready + LeavesFrom(g, i) == LeavesFrom(g, 0)
    {
      if inDegree[i] == 0 {
        ready := ready + [i];
      }
    }
    assert ready + [] == ready;
  }

  lemma FirstReady(g: Graph)
    ensures ReadyAfter(g, []) == LeavesFrom(g, 0)
  {
  }

  /** What has been ordered and what is ready, once `idx` has been moved from the one to the other and its dependents
      have been told. */
  lemma ReadyNext(g: Graph, order: seq<nat>, ready: seq<nat>, idx: nat)
    requires order + ([idx] + ready) == ReadyAfter(g, order) && idx < |g.outputs|
    ensures (order + [idx]) + (ready + Unlocked(g, Handled(order + [idx]), g.outputs[idx]))
         == ReadyAfter(g, order + [idx])
  {
    hide Unlocked, Handled, LeavesFrom;
    assert (order + [idx])[..|order|] == order;
    Rejoin(order, [idx], ready, Unlocked(g, Handled(order + [idx]), g.outputs[idx]));
  }

  lemma Rejoin(a: seq<nat>, b: seq<nat>, c: seq<nat>, d: seq<nat>)
    ensures (a + b) + (c + d) == (a + (b + c)) + d
  {
  }

  /** A counter reaches zero exactly if all inputs have been ordered. */
  lemma UnlockedHead(g: Graph, inDegree: seq<nat>, order: seq<nat>, ready: seq<nat>, rest: seq<nat>)
    requires KahnInv(g, inDegree, order, ready, rest) && rest != [] && rest[0] < |g.inputs| && inDegree[rest[0]] > 0
    ensures Unlocked(g, Handled(order), rest)
         == (if inDegree[rest[0]] - 1 == 0 then [rest[0]] else []) + Unlocked(g, Handled(order), rest[1..])
  {
    var j := rest[0];
    assert inDegree[j] == Undone(g.inputs[j], SetOf(order)) + CountOf(j in rest);
    UndoneZero(g.inputs[j], SetOf(order));
    assert SetOf(order) == Handled(order);
  }

  lemma KahnSized(g: Graph, inDegree: seq<nat>, order: seq<nat>, ready: seq<nat>, rest: seq<nat>)
    requires KahnInv(g, inDegree, order, ready, rest)
    ensures |inDegree| == |g.inputs|
  {
  }

  /** Lowering one counter. */
  lemma LowerStep(g: Graph, inDegree: seq<nat>, order: seq<nat>, ready: seq<nat>, rest: seq<nat>)
    requires KahnInv(g, inDegree, order, ready, rest) && rest != [] && NoDup(rest) && rest[0] < |g.inputs|
    ensures |inDegree| == |g.inputs| && inDegree[rest[0]] > 0
    ensures var left := inDegree[rest[0]] - 1;
      var ready' := if left == 0 then ready + [rest[0]] else ready;
      && KahnInv(g, inDegree[rest[0] := left], order, ready', rest[1..])
      && ready' + Unlocked(g, Handled(order), rest[1..]) == ready + Unlocked(g, Handled(order), rest)
  {
    hide KahnInv, Unlocked, Handled, NoDup;
    KahnSized(g, inDegree, order, ready, rest);
    KahnLowers(g, inDegree, order, ready, rest);
    UnlockedHead(g, inDegree, order, ready, rest);
    var unlocked := if inDegree[rest[0]] - 1 == 0 then [rest[0]] else [];
    assert ready + (unlocked + Unlocked(g, Handled(order), rest[1..]))
        == ready + unlocked + Unlocked(g, Handled(order), rest[1..]);
    assert ready + [] == ready;
  }

  lemma RestOk(outs: seq<nat>, k: nat)
    requires NoDup(outs) && k < |outs|
    ensures NoDup(outs[k..]) && outs[k..][0] == outs[k] && outs[k..][1..] == outs[k + 1..]
  {
  }

  method LowerDependents(ghost g: Graph, outs: seq<nat>, inDegree0: seq<nat>, ghost order: seq<nat>, ready0: seq<nat>)
    returns (inDegree: seq<nat>, ready: seq<nat>)
    requires KahnInv(g, inDegree0, order, ready0, outs) && NoDup(outs) && InRange(outs, |g.inputs|)
    ensures KahnInv(g, inDegree, order, ready, []) && ready == ready0 + Unlocked(g, Handled(order), outs)
  {
    hide KahnInv, Handled, NoDup, Unlocked;
    inDegree, ready := inDegree0, ready0;
    assert outs[0..] == outs;
    for k := 0 to |outs|
      invariant KahnInv(g, inDegree, order, ready, outs[k..])
      invariant ready + Unlocked(g, Handled(order), outs[k..]) == ready0 + Unlocked(g, Handled(order), outs)
    {
      RestOk(outs, k);
      LowerStep(g, inDegree, order, ready, outs[k..]);
      var j := outs[k];
      var left := inDegree[j] - 1;
      inDegree := inDegree[j := left];
      if left == 0 {
        ready := ready + [j];
      }
    }
    assert outs[|outs|..] == [];
    NoneUnlocked(g, Handled(order));
    assert ready + [] == ready;
  }

  lemma NoneUnlocked(g: Graph, done: set<nat>)
    ensures Unlocked(g, done, []) == []
  {
  }

  /* ---- the depth pass ---- */

  /** A queue of nodes whose inputs are to be looked at again: every depth ends up the longest
      distance from a root, however often a node was queued. */
  method ComputeDepths(nodes: seq<Node>, roots: seq<nat>)
    requires Apart(nodes) && Wired(Shape(nodes)) && Acyclic(Shape(nodes))
    requires AreRoots(nodes, roots)
    requires forall i | 0 <= i < |nodes| :: nodes[i].depth == 0
    modifies nodes`depth
    ensures forall i | 0 <= i < |nodes| :: IsDepth(Shape(nodes), i, nodes[i].depth)
  {
    hide InputsOf, OutputsOf, DepthsOf, HeightsOf, SizesOf, At;
    ghost var g := Shape(nodes);
    assert forall k | 0 <= k < |roots| :: roots[k] in roots;
    var queue := QueueRoots(nodes, roots);
    DepthBegins(g, DepthsOf(nodes), queue);
    hide DepthInv, AllSettled, Wired, Acyclic, InRange, IsDepth, Slack, Touched;
    while queue != []
      invariant Shape(nodes) == g
      invariant DepthInv(g, DepthsOf(nodes), queue) && Wired(g) && AllSettled(g, DepthsOf(nodes), queue, -1)
      decreases Slack(DepthsOf(nodes), |nodes|), |queue|
    {
      TakeOff(g, DepthsOf(nodes), queue);
      queue := RelaxInputs(nodes, g, queue[0], queue[1..]);
    }
    forall i | 0 <= i < |nodes| ensures IsDepth(g, i, nodes[i].depth) {
      DepthsFinal(g, DepthsOf(nodes), i);
    }
  }

  method QueueRoots(nodes: seq<Node>, roots: seq<nat>) returns (queue: seq<nat>)
    requires forall k | 0 <= k < |roots| :: roots[k] < |nodes|
    requires forall i | 0 <= i < |nodes| :: nodes[i].depth == 0
    modifies nodes`depth
    ensures queue == roots && (forall i | 0 <= i < |nodes| :: nodes[i].depth == 0)
  {
    queue := [];
    for k := 0 to |roots|
      invariant queue == roots[..k] && (forall i | 0 <= i < |nodes| :: nodes[i].depth == 0)
    {
      nodes[roots[k]].depth := 0;
      queue := queue + [roots[k]];
    }
  }

  /** Raise each input that is not yet deeper than `idx`, and queue it. */
  method RelaxInputs(nodes: seq<Node>, ghost g: Graph, idx: nat, queue0: seq<nat>) returns (queue: seq<nat>)
    requires Apart(nodes) && Shape(nodes) == g && idx < |nodes| && Wired(g)
    requires DepthInv(g, DepthsOf(nodes), queue0) && AllSettled(g, DepthsOf(nodes), queue0, idx)
    requires Touched(g, DepthsOf(nodes), idx)
    modifies nodes`depth
    ensures DepthInv(g, DepthsOf(nodes), queue) && AllSettled(g, DepthsOf(nodes), queue, -1)
    ensures Slack(DepthsOf(nodes), |nodes|) < old(Slack(DepthsOf(nodes), |nodes|))
         || (DepthsOf(nodes) == old(DepthsOf(nodes)) && queue == queue0)
  {
    hide InputsOf, OutputsOf, DepthsOf, DepthInv, AllSettled, Wired, Slack, Touched, Relaxed, Apart, Shape, InRange;
    queue := queue0;
    RowOf(nodes, g, idx);
    InputsInRange(g, idx);
    NothingRelaxed(g, DepthsOf(nodes), idx);
    ghost var d0, s0 := DepthsOf(nodes), Slack(DepthsOf(nodes), |nodes|);
    var n := |nodes[idx].inputs|;
    for m := 0 to n
      invariant Shape(nodes) == g && |DepthsOf(nodes)| == |g.inputs| == |nodes|
      invariant DepthInv(g, DepthsOf(nodes), queue) && AllSettled(g, DepthsOf(nodes), queue, idx)
      invariant Touched(g, DepthsOf(nodes), idx) && Relaxed(g, DepthsOf(nodes), idx, m)
      invariant Slack(DepthsOf(nodes), |nodes|) < s0 || (DepthsOf(nodes) == d0 && queue == queue0)
    {
      queue := RaiseInput(nodes, g, idx, m, queue);
    }
    PutBack(g, DepthsOf(nodes), queue, idx);
  }

  lemma RowOf(nodes: seq<Node>, g: Graph, i: nat)
    requires Shape(nodes) == g && i < |nodes|
    ensures |g.inputs| == |g.outputs| == |nodes| && g.inputs[i] == nodes[i].inputs
  {
  }

  lemma NothingRelaxed(g: Graph, depth: seq<nat>, i: nat)
    requires i < |g.inputs| && i < |depth| && InRange(g.inputs[i], |depth|)
    ensures Relaxed(g, depth, i, 0)
  {
  }

  method RaiseInput(nodes: seq<Node>, ghost g: Graph, idx: nat, m: nat, queue0: seq<nat>) returns (queue: seq<nat>)
    requires Apart(nodes) && Shape(nodes) == g && idx < |nodes| && m < |nodes[idx].inputs| && Wired(g)
    requires InRange(g.inputs[idx], |nodes|)
    requires DepthInv(g, DepthsOf(nodes), queue0) && AllSettled(g, DepthsOf(nodes), queue0, idx)
    requires Touched(g, DepthsOf(nodes), idx) && Relaxed(g, DepthsOf(nodes), idx, m)
    modifies nodes`depth
    ensures nodes[idx].depth == old(nodes[idx].depth)
    ensures DepthInv(g, DepthsOf(nodes), queue) && AllSettled(g, DepthsOf(nodes), queue, idx)
    ensures Touched(g, DepthsOf(nodes), idx) && Relaxed(g, DepthsOf(nodes), idx, m + 1)
    ensures Slack(DepthsOf(nodes), |nodes|) < old(Slack(DepthsOf(nodes), |nodes|))
         || (DepthsOf(nodes) == old(DepthsOf(nodes)) && queue == queue0)
  {
    hide InputsOf, OutputsOf, DepthsOf, DepthInv, AllSettled, Wired, Slack, Touched, Relaxed;
    var depth := nodes[idx].depth;
    var inputIdx := nodes[idx].inputs[m];
    ghost var d := DepthsOf(nodes);
    if nodes[inputIdx].depth < depth + 1 {
      RaiseStep(g, d, queue0, idx, m);
      DepthBounded(g, d[inputIdx := depth + 1], queue0 + [inputIdx], inputIdx);
      SlackFalls(d, |nodes|, inputIdx, depth + 1);
      nodes[inputIdx].depth := depth + 1;
      assert DepthsOf(nodes) == d[inputIdx := depth + 1];
      queue := queue0 + [inputIdx];
    } else {
      RelaxedAlready(g, d, idx, m);
      queue := queue0;
    }
  }

  lemma RelaxedAlready(g: Graph, depth: seq<nat>, i: nat, m: nat)
    requires i < |g.inputs| && i < |depth| && m < |g.inputs[i]| && InRange(g.inputs[i], |depth|)
    requires Relaxed(g, depth, i, m) && depth[g.inputs[i][m]] >= depth[i] + 1
    ensures Relaxed(g, depth, i, m + 1)
  {
  }

  /* ---- heights and subtree sizes ---- */

  method ComputeHeights(nodes: seq<Node>)
    requires Apart(nodes) && Wired(Shape(nodes)) && Acyclic(Shape(nodes))
    requires forall i | 0 <= i < |nodes| :: nodes[i].height == 0
    modifies nodes`height, nodes`subtreeSize
    ensures AreHeights(Shape(nodes), HeightsOf(nodes)) && AreSizes(Shape(nodes), SizesOf(nodes))
  {
    hide InputsOf, OutputsOf, DepthsOf, HeightsOf, SizesOf, At;
    ghost var g := Shape(nodes);
    var result, order := TopologicalOrder(nodes);
    MeasureBegins(g, order, HeightsOf(nodes), SizesOf(nodes));
    hide Wired, Acyclic, IsKahnOrder, MeasuredUpTo, AreHeights, AreSizes;
    for k := 0 to |result|
      invariant Shape(nodes) == g
      invariant MeasuredUpTo(g, order, HeightsOf(nodes), SizesOf(nodes), k)
    {
      MeasureNth(nodes, g, order, k, result[k]);
    }
    MeasuredAll(g, order, HeightsOf(nodes), SizesOf(nodes));
  }

  method MeasureNth(nodes: seq<Node>, ghost g: Graph, ghost order: seq<nat>, ghost k: nat, node: Node)
    requires Apart(nodes) && Shape(nodes) == g && Wired(g) && Acyclic(g) && InRange(order, |nodes|)
    requires IsKahnOrder(g, order) && k < |order| && node == nodes[order[k]]
    requires MeasuredUpTo(g, order, HeightsOf(nodes), SizesOf(nodes), k)
    modifies node`height, node`subtreeSize
    ensures MeasuredUpTo(g, order, HeightsOf(nodes), SizesOf(nodes), k + 1)
  {
    hide InputsOf, OutputsOf, HeightsOf, SizesOf, Wired, Acyclic, IsKahnOrder, MeasuredUpTo;
    ghost var h, size := HeightsOf(nodes), SizesOf(nodes);
    InputsInRange(g, order[k]);
    MeasureNext(g, order, h, size, k);
    Measure(nodes, g, node, order[k]);
    MeasureStep(g, order, h, size, k, HeightsOf(nodes), SizesOf(nodes));
  }

  lemma MeasureBegins(g: Graph, order: seq<nat>, h: seq<nat>, size: seq<nat>)
    requires Wired(g) && |h| == |size| == |g.inputs| && InRange(order, |h|)
    requires forall i | 0 <= i < |h| :: h[i] == 0
    ensures MeasuredUpTo(g, order, h, size, 0)
  {
  }

  lemma MeasureNext(g: Graph, order: seq<nat>, h: seq<nat>, size: seq<nat>, k: nat)
    requires Wired(g) && |h| == |size| == |g.inputs| && InRange(order, |h|) && k < |order|
    requires MeasuredUpTo(g, order, h, size, k)
    ensures h[order[k]] == 0
  {
  }

  /** One node, from the numbers on its inputs. */
  method Measure(nodes: seq<Node>, ghost g: Graph, node: Node, ghost i: nat)
    requires Apart(nodes) && Shape(nodes) == g && i < |nodes| && node == nodes[i] && node.height == 0
    requires Wired(g) && Acyclic(g) && InRange(node.inputs, |nodes|)
    modifies node`height, node`subtreeSize
    ensures HeightsOf(nodes) == old(HeightsOf(nodes)[i := MaxPlus(HeightsOf(nodes), node.inputs)])
    ensures SizesOf(nodes) == old(SizesOf(nodes)[i := 1 + SumAt(SizesOf(nodes), node.inputs)])
  {
    hide InputsOf, OutputsOf, HeightsOf, SizesOf, Wired, Acyclic;
    forall k | 0 <= k < |node.inputs| ensures nodes[node.inputs[k]] != node {
      assert node.inputs[k] in g.inputs[i];
      NoSelfInput(g, i, node.inputs[k]);
    }
    Accumulate(nodes, node);
  }

  method Accumulate(nodes: seq<Node>, node: Node)
    requires node.height == 0 && InRange(node.inputs, |nodes|)
    requires forall k | 0 <= k < |node.inputs| :: nodes[node.inputs[k]] != node
    modifies node`height, node`subtreeSize
    ensures node.height == old(MaxPlus(HeightsOf(nodes), node.inputs))
    ensures node.subtreeSize == old(1 + SumAt(SizesOf(nodes), node.inputs))
  {
    hide HeightsOf, SizesOf;
    ghost var h, size := HeightsOf(nodes), SizesOf(nodes);
    node.subtreeSize := 1;
    for m := 0 to |node.inputs|
      invariant InRange(node.inputs[..m], |nodes|)
      invariant node.height == MaxPlus(h, node.inputs[..m])
      invariant node.subtreeSize == 1 + SumAt(size, node.inputs[..m])
    {
      var input := nodes[node.inputs[m]];
      assert node.inputs[..m + 1][..m] == node.inputs[..m];
      assert input.height == h[node.inputs[m]] && input.subtreeSize == size[node.inputs[m]];
      node.height := if node.height < input.height + 1 then input.height + 1 else node.height;
      node.subtreeSize := node.subtreeSize + input.subtreeSize;
    }
    assert node.inputs[..|node.inputs|] == node.inputs;
  }

  /* ---- the critical path ---- */

  /** Of the candidates, `at` is the first of the tallest. */
  ghost predicate FirstTallest(nodes: seq<Node>, candidates: seq<nat>, at: nat)
    reads nodes
  {
    exists k :: 0 <= k < |candidates| && IsFirstTallest(nodes, candidates, k) && candidates[k] == at
  }

  ghost predicate IsFirstTallest(nodes: seq<Node>, candidates: seq<nat>, k: nat)
    requires k < |candidates|
    reads nodes
  {
    && (forall m | 0 <= m < |candidates| :: candidates[m] < |nodes|)
    && (forall m | 0 <= m < |candidates| :: nodes[candidates[m]].height <= nodes[candidates[k]].height)
    && (forall m | 0 <= m < k :: nodes[candidates[m]].height < nodes[candidates[k]].height)
  }

  /** The chain followed from the tallest root is a longest dependency chain of the whole graph. */
  method CriticalPath(nodes: seq<Node>, roots: seq<nat>) returns (path: seq<Node>, p: seq<nat>)
    requires Apart(nodes) && Wired(Shape(nodes)) && Acyclic(Shape(nodes)) && AreHeights(Shape(nodes), HeightsOf(nodes))
    requires AreRoots(nodes, roots)
    ensures InRange(p, |nodes|) && path == At(nodes, p)
    ensures nodes == [] ==> p == []
    ensures nodes != [] ==> IsPath(Shape(nodes), p) && nodes[p[0]].outputs == [] && nodes[p[|p| - 1]].inputs == []
    ensures forall q | IsPath(Shape(nodes), q) :: |q| <= |p|
    ensures nodes != [] ==> FirstTallest(nodes, roots, p[0])
    ensures forall a | 0 < a < |p| :: FirstTallest(nodes, nodes[p[a - 1]].inputs, p[a])
  {
    hide InputsOf, OutputsOf, DepthsOf, HeightsOf, SizesOf, At, Shape;
    hide AreRoots, Wired, Acyclic, AreHeights, IsPath, Apart;
    if nodes == [] {
      NoPaths(nodes);
      return [], [];
    }
    ghost var g, h := Shape(nodes), HeightsOf(nodes);
    RootsFound(nodes, roots);
    var start, at := TallestRoot(nodes, roots);
    AllShorter(nodes, g, h, roots, start.height);
    RootFound(nodes, roots, at);
    path, p := Descend(nodes, g, start, at);
  }

  lemma NoPaths(nodes: seq<Node>)
    requires nodes == []
    ensures forall q :: !IsPath(Shape(nodes), q)
  {
    forall q: seq<nat> ensures !IsPath(Shape(nodes), q) {
      assert q != [] ==> q[0] >= |nodes|;
    }
  }

  lemma RootsFound(nodes: seq<Node>, roots: seq<nat>)
    requires nodes != [] && Wired(Shape(nodes)) && Acyclic(Shape(nodes))
    requires AreHeights(Shape(nodes), HeightsOf(nodes)) && AreRoots(nodes, roots)
    ensures roots != [] && forall k | 0 <= k < |roots| :: roots[k] < |nodes|
  {
    hide InputsOf, OutputsOf, HeightsOf;
    var top := TallestAboveIsRoot(Shape(nodes), HeightsOf(nodes), 0);
    assert top in roots;
    assert forall k | 0 <= k < |roots| :: roots[k] in roots;
  }

  lemma RootFound(nodes: seq<Node>, roots: seq<nat>, at: nat)
    requires AreRoots(nodes, roots) && at in roots
    ensures at < |nodes| && nodes[at].outputs == []
  {
  }

  /** The first of the tallest roots. */
  method TallestRoot(nodes: seq<Node>, roots: seq<nat>) returns (start: Node, at: nat)
    requires roots != [] && forall k | 0 <= k < |roots| :: roots[k] < |nodes|
    ensures at in roots && start == nodes[at]
    ensures forall m | 0 <= m < |roots| :: nodes[roots[m]].height <= start.height
    ensures FirstTallest(nodes, roots, at)
  {
    var best: Node? := null;
    at := 0;
    ghost var first: nat := 0;
    for k := 0 to |roots|
      invariant best == null <==> k == 0
      invariant best != null ==> first < k && at == roots[first] && best == nodes[at]
      invariant forall m | 0 <= m < k :: nodes[roots[m]].height <= best.height
      invariant best != null ==> forall m | 0 <= m < first :: nodes[roots[m]].height < best.height
    {
      var node := nodes[roots[k]];
      if best == null || node.height > best.height {
        best, at := node, roots[k];
        first := k;
      }
    }
    start := best;
    assert IsFirstTallest(nodes, roots, first);
  }

  lemma AllShorter(nodes: seq<Node>, g: Graph, h: seq<nat>, roots: seq<nat>, tallest: nat)
    requires Wired(g) && AreHeights(g, h) && Acyclic(g) && g == Shape(nodes) && h == HeightsOf(nodes)
    requires AreRoots(nodes, roots) && forall m | 0 <= m < |roots| :: roots[m] < |h| && h[roots[m]] <= tallest
    ensures forall q | IsPath(g, q) :: |q| <= tallest + 1
  {
    hide InputsOf, OutputsOf, HeightsOf, Wired, AreHeights, Acyclic;
    forall q | IsPath(g, q) ensures |q| <= tallest + 1 {
      NoLongerPath(g, h, q);
      var r := TallestAboveIsRoot(g, h, q[0]);
      assert r in roots;
    }
  }

  /** The first of the tallest inputs, if there are any. */
  method TallestInput(nodes: seq<Node>, curr: Node) returns (next: Node?, k: nat)
    requires InRange(curr.inputs, |nodes|)
    ensures next == null <==> curr.inputs == []
    ensures next != null ==> k < |curr.inputs| && next == nodes[curr.inputs[k]]
    ensures next != null ==> next.height + 1 == MaxPlus(HeightsOf(nodes), curr.inputs)
    ensures next != null ==> IsFirstTallest(nodes, curr.inputs, k)
  {
    hide HeightsOf;
    next, k := null, 0;
    for m := 0 to |curr.inputs|
      invariant next == null <==> m == 0
      invariant m > 0 ==> k < m && next == nodes[curr.inputs[k]]
      invariant m > 0 ==> next.height + 1 == MaxPlus(HeightsOf(nodes), curr.inputs[..m])
      invariant m > 0 ==> forall j | 0 <= j < m :: nodes[curr.inputs[j]].height <= next.height
      invariant m > 0 ==> forall j | 0 <= j < k :: nodes[curr.inputs[j]].height < next.height
    {
      var input := nodes[curr.inputs[m]];
      assert curr.inputs[..m + 1][..m] == curr.inputs[..m];
      if next == null || input.height > next.height {
        next, k := input, m;
      }
    }
    assert curr.inputs[..|curr.inputs|] == curr.inputs;
  }

  /** Follow the tallest input until there is none. */
  method Descend(nodes: seq<Node>, ghost g: Graph, start: Node, at0: nat) returns (path: seq<Node>, p: seq<nat>)
    requires Apart(nodes) && Shape(nodes) == g && Wired(g) && AreHeights(g, HeightsOf(nodes))
    requires at0 < |nodes| && start == nodes[at0]
    ensures InRange(p, |nodes|) && path == At(nodes, p)
    ensures IsPath(g, p) && p[0] == at0 && nodes[p[|p| - 1]].inputs == [] && |p| == start.height + 1
    ensures forall a | 0 < a < |p| :: FirstTallest(nodes, nodes[p[a - 1]].inputs, p[a])
  {
    hide InputsOf, OutputsOf, DepthsOf, HeightsOf, SizesOf, At;
    hide InputsOf, OutputsOf, HeightsOf, At, Wired, AreHeights, Apart, FirstTallest, IsFirstTallest;
    path, p := [], [];
    var curr: Node? := start;
    var at: nat := at0;
    ghost var last: nat := at0;
    while curr != null
      invariant InRange(p, |nodes|) && path == At(nodes, p)
      invariant curr != null ==> at < |nodes| && curr == nodes[at] && |p| + curr.height == start.height
      invariant p == [] <==> (curr != null && at == at0 && p == [])
      invariant p != [] ==> IsPath(g, p) && p[0] == at0 && p[|p| - 1] == last && last < |nodes|
      invariant curr != null && p != [] ==> at in g.inputs[last] && FirstTallest(nodes, nodes[last].inputs, at)
      invariant forall a | 0 < a < |p| :: FirstTallest(nodes, nodes[p[a - 1]].inputs, p[a])
      invariant curr == null ==> p != [] && nodes[last].inputs == [] && |p| == start.height + 1
      decreases if curr == null then 0 else curr.height + 1
    {
      ghost var before := p;
      path, p := path + [curr], p + [at];
      assert p[..|p| - 1] == before;
      Extended(g, before, at);
      InputsInRange(g, at);
      HeightAt(g, HeightsOf(nodes), at);
      last := at;
      var next, k := TallestInput(nodes, curr);
      if next != null {
        assert curr.inputs[k] in g.inputs[at];
        FirstIs(nodes, nodes[last].inputs, k);
        at := curr.inputs[k];
      }
      curr := next;
    }
  }

  lemma FirstIs(nodes: seq<Node>, candidates: seq<nat>, k: nat)
    requires k < |candidates| && IsFirstTallest(nodes, candidates, k)
    ensures FirstTallest(nodes, candidates, candidates[k])
  {
  }

  lemma Extended(g: Graph, p: seq<nat>, at: nat)
    requires at < |g.inputs| && (p != [] ==> IsPath(g, p) && at in g.inputs[p[|p| - 1]])
    ensures IsPath(g, p + [at])
  {
    if p != [] {
      PathSnoc(g, p, at);
    }
  }

  lemma HeightAt(g: Graph, h: seq<nat>, i: nat)
    requires Wired(g) && AreHeights(g, h) && i < |g.inputs|
    ensures InRange(g.inputs[i], |h|) && h[i] == MaxPlus(h, g.inputs[i])
  {
  }
}
