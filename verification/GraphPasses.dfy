/** The steps of the passes over a graph, on plain values, and what each pass keeps. */
module GraphPasses {
  import opened DepGraph
  import opened GraphPaths

  /* ---- Kahn's algorithm ---- */

  /** `rest` are dependents of the last node of `order` whose counters have not been lowered yet. */
  ghost predicate KahnInv(g: Graph, inDeg: seq<nat>, order: seq<nat>, ready: seq<nat>, rest: seq<nat>) {
    && Wired(g) && |inDeg| == |g.inputs|
    && NoDup(order + ready)
    && (forall k | 0 <= k < |order| :: order[k] < |g.inputs| && forall j | j in g.inputs[order[k]] :: j in order[..k])
    && (forall k | 0 <= k < |ready| :: ready[k] < |g.inputs|)
    && CountersOk(g, inDeg, order, ready, rest)
  }

  ghost predicate CountersOk(g: Graph, inDeg: seq<nat>, order: seq<nat>, ready: seq<nat>, rest: seq<nat>)
    requires |inDeg| == |g.inputs|
  {
    forall i {:trigger inDeg[i]} | 0 <= i < |g.inputs| ::
      && inDeg[i] == Undone(g.inputs[i], SetOf(order)) + CountOf(i in rest)
      && (inDeg[i] == 0 <==> i in order || i in ready)
  }

  lemma KahnBegins(g: Graph, inDeg: seq<nat>, ready: seq<nat>)
    requires Wired(g) && |inDeg| == |g.inputs| && NoDup(ready)
    requires forall i | 0 <= i < |g.inputs| :: inDeg[i] == |g.inputs[i]|
    requires forall i: nat :: i in ready <==> i < |g.inputs| && inDeg[i] == 0
    ensures KahnInv(g, inDeg, [], ready, [])
  {
    assert [] + ready == ready && SetOf([]) == {};
    forall i | 0 <= i < |g.inputs| ensures inDeg[i] == Undone(g.inputs[i], {}) { UndoneAll(g.inputs[i]); }
    assert forall k | 0 <= k < |ready| :: ready[k] in ready;
  }

  lemma PopCounters(g: Graph, inDeg: seq<nat>, order: seq<nat>, ready: seq<nat>, x: nat)
    requires Wired(g) && |inDeg| == |g.inputs| && x < |g.inputs| && x !in order
    requires CountersOk(g, inDeg, order, [x] + ready, [])
    ensures CountersOk(g, inDeg, order + [x], ready, g.outputs[x])
  {
    assert SetOf(order + [x]) == SetOf(order) + {x};
    forall i | 0 <= i < |g.inputs|
      ensures inDeg[i] == Undone(g.inputs[i], SetOf(order + [x])) + CountOf(i in g.outputs[x])
      ensures inDeg[i] == 0 <==> i in order + [x] || i in ready
    {
      UndoneDrop(g.inputs[i], SetOf(order), x);
      assert x in g.inputs[i] <==> i in g.outputs[x];
    }
  }

  /** Taking the head of the ready queue. */
  lemma KahnPops(g: Graph, inDeg: seq<nat>, order: seq<nat>, ready: seq<nat>)
    requires ready != [] && KahnInv(g, inDeg, order, ready, [])
    ensures KahnInv(g, inDeg, order + [ready[0]], ready[1..], g.outputs[ready[0]])
  {
    var x := ready[0];
    assert ready == [x] + ready[1..];
    assert order + ready == (order + [x]) + ready[1..];
    assert x !in order by {
      forall k | 0 <= k < |order| ensures order[k] != x {
        assert (order + ready)[k] == order[k] && (order + ready)[|order|] == x;
      }
    }
    PopCounters(g, inDeg, order, ready[1..], x);
    UndoneZero(g.inputs[x], SetOf(order));
    assert inDeg[x] == 0;
    hide CountersOk, Undone;
    forall k | 0 <= k < |order + [x]|
      ensures (order + [x])[k] < |g.inputs| && forall j | j in g.inputs[(order + [x])[k]] :: j in (order + [x])[..k]
    {
      assert (order + [x])[..k] == order[..k];
    }
  }

  /** Lowering one counter never takes it below zero; at zero the node becomes ready. */
  lemma KahnLowers(g: Graph, inDeg: seq<nat>, order: seq<nat>, ready: seq<nat>, rest: seq<nat>)
    requires rest != [] && NoDup(rest) && rest[0] < |g.inputs|
    requires KahnInv(g, inDeg, order, ready, rest)
    ensures inDeg[rest[0]] > 0
    ensures var left := inDeg[rest[0]] - 1;
      KahnInv(g, inDeg[rest[0] := left], order, if left == 0 then ready + [rest[0]] else ready, rest[1..])
  {
    var j, rest' := rest[0], rest[1..];
    assert j !in rest' && rest == [j] + rest';
    assert inDeg[j] > 0;
    var left := inDeg[j] - 1;
    var inDeg', ready' := inDeg[j := left], if left == 0 then ready + [j] else ready;
    assert j !in order && j !in ready;
    forall i | 0 <= i < |g.inputs|
      ensures inDeg'[i] == Undone(g.inputs[i], SetOf(order)) + CountOf(i in rest')
      ensures inDeg'[i] == 0 <==> i in order || i in ready'
    {
      assert inDeg[i] == Undone(g.inputs[i], SetOf(order)) + CountOf(i in rest);
      assert i != j ==> (i in rest <==> i in rest');
    }
    assert CountersOk(g, inDeg', order, ready', rest');
    assert NoDup(order + ready') by {
      if left == 0 {
        assert order + ready' == (order + ready) + [j];
      }
    }
  }

  lemma KahnEnds(g: Graph, inDeg: seq<nat>, order: seq<nat>)
    requires KahnInv(g, inDeg, order, [], [])
    ensures IsKahnOrder(g, order)
  {
    assert order + [] == order;
    forall i | 0 <= i < |g.inputs| && i !in order ensures Stuck(g, order, i) {
      UndoneZero(g.inputs[i], SetOf(order));
      assert inDeg[i] != 0;
    }
  }

  lemma KahnBounded(g: Graph, inDeg: seq<nat>, order: seq<nat>, ready: seq<nat>, rest: seq<nat>)
    requires KahnInv(g, inDeg, order, ready, rest)
    ensures |order| + |ready| <= |g.inputs|
  {
    Pigeonhole(order + ready, |g.inputs|);
  }

  /* ---- the depth pass ---- */

  predicate Relaxed(g: Graph, depth: seq<nat>, i: nat, m: nat)
    requires i < |g.inputs| && i < |depth| && m <= |g.inputs[i]| && InRange(g.inputs[i], |depth|)
  {
    forall k | 0 <= k < m :: depth[g.inputs[i][k]] >= depth[i] + 1
  }

  predicate Touched(g: Graph, depth: seq<nat>, i: nat)
    requires i < |g.outputs| && i < |depth|
  {
    g.outputs[i] == [] || depth[i] > 0
  }

  ghost predicate Achieved(g: Graph, i: nat, depth: nat) {
    exists p :: RootPath(g, p, i) && |p| == depth + 1
  }

  predicate Settled(g: Graph, depth: seq<nat>, queue: seq<nat>, i: nat)
    requires Wired(g) && |depth| == |g.inputs| && i < |depth|
  {
    InputsInRange(g, i);
    Touched(g, depth, i) ==> i in queue || Relaxed(g, depth, i, |g.inputs[i]|)
  }

  lemma InputsInRange(g: Graph, i: nat)
    requires Wired(g) && i < |g.inputs|
    ensures InRange(g.inputs[i], |g.inputs|) && InRange(g.outputs[i], |g.inputs|)
  {
    assert forall k | 0 <= k < |g.inputs[i]| :: g.inputs[i][k] in g.inputs[i];
    assert forall k | 0 <= k < |g.outputs[i]| :: g.outputs[i][k] in g.outputs[i];
  }

  ghost predicate DepthInv(g: Graph, depth: seq<nat>, queue: seq<nat>) {
    && Wired(g) && Acyclic(g) && |depth| == |g.inputs| && InRange(queue, |depth|)
    && (forall i {:trigger depth[i]} | 0 <= i < |depth| ::
          (g.outputs[i] == [] ==> depth[i] == 0) && (depth[i] > 0 ==> Achieved(g, i, depth[i])))
    && forall k | 0 <= k < |queue| :: Touched(g, depth, queue[k])
  }

  /** All nodes but `except` are settled. */
  predicate AllSettled(g: Graph, depth: seq<nat>, queue: seq<nat>, except: int)
    requires Wired(g) && |depth| == |g.inputs|
  {
    forall i | 0 <= i < |depth| && i != except :: Settled(g, depth, queue, i)
  }

  lemma NoSelfInput(g: Graph, i: nat, j: nat)
    requires Wired(g) && Acyclic(g) && i < |g.inputs| && j in g.inputs[i]
    ensures i != j
  {
    var rank :| IsRank(g, rank);
  }

  /** Raising the depth of the `m`-th input and queueing it again. */
  lemma RaiseStep(g: Graph, depth: seq<nat>, queue: seq<nat>, idx: nat, m: nat)
    requires DepthInv(g, depth, queue) && AllSettled(g, depth, queue, idx)
    requires idx < |depth| && Touched(g, depth, idx) && m < |g.inputs[idx]|
    requires InRange(g.inputs[idx], |depth|) && Relaxed(g, depth, idx, m)
    requires depth[g.inputs[idx][m]] < depth[idx] + 1
    ensures var j := g.inputs[idx][m];
      var depth' := depth[j := depth[idx] + 1];
      && j != idx
      && DepthInv(g, depth', queue + [j]) && AllSettled(g, depth', queue + [j], idx)
      && Touched(g, depth', idx) && Relaxed(g, depth', idx, m + 1)
  {
    var j := g.inputs[idx][m];
    assert j in g.inputs[idx];
    NoSelfInput(g, idx, j);
    var depth', queue' := depth[j := depth[idx] + 1], queue + [j];
    RaisedIsAchieved(g, depth, queue, idx, j);
    assert idx in g.outputs[j];
    assert DepthInv(g, depth', queue');
    hide DepthInv, Wired, Acyclic;
    forall i | 0 <= i < |depth| && i != idx ensures Settled(g, depth', queue', i) {
      InputsInRange(g, i);
      assert Settled(g, depth, queue, i);
    }
  }

  lemma RaisedIsAchieved(g: Graph, depth: seq<nat>, queue: seq<nat>, idx: nat, j: nat)
    requires DepthInv(g, depth, queue) && idx < |depth| && Touched(g, depth, idx) && j in g.inputs[idx]
    ensures Achieved(g, j, depth[idx] + 1)
  {
    var p: seq<nat>;
    if depth[idx] > 0 {
      p :| RootPath(g, p, idx) && |p| == depth[idx] + 1;
    } else {
      p := [idx];
      assert RootPath(g, p, idx);
    }
    PathSnoc(g, p, j);
    assert RootPath(g, p + [j], j);
  }

  /** Taking a node off the queue leaves all others settled. */
  lemma TakeOff(g: Graph, depth: seq<nat>, queue: seq<nat>)
    requires DepthInv(g, depth, queue) && AllSettled(g, depth, queue, -1) && queue != []
    ensures queue[0] < |depth| && Touched(g, depth, queue[0])
    ensures DepthInv(g, depth, queue[1..]) && AllSettled(g, depth, queue[1..], queue[0])
  {
    assert queue == [queue[0]] + queue[1..];
    forall i | 0 <= i < |depth| && i != queue[0] ensures Settled(g, depth, queue[1..], i) {
      assert Settled(g, depth, queue, i);
    }
  }

  /** Once all its inputs are relaxed it is settled again. */
  lemma PutBack(g: Graph, depth: seq<nat>, queue: seq<nat>, idx: nat)
    requires DepthInv(g, depth, queue) && AllSettled(g, depth, queue, idx) && idx < |depth|
    requires InRange(g.inputs[idx], |depth|) && Relaxed(g, depth, idx, |g.inputs[idx]|)
    ensures AllSettled(g, depth, queue, -1)
  {
    InputsInRange(g, idx);
    assert Settled(g, depth, queue, idx);
  }

  lemma DepthBegins(g: Graph, depth: seq<nat>, roots: seq<nat>)
    requires Wired(g) && Acyclic(g) && |depth| == |g.inputs| && (forall i | 0 <= i < |depth| :: depth[i] == 0)
    requires forall i: nat :: i in roots <==> i < |g.outputs| && g.outputs[i] == []
    ensures DepthInv(g, depth, roots) && AllSettled(g, depth, roots, -1)
  {
    assert forall k | 0 <= k < |roots| :: roots[k] in roots;
  }

  lemma DepthBounded(g: Graph, depth: seq<nat>, queue: seq<nat>, i: nat)
    requires DepthInv(g, depth, queue) && i < |depth|
    ensures depth[i] < |depth|
  {
    if depth[i] > 0 {
      var p :| RootPath(g, p, i) && |p| == depth[i] + 1;
      PathShort(g, p);
    }
  }

  /** How far the depths can still rise. */
  function Slack(depth: seq<nat>, n: nat): nat {
    if depth == [] then 0
    else
      var last := depth[|depth| - 1];
      Slack(depth[..|depth| - 1], n) + if last < n then n - last else 0
  }

  lemma {:induction false} SlackFalls(depth: seq<nat>, n: nat, j: nat, d: nat)
    requires j < |depth| && depth[j] < d <= n
    ensures Slack(depth[j := d], n) < Slack(depth, n)
  {
    var k := |depth| - 1;
    if j == k {
      assert depth[j := d][..k] == depth[..k];
    } else {
      SlackFalls(depth[..k], n, j, d);
      assert depth[j := d][..k] == depth[..k][j := d];
    }
  }

  lemma {:induction false} DepthAlong(g: Graph, depth: seq<nat>, p: seq<nat>, i: nat, a: nat)
    requires DepthInv(g, depth, []) && AllSettled(g, depth, [], -1) && RootPath(g, p, i) && a < |p|
    ensures depth[p[a]] >= a && Touched(g, depth, p[a])
    decreases a
  {
    if a == 0 {
    } else {
      DepthAlong(g, depth, p, i, a - 1);
      var u := p[a - 1];
      assert p[a] in g.inputs[u];
      var k :| 0 <= k < |g.inputs[u]| && g.inputs[u][k] == p[a];
      InputsInRange(g, u);
      assert Settled(g, depth, [], u);
    }
  }

  /** When the queue has run empty every depth is the longest distance from a root. */
  lemma DepthsFinal(g: Graph, depth: seq<nat>, i: nat)
    requires DepthInv(g, depth, []) && AllSettled(g, depth, [], -1) && i < |depth|
    ensures IsDepth(g, i, depth[i])
  {
    forall p | RootPath(g, p, i) ensures |p| - 1 <= depth[i] {
      DepthAlong(g, depth, p, i, |p| - 1);
    }
    if depth[i] > 0 {
      assert Achieved(g, i, depth[i]);
    } else {
      var q := SomeRootPath(g, [i]);
      assert RootPath(g, q, i);
    }
  }

  /* ---- the depth pass and cycles ---- */

  /** Whatever the graph: raising an input that is not deeper yet, and queueing it, leaves every other node
      settled; `d` is the depth `idx` had when it was taken off the queue. */
  lemma RaiseSettles(g: Graph, depth: seq<nat>, queue: seq<nat>, idx: nat, d: nat, m: nat)
    requires Wired(g) && |depth| == |g.inputs| && idx < |depth| && m < |g.inputs[idx]|
    requires AllSettled(g, depth, queue, idx) && d <= depth[idx]
    requires InRange(g.inputs[idx], |depth|)
    requires idx in queue || (depth[idx] == d && Relaxed(g, depth, idx, m))
    requires depth[g.inputs[idx][m]] < d + 1
    ensures var j := g.inputs[idx][m];
      var depth' := depth[j := d + 1];
      && AllSettled(g, depth', queue + [j], idx) && d <= depth'[idx]
      && (idx in queue + [j] || (depth'[idx] == d && Relaxed(g, depth', idx, m + 1)))
  {
    var j := g.inputs[idx][m];
    var depth', queue' := depth[j := d + 1], queue + [j];
    hide Wired;
    forall i | 0 <= i < |depth| && i != idx ensures Settled(g, depth', queue', i) {
      InputsInRange(g, i);
      assert Settled(g, depth, queue, i);
    }
  }

  lemma {:induction false} DepthsRise(g: Graph, depth: seq<nat>, p: seq<nat>, a: nat, b: nat)
    requires Wired(g) && |depth| == |g.inputs| && AllSettled(g, depth, [], -1)
    requires IsPath(g, p) && g.outputs[p[0]] == [] && a <= b < |p|
    ensures Touched(g, depth, p[b]) && (a < b ==> depth[p[a]] < depth[p[b]])
    decreases b
  {
    if b == 0 {
    } else {
      DepthsRise(g, depth, p, if a < b then a else b - 1, b - 1);
      var u := p[b - 1];
      assert p[b] in g.inputs[u];
      var k :| 0 <= k < |g.inputs[u]| && g.inputs[u][k] == p[b];
      InputsInRange(g, u);
      assert Settled(g, depth, [], u);
    }
  }

  /** With an empty queue and all nodes settled, no root reaches a cycle. */
  lemma SettledHasNoCycle(g: Graph, depth: seq<nat>, r: nat)
    requires Wired(g) && |depth| == |g.inputs| && AllSettled(g, depth, [], -1)
    requires r < |g.inputs| && g.outputs[r] == []
    ensures !DependsOnCycle(g, r)
  {
    forall p | IsPath(g, p) && p[0] == r ensures NoDup(p) {
      forall a, b | 0 <= a < b < |p| ensures p[a] != p[b] {
        DepthsRise(g, depth, p, a, b);
      }
    }
  }

  /** How far a node is from the end of the order; 0 outside. */
  function FromEnd(g: Graph, order: seq<nat>): (depth: seq<nat>)
    ensures |depth| == |g.inputs|
  {
    seq(|g.inputs|, i requires 0 <= i < |g.inputs| => if i in order then |order| - Place(order, i) else 0)
  }

  lemma PlaceBefore(g: Graph, order: seq<nat>, i: nat, j: nat)
    requires IsKahnOrder(g, order) && i in order && i < |g.inputs| && j in g.inputs[i]
    ensures j in order && Place(order, j) < Place(order, i)
  {
    var at := Place(order, i);
    var k :| 0 <= k < at && order[..at][k] == j;
    assert order[k] == j && order[Place(order, j)] == j;
  }

  lemma FromEndSettled(g: Graph, order: seq<nat>)
    requires Wired(g) && IsKahnOrder(g, order)
    requires forall r | 0 <= r < |g.inputs| && g.outputs[r] == [] :: !DependsOnCycle(g, r)
    ensures AllSettled(g, FromEnd(g, order), [], -1)
  {
    var depth := FromEnd(g, order);
    hide IsKahnOrder, DependsOnCycle;
    forall i | 0 <= i < |depth| ensures Settled(g, depth, [], i) {
      OrderedIffNoCycle(g, order, i);
      InputsInRange(g, i);
      if Touched(g, depth, i) {
        forall k | 0 <= k < |g.inputs[i]| ensures depth[g.inputs[i][k]] >= depth[i] + 1 {
          PlaceBefore(g, order, i, g.inputs[i][k]);
        }
      }
    }
  }

  /** There are depths with which the loop can stop exactly if no root reaches a cycle. */
  lemma SettledIffNoCycle(g: Graph, order: seq<nat>)
    requires Wired(g) && IsKahnOrder(g, order)
    ensures (exists depth :: |depth| == |g.inputs| && AllSettled(g, depth, [], -1)) <==>
      forall r | 0 <= r < |g.inputs| && g.outputs[r] == [] :: !DependsOnCycle(g, r)
  {
    if depth: seq<nat> :| |depth| == |g.inputs| && AllSettled(g, depth, [], -1) {
      forall r | 0 <= r < |g.inputs| && g.outputs[r] == [] ensures !DependsOnCycle(g, r) {
        SettledHasNoCycle(g, depth, r);
      }
    } else if forall r | 0 <= r < |g.inputs| && g.outputs[r] == [] :: !DependsOnCycle(g, r) {
      FromEndSettled(g, order);
    }
  }

  /* ---- the height pass ---- */

  lemma {:induction false} MaxPlusFrame(h: seq<nat>, h': seq<nat>, at: seq<nat>)
    requires |h| == |h'| && InRange(at, |h|) && forall k | 0 <= k < |at| :: h[at[k]] == h'[at[k]]
    ensures MaxPlus(h, at) == MaxPlus(h', at)
  {
    if at == [] {
    } else {
      MaxPlusFrame(h, h', at[..|at| - 1]);
    }
  }

  lemma {:induction false} SumAtFrame(s: seq<nat>, s': seq<nat>, at: seq<nat>)
    requires |s| == |s'| && InRange(at, |s|) && forall k | 0 <= k < |at| :: s[at[k]] == s'[at[k]]
    ensures SumAt(s, at) == SumAt(s', at)
  {
    if at == [] {
    } else {
      SumAtFrame(s, s', at[..|at| - 1]);
    }
  }

  predicate MeasuredAt(g: Graph, h: seq<nat>, size: seq<nat>, i: nat)
    requires Wired(g) && |h| == |size| == |g.inputs| && i < |h|
  {
    InputsInRange(g, i);
    h[i] == MaxPlus(h, g.inputs[i]) && size[i] == 1 + SumAt(size, g.inputs[i])
  }

  /** Everything before position `k` of the order is measured; heights after it are still 0. */
  predicate MeasuredUpTo(g: Graph, order: seq<nat>, h: seq<nat>, size: seq<nat>, k: nat)
    requires Wired(g) && |h| == |size| == |g.inputs| && k <= |order| && InRange(order, |h|)
  {
    && (forall a | 0 <= a < k :: MeasuredAt(g, h, size, order[a]))
    && forall a | k <= a < |order| :: h[order[a]] == 0
  }

  lemma MeasureStep(g: Graph, order: seq<nat>, h: seq<nat>, size: seq<nat>, k: nat, h': seq<nat>, size': seq<nat>)
    requires Wired(g) && |h| == |size| == |h'| == |size'| == |g.inputs| && k < |order| && InRange(order, |h|)
    requires IsKahnOrder(g, order) && MeasuredUpTo(g, order, h, size, k)
    requires InRange(g.inputs[order[k]], |h|)
    requires h' == h[order[k] := MaxPlus(h, g.inputs[order[k]])]
    requires size' == size[order[k] := 1 + SumAt(size, g.inputs[order[k]])]
    ensures MeasuredUpTo(g, order, h', size', k + 1)
  {
    var i := order[k];
    forall a | 0 <= a <= k ensures MeasuredAt(g, h', size', order[a]) {
      var ins := g.inputs[order[a]];
      InputsInRange(g, order[a]);
      forall b | 0 <= b < |ins| ensures ins[b] != i {
        assert ins[b] in ins;
        assert ins[b] in order[..a];
      }
      MaxPlusFrame(h, h', ins);
      SumAtFrame(size, size', ins);
      assert a < k ==> MeasuredAt(g, h, size, order[a]);
      assert a < k ==> order[a] != i;
    }
    assert forall a | k < a < |order| :: order[a] != i;
  }

  lemma MeasuredAll(g: Graph, order: seq<nat>, h: seq<nat>, size: seq<nat>)
    requires Wired(g) && |h| == |size| == |g.inputs| && InRange(order, |h|)
    requires Acyclic(g) && IsKahnOrder(g, order) && MeasuredUpTo(g, order, h, size, |order|)
    ensures AreHeights(g, h) && AreSizes(g, size)
  {
    PermutationIffAcyclic(g, order);
    forall i | 0 <= i < |g.inputs|
      ensures InRange(g.inputs[i], |h|) && h[i] == MaxPlus(h, g.inputs[i]) && size[i] == 1 + SumAt(size, g.inputs[i])
    {
      assert i in order;
      assert MeasuredAt(g, h, size, order[Place(order, i)]);
      InputsInRange(g, i);
    }
  }

  /* ---- the critical path ---- */

  /** A node of greatest height is a root. */
  lemma {:induction false} TallestAboveIsRoot(g: Graph, h: seq<nat>, i: nat) returns (r: nat)
    requires Wired(g) && AreHeights(g, h) && Acyclic(g) && i < |g.inputs|
    ensures r < |g.inputs| && g.outputs[r] == [] && h[r] >= h[i]
  {
    var q := SomeRootPath(g, [i]);
    r := q[0];
    NoLowerAlong(g, h, q, |q| - 1);
  }

  lemma {:induction false} NoLowerAlong(g: Graph, h: seq<nat>, q: seq<nat>, a: nat)
    requires Wired(g) && AreHeights(g, h) && IsPath(g, q) && a < |q|
    ensures h[q[0]] >= h[q[a]]
    decreases a
  {
    if a == 0 {
    } else {
      NoLowerAlong(g, h, q, a - 1);
      var u := q[a - 1];
      assert q[a] in g.inputs[u];
      var k :| 0 <= k < |g.inputs[u]| && g.inputs[u][k] == q[a];
      MaxPlusBound(h, g.inputs[u], k);
    }
  }
}
