/** In which order nodes become ready when they are handled in a given order. */
module ReadyOrder {
  import opened DepGraph

  /** The nodes without inputs, ascending, from node `i` on. */
  function LeavesFrom(g: Graph, i: nat): seq<nat>
    decreases |g.inputs| - i
  {
    if i >= |g.inputs| then []
    else (if g.inputs[i] == [] then [i] else []) + LeavesFrom(g, i + 1)
  }

  /** Those of `outs`, in this order, whose inputs are all done. */
  function Unlocked(g: Graph, done: set<nat>, outs: seq<nat>): seq<nat> {
    if outs == [] then []
    else
      var j := outs[0];
      (if j < |g.inputs| && (forall i | i in g.inputs[j] :: i in done) then [j] else []) + Unlocked(g, done, outs[1..])
  }

  function Handled(order: seq<nat>): set<nat> { set i | i in order }

  /** First the leaves, ascending; then, as each node has been handled, those of its dependents, in the order of its
      outputs, whose last input it was. */
  function ReadyAfter(g: Graph, order: seq<nat>): seq<nat> {
    if order == [] then LeavesFrom(g, 0)
    else
      var i := order[|order| - 1];
      ReadyAfter(g, order[..|order| - 1]) + if i < |g.outputs| then Unlocked(g, Handled(order), g.outputs[i]) else []
  }

  lemma {:induction false} LeavesAscend(g: Graph, i: nat)
    ensures forall k | 0 <= k < |LeavesFrom(g, i)| :: i <= LeavesFrom(g, i)[k]
    ensures forall j, k | 0 <= j < k < |LeavesFrom(g, i)| :: LeavesFrom(g, i)[j] < LeavesFrom(g, i)[k]
    ensures forall n: nat :: n in LeavesFrom(g, i) <==> i <= n < |g.inputs| && g.inputs[n] == []
    decreases |g.inputs| - i
  {
    if i >= |g.inputs| {
    } else {
      LeavesAscend(g, i + 1);
    }
  }

  lemma {:induction false} UnlockedAre(g: Graph, done: set<nat>, outs: seq<nat>, j: nat)
    ensures j in Unlocked(g, done, outs) <==>
      j in outs && j < |g.inputs| && forall i | i in g.inputs[j] :: i in done
  {
    if outs == [] {
    } else {
      UnlockedAre(g, done, outs[1..], j);
      assert outs == [outs[0]] + outs[1..];
    }
  }

  /** What has become ready: exactly the nodes whose inputs have all been handled. */
  lemma {:induction false} ReadyAfterAre(g: Graph, order: seq<nat>, j: nat)
    requires Wired(g) && forall k | 0 <= k < |order| :: order[k] < |g.inputs|
    ensures j in ReadyAfter(g, order) <==> j < |g.inputs| && forall i | i in g.inputs[j] :: i in order
  {
    if order == [] {
      LeavesAscend(g, 0);
      assert j < |g.inputs| && g.inputs[j] != [] ==> g.inputs[j][0] in g.inputs[j];
    } else {
      var init, i := order[..|order| - 1], order[|order| - 1];
      assert order == init + [i];
      ReadyAfterAre(g, init, j);
      UnlockedAre(g, Handled(order), g.outputs[i], j);
      assert j < |g.inputs| ==> (i in g.inputs[j] <==> j in g.outputs[i]);
    }
  }
}
