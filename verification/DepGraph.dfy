/** Dependency graphs by index, and sums over sets of nodes. */
module DepGraph {
  /** `inputs[i]` are the nodes `i` depends on, `outputs[i]` the nodes that depend on `i`. */
  datatype Graph = Graph(inputs: seq<seq<nat>>, outputs: seq<seq<nat>>)

  predicate NoDup(s: seq<nat>) {
    forall i, j | 0 <= i < j < |s| :: s[i] != s[j]
  }

  /** What graph construction guarantees: the two relations are transposes, without repeats. */
  predicate Wired(g: Graph) {
    && |g.outputs| == |g.inputs|
    && (forall i | 0 <= i < |g.inputs| :: NoDup(g.inputs[i]) && NoDup(g.outputs[i]))
    && (forall i | 0 <= i < |g.inputs| :: forall j | j in g.inputs[i] :: j < |g.inputs|)
    && (forall i | 0 <= i < |g.inputs| :: forall j | j in g.outputs[i] :: j < |g.inputs|)
    && (forall i, j | 0 <= i < |g.inputs| && 0 <= j < |g.inputs| :: j in g.inputs[i] <==> i in g.outputs[j])
  }

  /** A numbering in which every node comes after its inputs. */
  predicate IsRank(g: Graph, rank: seq<nat>) {
    && |rank| == |g.inputs|
    && forall i | 0 <= i < |g.inputs| :: forall j | j in g.inputs[i] :: j < |rank| && rank[j] < rank[i]
  }

  ghost predicate Acyclic(g: Graph) {
    exists rank :: IsRank(g, rank)
  }

  /* ---- sums of weights over sets of nodes ---- */

  /** The sum of `w[i]` over the `i` in `s`. */
  function Sum(w: seq<nat>, s: set<nat>): nat {
    if w == [] then 0
    else Sum(w[..|w| - 1], s) + if |w| - 1 in s then w[|w| - 1] else 0
  }

  function Ones(n: nat): (r: seq<nat>)
    ensures |r| == n && forall i | 0 <= i < n :: r[i] == 1
  {
    seq(n, i => 1)
  }

  function Count(n: nat, s: set<nat>): nat {
    Sum(Ones(n), s)
  }

  lemma {:induction false} SumAdd(w: seq<nat>, s: set<nat>, i: nat)
    requires i < |w| && i !in s
    ensures Sum(w, s + {i}) == Sum(w, s) + w[i]
  {
    var k := |w| - 1;
    if i == k {
      SumSame(w[..k], w[..k], s, s + {i});
    } else {
      SumAdd(w[..k], s, i);
    }
  }

  lemma SumRemove(w: seq<nat>, s: set<nat>, i: nat)
    requires i < |w| && i in s
    ensures Sum(w, s - {i}) + w[i] == Sum(w, s)
  {
    SumAdd(w, s - {i}, i);
    assert s - {i} + {i} == s;
  }

  lemma {:induction false} SumSame(w: seq<nat>, v: seq<nat>, s: set<nat>, t: set<nat>)
    requires |w| == |v|
    requires forall i | 0 <= i < |w| :: (i in s <==> i in t) && (i in s ==> w[i] == v[i])
    ensures Sum(w, s) == Sum(v, t)
  {
    if w == [] {
    } else {
      SumSame(w[..|w| - 1], v[..|v| - 1], s, t);
    }
  }

  lemma {:induction false} SumMono(w: seq<nat>, v: seq<nat>, s: set<nat>, t: set<nat>)
    requires |w| == |v|
    requires forall i | 0 <= i < |w| && i in s :: i in t && w[i] <= v[i]
    ensures Sum(w, s) <= Sum(v, t)
  {
    if w == [] {
    } else {
      SumMono(w[..|w| - 1], v[..|v| - 1], s, t);
    }
  }

  lemma {:induction false} SumZero(w: seq<nat>, s: set<nat>)
    requires forall i | 0 <= i < |w| && i in s :: w[i] == 0
    ensures Sum(w, s) == 0
  {
    if w == [] {
    } else {
      SumZero(w[..|w| - 1], s);
    }
  }

  /** Raising every weight in `s` by `d` raises the sum by `d` for each node of `s`. */
  lemma {:induction false} SumShift(w: seq<nat>, v: seq<nat>, s: set<nat>, d: nat)
    requires |w| == |v|
    requires forall i | 0 <= i < |w| && i in s :: v[i] == w[i] + d
    ensures Sum(v, s) == Sum(w, s) + d * Count(|w|, s)
  {
    if w == [] {
    } else {
      var k := |w| - 1;
      SumShift(w[..k], v[..k], s, d);
      assert Ones(|w|)[..k] == Ones(k);
      var few := Count(k, s);
      assert Count(|w|, s) == few + if k in s then 1 else 0;
      assert d * (few + 1) == d * few + d;
    }
  }

  lemma {:induction false} CountPositive(n: nat, s: set<nat>, i: nat)
    requires i < n && i in s
    ensures Count(n, s) > 0
  {
    SumRemove(Ones(n), s, i);
  }

  /* ---- counting inputs that are not done ---- */

  /** How many of the inputs are not in `done`. */
  function Undone(ins: seq<nat>, done: set<nat>): nat {
    if ins == [] then 0 else (if ins[0] in done then 0 else 1) + Undone(ins[1..], done)
  }

  function CountOf(b: bool): nat { if b then 1 else 0 }

  lemma {:induction false} UndoneDrop(ins: seq<nat>, done: set<nat>, x: nat)
    requires NoDup(ins) && x !in done
    ensures Undone(ins, done + {x}) + CountOf(x in ins) == Undone(ins, done)
  {
    if ins == [] {
    } else {
      UndoneDrop(ins[1..], done, x);
      assert x in ins <==> x == ins[0] || x in ins[1..];
      if x == ins[0] {
        assert x !in ins[1..] by {
          assert forall k | 0 < k < |ins| :: ins[k] == ins[1..][k - 1];
        }
      }
    }
  }

  lemma {:induction false} UndoneZero(ins: seq<nat>, done: set<nat>)
    ensures Undone(ins, done) == 0 <==> forall j | j in ins :: j in done
  {
    if ins == [] {
    } else {
      UndoneZero(ins[1..], done);
      assert ins == [ins[0]] + ins[1..];
    }
  }

  lemma {:induction false} UndoneAll(ins: seq<nat>)
    ensures Undone(ins, {}) == |ins|
  {
    if ins == [] {
    } else {
      UndoneAll(ins[1..]);
    }
  }
}
