/** Waiting for everything that was spawned, including what is spawned while waiting. */
module FutureVector {
  import opened Optional
  import opened Executor

  /** What a future yields once its promise is settled. */
  datatype Outcome = Value | Exception(e: nat)

  /** The futures waited for, in order: round after round until a round finds none. `spawned[r]`
      are added while round `r` is being waited for. */
  function Rounds(futures: seq<ItemId>, spawned: seq<seq<ItemId>>): seq<ItemId>
    decreases |spawned|
  {
    if futures == [] then []
    else futures + if spawned == [] then [] else Rounds(spawned[0], spawned[1..])
  }

  predicate Known(outcome: map<ItemId, Outcome>, fs: seq<ItemId>) {
    forall f | f in fs :: f in outcome
  }

  /** Whether the waits end, once the executor stands still: exactly if nothing waited for was spawned when
      no worker was left. `outcome` has what the settled promises were given. */
  lemma OutcomesKnownIff(run: seq<State>, actions: seq<Action>, i: nat, outcome: map<ItemId, Outcome>, fs: seq<ItemId>)
    requires IsRun(run, actions) && i < |run| && Standstill(run[i])
    requires forall f | f in fs :: f in run[i].spawned
    requires forall f | f in fs :: f in outcome <==> Count(run[i].settled, f) > 0
    ensures Known(outcome, fs) <==> forall f | f in fs :: f !in run[i].late
  {
    forall f | f in fs ensures f in outcome <==> f !in run[i].late {
      SettledIff(run, actions, i, f);
    }
  }

  /** `ex` is the first exception among the outcomes of `fs`, if there is one. */
  ghost predicate FirstException(outcome: map<ItemId, Outcome>, fs: seq<ItemId>, ex: Option<nat>)
    requires Known(outcome, fs)
  {
    match ex
    case None => forall f | f in fs :: outcome[f].Value?
    case Some(e) =>
      exists k :: 0 <= k < |fs| && outcome[fs[k]] == Exception(e) && forall j | 0 <= j < k :: outcome[fs[j]].Value?
  }

  lemma FirstSnoc(outcome: map<ItemId, Outcome>, fs: seq<ItemId>, f: ItemId, ex: Option<nat>)
    requires Known(outcome, fs) && f in outcome && FirstException(outcome, fs, ex)
    ensures FirstException(outcome, fs + [f],
              if ex.Some? then ex else if outcome[f].Exception? then Some(outcome[f].e) else None)
  {
    var more := fs + [f];
    if ex.Some? {
      var k :| 0 <= k < |fs| && outcome[fs[k]] == Exception(ex.value) && forall j | 0 <= j < k :: outcome[fs[j]].Value?;
      assert more[k] == fs[k] && forall j | 0 <= j < k :: more[j] == fs[j];
    } else if outcome[f].Exception? {
      assert more[|fs|] == f && forall j | 0 <= j < |fs| :: more[j] == fs[j] && fs[j] in fs;
    }
  }

  /** Wait for one batch; only the first exception is kept. */
  method GetAll(outcome: map<ItemId, Outcome>, batch: seq<ItemId>, thrown0: Option<nat>, waited0: seq<ItemId>)
    returns (thrown: Option<nat>, waited: seq<ItemId>)
    requires Known(outcome, batch) && Known(outcome, waited0) && FirstException(outcome, waited0, thrown0)
    ensures waited == waited0 + batch && Known(outcome, waited) && FirstException(outcome, waited, thrown)
  {
    hide FirstException;
    thrown, waited := thrown0, waited0;
    for k := 0 to |batch|
      invariant Known(outcome, waited) && waited == waited0 + batch[..k]
      invariant FirstException(outcome, waited, thrown)
    {
      FirstSnoc(outcome, waited, batch[k], thrown);
      match outcome[batch[k]] {
        case Value =>
        case Exception(e) =>
          if thrown.None? {
            thrown := Some(e);
          }
      }
      waited := waited + [batch[k]];
    }
    assert batch[..|batch|] == batch;
  }

  class Futures {
    var futures: seq<ItemId>

    constructor ()
      ensures futures == []
    {
      futures := [];
    }

    method Add(fs: seq<ItemId>)
      modifies this
      ensures futures == old(futures) + fs
    {
      futures := futures + fs;
    }

    /** Ends only when a round finds no futures; then all of them have been waited for, and the
        first exception among them, in the order of waiting, is the one raised. */
    method FinishAll(outcome: map<ItemId, Outcome>, spawned: seq<seq<ItemId>>)
      returns (thrown: Option<nat>, waited: seq<ItemId>)
      requires Known(outcome, futures) && forall r | 0 <= r < |spawned| :: Known(outcome, spawned[r])
      modifies this
      ensures futures == [] && waited == Rounds(old(futures), spawned)
      ensures Known(outcome, waited) && FirstException(outcome, waited, thrown)
    {
      hide FirstException;
      thrown, waited := None, [];
      NoneYet(outcome);
      var r := 0;
      while true
        invariant r <= |spawned| && Known(outcome, futures) && Known(outcome, waited)
        invariant Rounds(old(futures), spawned) == waited + Rounds(futures, spawned[r..])
        invariant FirstException(outcome, waited, thrown)
        decreases |spawned| - r, |futures|
      {
        var batch := futures;
        futures := [];
        if batch == [] {
          assert waited + [] == waited;
          break;
        }
        ghost var before, more := waited, if r < |spawned| then Rounds(spawned[r], spawned[r..][1..]) else [];
        assert Rounds(batch, spawned[r..]) == batch + more;
        thrown, waited := GetAll(outcome, batch, thrown, waited);
        assert waited + more == before + (batch + more);
        if r < |spawned| {
          Add(spawned[r]);
          assert spawned[r..][1..] == spawned[r + 1..];
          assert [] + spawned[r] == spawned[r];
          r := r + 1;
        }
      }
    }
  }

  lemma NoneYet(outcome: map<ItemId, Outcome>)
    ensures Known(outcome, []) && FirstException(outcome, [], None)
  {
  }
}
