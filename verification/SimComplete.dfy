/** When a finished run has done everything. */
module SimComplete {
  import opened DepGraph
  import opened SimTrace
  import opened SimCore
  import opened SimSteps
  import opened SimRun

  /** Every node's kind has at least one slot. */
  predicate SlotsForAll(p: Params)
    requires Valid(p)
  {
    forall i | 0 <= i < Size(p) :: Cap(p, p.sub[i]) >= 1
  }

  /* ---- an emptied timeline leaves nothing runnable ---- */

  lemma FlyingIsQueued(p: Params, o: Outcome, ticks: map<nat, nat>, i: nat)
    requires Between(p, o, ticks) && Flying(Summary(o.trace), i)
    ensures o.core.timeline != multiset{}
  {
    var h := Summary(o.trace);
    var e := Ev(h.start[i] + p.dur[i], i, true);
    assert o.core.timeline[e] == Expected(p, h, ticks, e) == 1;
  }

  lemma NothingFlies(p: Params, o: Outcome, ticks: map<nat, nat>)
    requires Between(p, o, ticks) && o.core.timeline == multiset{}
    ensures forall i: nat :: !Flying(Summary(o.trace), i)
    ensures o.core.builds == 0 && o.core.subs == 0
  {
    var h := Summary(o.trace);
    forall i: nat ensures !Flying(h, i) {
      if Flying(h, i) {
        FlyingIsQueued(p, o, ticks, i);
      }
    }
    forall isSub: bool ensures Count(Size(p), InFlight(p, h, isSub)) == 0 {
      assert forall i | i in InFlight(p, h, isSub) :: Flying(h, i);
      SumZero(Ones(Size(p)), InFlight(p, h, isSub));
    }
  }

  lemma {:induction false} AllDoneUpTo(p: Params, o: Outcome, ticks: map<nat, nat>, rank: seq<nat>, bound: nat, i: nat)
    requires Between(p, o, ticks) && o.core.timeline == multiset{} && SlotsForAll(p) && IsRank(p.g, rank)
    requires i < Size(p) && rank[i] < bound
    ensures i in Summary(o.trace).finish
    decreases bound
  {
    var c, h := o.core, Summary(o.trace);
    NothingFlies(p, o, ticks);
    assert c.ready == [];
    forall j | j in p.g.inputs[i] ensures j in h.finish {
      AllDoneUpTo(p, o, ticks, rank, rank[i], j);
    }
    UndoneZero(p.g.inputs[i], h.finish.Keys);
    assert NodeOk(p, c, h, [], i);
  }

  lemma AllDone(p: Params, o: Outcome, ticks: map<nat, nat>, rank: seq<nat>)
    requires Between(p, o, ticks) && o.core.timeline == multiset{} && SlotsForAll(p) && IsRank(p.g, rank)
    ensures Complete(p, o.trace)
  {
    LegalHist(p, o.trace);
    forall i | 0 <= i < Size(p) ensures i in Summary(o.trace).start && i in Summary(o.trace).finish {
      AllDoneUpTo(p, o, ticks, rank, rank[i] + 1, i);
    }
  }

  /* ---- a complete schedule orders the graph ---- */

  /** How long the trace was when `i` started. */
  function StartedAt(trace: seq<Emitted>, i: nat): nat {
    if trace == [] then 0
    else if i in Summary(trace[..|trace| - 1]).start then StartedAt(trace[..|trace| - 1], i)
    else |trace|
  }

  lemma {:induction false} StartedAtBound(trace: seq<Emitted>, i: nat)
    ensures StartedAt(trace, i) <= |trace|
  {
    if trace == [] {
    } else {
      StartedAtBound(trace[..|trace| - 1], i);
    }
  }

  lemma {:induction false} InputsStartEarlier(p: Params, trace: seq<Emitted>, i: nat, j: nat)
    requires Valid(p) && Legal(p, trace) && i in Summary(trace).start && i < Size(p) && j in p.g.inputs[i]
    ensures j in Summary(trace).start && StartedAt(trace, j) < StartedAt(trace, i)
  {
    hide Wired, Count, InFlight;
    var init := trace[..|trace| - 1];
    LegalHist(p, trace);
    if i in Summary(init).start {
      InputsStartEarlier(p, init, i, j);
    } else {
      LegalHist(p, init);
      StartedAtBound(init, j);
    }
  }

  lemma {:induction false} StartsHadRoom(p: Params, trace: seq<Emitted>, i: nat)
    requires Valid(p) && Legal(p, trace) && i in Summary(trace).start && i < Size(p)
    ensures Cap(p, p.sub[i]) >= 1
  {
    var init := trace[..|trace| - 1];
    if i in Summary(init).start {
      StartsHadRoom(p, init, i);
    }
  }

  /** A legal schedule can only be complete on an acyclic graph with a slot for every kind used. */
  lemma CompleteOnlyIf(p: Params, trace: seq<Emitted>)
    requires Valid(p) && Legal(p, trace) && Complete(p, trace)
    ensures Acyclic(p.g) && SlotsForAll(p)
  {
    var rank := seq(Size(p), i requires 0 <= i < Size(p) => StartedAt(trace, i));
    forall i, j | 0 <= i < Size(p) && j in p.g.inputs[i] ensures j < |rank| && rank[j] < rank[i] {
      InputsStartEarlier(p, trace, i, j);
    }
    assert IsRank(p.g, rank);
    forall i | 0 <= i < Size(p) ensures Cap(p, p.sub[i]) >= 1 {
      StartsHadRoom(p, trace, i);
    }
  }

  /** Once the timeline has run empty, every node was started and finished exactly when the
      graph is acyclic and every node's kind has a slot, in spite of head-of-line blocking. */
  lemma CompletesIff(p: Params, choices: seq<Ev>)
    requires Valid(p) && IsRun(p, choices) && Over(p, choices)
    ensures Legal(p, Exec(p, choices).trace)
    ensures Complete(p, Exec(p, choices).trace) <==> Acyclic(p.g) && SlotsForAll(p)
  {
    RunInvariant(p, choices);
    var o := Exec(p, choices);
    assert o.core.timeline == multiset{} && Legal(p, o.trace);
    hide Between, Legal, IsRank, HistOk, Valid, Exec, IsRun;
    if Acyclic(p.g) && SlotsForAll(p) {
      var rank :| IsRank(p.g, rank);
      AllDone(p, o, TicksOf(p, choices), rank);
    }
    if Complete(p, o.trace) {
      CompleteOnlyIf(p, o.trace);
    }
  }

  /** Started and finished at most once each, in any legal schedule. */
  function StartCount(trace: seq<Emitted>, i: nat): nat {
    if trace == [] then 0
    else StartCount(trace[..|trace| - 1], i) + CountOf(trace[|trace| - 1].Started? && trace[|trace| - 1].node == i)
  }

  function FinishCount(trace: seq<Emitted>, i: nat): nat {
    if trace == [] then 0
    else FinishCount(trace[..|trace| - 1], i) + CountOf(trace[|trace| - 1].Finished? && trace[|trace| - 1].node == i)
  }

  lemma {:induction false} OncePerNode(p: Params, trace: seq<Emitted>, i: nat)
    requires Valid(p) && Legal(p, trace)
    ensures StartCount(trace, i) == CountOf(i in Summary(trace).start)
    ensures FinishCount(trace, i) == CountOf(i in Summary(trace).finish)
  {
    if trace == [] {
    } else {
      OncePerNode(p, trace[..|trace| - 1], i);
    }
  }

  /* ---- termination of the main loop ---- */

  function Unfinished(p: Params, h: Hist): set<nat> {
    set i | 0 <= i < Size(p) && i !in h.finish
  }

  /** For each pending progress report, the time from it to the finish of its node. */
  function Slack(p: Params, h: Hist, ticks: map<nat, nat>): (w: seq<nat>)
    requires Valid(p)
    ensures |w| == Size(p)
  {
    seq(Size(p), i requires 0 <= i < Size(p) =>
      if i in ticks && i in h.start && ticks[i] <= h.start[i] + p.dur[i] then h.start[i] + p.dur[i] - ticks[i] else 0)
  }

  function TurnsLeft(p: Params, h: Hist): nat {
    Count(Size(p), Unfinished(p, h))
  }

  function ReportsLeft(p: Params, h: Hist, ticks: map<nat, nat>): nat
    requires Valid(p)
  {
    Sum(Slack(p, h, ticks), ticks.Keys)
  }

  lemma FinishDecreases(p: Params, h: Hist, h': Hist, i: nat, t: nat)
    requires i < Size(p) && i !in h.finish && h'.finish == h.finish[i := t]
    ensures TurnsLeft(p, h') < TurnsLeft(p, h)
  {
    SumRemove(Ones(Size(p)), Unfinished(p, h), i);
    assert Unfinished(p, h') == Unfinished(p, h) - {i};
  }

  lemma TickDecreases(p: Params, o: Outcome, ticks: map<nat, nat>, e: Ev)
    requires Between(p, o, ticks) && Eligible(p, o.core, e) && !e.finish
    ensures TurnsLeft(p, Summary(o.trace).(now := e.time)) == TurnsLeft(p, Summary(o.trace))
    ensures ReportsLeft(p, Summary(o.trace).(now := e.time), TicksAfterTick(p, o.core, ticks, e))
          < ReportsLeft(p, Summary(o.trace), ticks)
  {
    var h := Summary(o.trace);
    TickIsDue(p, o.core, h, ticks, e);
    var i, ticks' := e.node, TicksAfterTick(p, o.core, ticks, e);
    var w, w' := Slack(p, h, ticks), Slack(p, h.(now := e.time), ticks');
    assert Unfinished(p, h.(now := e.time)) == Unfinished(p, h);
    SumRemove(w, ticks.Keys, i);
    SumSame(w', w, ticks.Keys - {i}, ticks.Keys - {i});
    if i in ticks' {
      SumRemove(w', ticks.Keys, i);
      assert ticks'.Keys == ticks.Keys;
    } else {
      assert ticks'.Keys == ticks.Keys - {i};
    }
  }
}
