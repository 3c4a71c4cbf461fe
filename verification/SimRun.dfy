/** Whole runs of the timed simulation: what any sequence of pops from the timeline does. */
module SimRun {
  import opened DepGraph
  import opened SimTrace
  import opened SimCore
  import opened SimSteps

  /** The state of the generator together with what it has emitted. */
  datatype Outcome = Outcome(core: Core, trace: seq<Emitted>)

  function Leaves(p: Params, n: nat): (r: seq<nat>)
    requires Valid(p) && n <= Size(p)
    ensures forall k | 0 <= k < |r| :: r[k] < n
  {
    if n == 0 then []
    else Leaves(p, n - 1) + if p.g.inputs[n - 1] == [] then [n - 1] else []
  }

  lemma {:induction false} LeavesAre(p: Params, n: nat)
    requires Valid(p) && n <= Size(p)
    ensures forall i | 0 <= i < n :: i in Leaves(p, n) <==> p.g.inputs[i] == []
    ensures NoDup(Leaves(p, n))
  {
    if n == 0 {
    } else {
      LeavesAre(p, n - 1);
    }
  }

  /** Leaves are queued in index order; everything else waits for its inputs. */
  function Seeded(p: Params): (c: Core)
    requires Valid(p)
    ensures Sized(p, c)
  {
    Core(seq(Size(p), i requires 0 <= i < Size(p) => if |p.g.inputs[i]| == 0 then Ready else Waiting),
         seq(Size(p), i requires 0 <= i < Size(p) => |p.g.inputs[i]|),
         Leaves(p, Size(p)), 0, 0, 0, seq(Size(p), i => 0), multiset{})
  }

  function Begin(p: Params): (o: Outcome)
    requires Valid(p)
    ensures Sized(p, o.core)
  {
    var (c, started) := StartWork(p, Seeded(p));
    Outcome(c, Starts(0, started))
  }

  /** What popping `e` needs: it is on top of the queue. The rest follows from the invariant. */
  predicate Eligible(p: Params, c: Core, e: Ev)
    requires Valid(p) && Sized(p, c)
  {
    && IsTop(c.timeline, e)
    && e.node < Size(p) && c.start[e.node] <= e.time
    && (e.finish ==> if p.sub[e.node] then c.subs > 0 else c.builds > 0)
  }

  lemma WakeSized(p: Params, c: Core, rest: seq<nat>)
    requires Sized(p, c) && (forall k | 0 <= k < |rest| :: rest[k] < Size(p))
    ensures Sized(p, Wake(c, rest))
    ensures Wake(c, rest).now == c.now
    decreases |rest|
  {
    if rest != [] && c.pending[rest[0]] > 0 {
      WakeSized(p, WakeOne(c, rest[0]), rest[1..]);
    }
  }

  /** The state when `start_work` is called after a finish. */
  function Woken(p: Params, c: Core, e: Ev): (r: Core)
    requires Valid(p) && Sized(p, c) && Eligible(p, c, e) && e.finish
    ensures Sized(p, r) && r.now == e.time
  {
    var outs := p.g.outputs[e.node];
    assert forall k | 0 <= k < |outs| :: outs[k] in outs;
    WakeSized(p, Retire(p, c, e), outs);
    Wake(Retire(p, c, e), p.g.outputs[e.node])
  }

  /** One turn of the main loop. */
  function Step(p: Params, o: Outcome, e: Ev): (r: Outcome)
    requires Valid(p) && Sized(p, o.core) && Eligible(p, o.core, e)
    ensures Sized(p, r.core)
  {
    if e.finish then
      var (c, started) := StartWork(p, Woken(p, o.core, e));
      Outcome(c, o.trace + Finale(p, e.time, e.node) + Starts(e.time, started))
    else
      Outcome(Tick(p, o.core, e), o.trace + if o.core.st[e.node].Running? then [Report(p, o.core, e)] else [])
  }

  /** The choices are events popped one after the other, each from the top of the timeline. */
  predicate IsRun(p: Params, choices: seq<Ev>)
    requires Valid(p)
    decreases |choices|, 0
  {
    choices == [] ||
    (IsRun(p, choices[..|choices| - 1]) && Eligible(p, Exec(p, choices[..|choices| - 1]).core, choices[|choices| - 1]))
  }

  function Exec(p: Params, choices: seq<Ev>): (o: Outcome)
    requires Valid(p) && IsRun(p, choices)
    ensures Sized(p, o.core)
    decreases |choices|, 1
  {
    if choices == [] then Begin(p)
    else Step(p, Exec(p, choices[..|choices| - 1]), choices[|choices| - 1])
  }

  /** The run is over when nothing is left on the timeline. */
  predicate Over(p: Params, choices: seq<Ev>)
    requires Valid(p) && IsRun(p, choices)
  {
    Exec(p, choices).core.timeline == multiset{}
  }

  function TicksAfterStep(p: Params, c: Core, ticks: map<nat, nat>, e: Ev): map<nat, nat>
    requires Valid(p) && Sized(p, c) && Eligible(p, c, e)
  {
    if e.finish then TicksAfterStarts(p, Woken(p, c, e), ticks) else TicksAfterTick(p, c, ticks, e)
  }

  function TicksOf(p: Params, choices: seq<Ev>): map<nat, nat>
    requires Valid(p) && IsRun(p, choices)
  {
    if choices == [] then TicksAfterStarts(p, Seeded(p), map[])
    else
      var init := choices[..|choices| - 1];
      TicksAfterStep(p, Exec(p, init).core, TicksOf(p, init), choices[|choices| - 1])
  }

  /** What holds between two turns of the main loop. */
  ghost predicate Between(p: Params, o: Outcome, ticks: map<nat, nat>) {
    && Valid(p) && Sized(p, o.core)
    && Legal(p, o.trace)
    && Inv(p, o.core, Summary(o.trace), ticks, [])
    && Blocked(p, o.core)
  }

  lemma SeededOk(p: Params)
    requires Valid(p)
    ensures Inv(p, Seeded(p), NOTHING, map[], [])
  {
    var c := Seeded(p);
    LeavesAre(p, Size(p));
    assert NOTHING.finish.Keys == {};
    forall i | 0 <= i < Size(p) ensures NodeOk(p, c, NOTHING, [], i) {
      UndoneAll(p.g.inputs[i]);
    }
    SumZero(Ones(Size(p)), InFlight(p, NOTHING, false));
    SumZero(Ones(Size(p)), InFlight(p, NOTHING, true));
  }

  lemma BeginOk(p: Params)
    requires Valid(p)
    ensures Between(p, Begin(p), TicksOf(p, []))
  {
    SeededOk(p);
    StartWorkKeeps(p, Seeded(p), [], map[]);
    assert [] + Begin(p).trace == Begin(p).trace;
  }

  /** Whatever is on top of the timeline can be popped. */
  lemma TopEligible(p: Params, o: Outcome, ticks: map<nat, nat>, e: Ev)
    requires Between(p, o, ticks) && IsTop(o.core.timeline, e)
    ensures Eligible(p, o.core, e)
  {
    if e.finish {
      FinishIsDue(p, o.core, Summary(o.trace), ticks, e);
      assert NodeOk(p, o.core, Summary(o.trace), [], e.node);
    } else {
      TickIsDue(p, o.core, Summary(o.trace), ticks, e);
    }
    hide HistOk, SlotsOk, TicksOk, TimelineOk, Legal, Undone;
  }

  lemma WokenOk(p: Params, c: Core, h: Hist, ticks: map<nat, nat>, e: Ev)
    requires Valid(p) && Sized(p, c) && Inv(p, c, h, ticks, []) && Eligible(p, c, e) && e.finish
    ensures Inv(p, Woken(p, c, e), Record(h, Finished(e.time, e.node)), ticks, [])
  {
    RetireKeeps(p, c, h, ticks, e);
    var outs := p.g.outputs[e.node];
    assert forall k | 0 <= k < |outs| :: outs[k] in outs;
    hide Inv, IsTop;
    WakeKeeps(p, Retire(p, c, e), Record(h, Finished(e.time, e.node)), ticks, outs);
  }

  lemma FinishStepOk(p: Params, o: Outcome, ticks: map<nat, nat>, e: Ev)
    requires Between(p, o, ticks) && Eligible(p, o.core, e) && e.finish
    ensures Between(p, Step(p, o, e), TicksAfterStep(p, o.core, ticks, e))
    ensures Summary(Step(p, o, e).trace).finish == Summary(o.trace).finish[e.node := e.time]
    ensures e.node !in Summary(o.trace).finish
  {
    var h := Summary(o.trace);
    FinishIsDue(p, o.core, h, ticks, e);
    WokenOk(p, o.core, h, ticks, e);
    FinaleLegal(p, o.trace, e.time, e.node);
    var t1 := o.trace + Finale(p, e.time, e.node);
    hide Inv, Legal, Summary, Finale, Starts, StartWork, TicksAfterStarts, May, Sized, Blocked, Eligible, Woken;
    StartWorkKeeps(p, Woken(p, o.core, e), t1, ticks);
  }

  lemma TickStepOk(p: Params, o: Outcome, ticks: map<nat, nat>, e: Ev)
    requires Between(p, o, ticks) && Eligible(p, o.core, e) && !e.finish
    ensures Between(p, Step(p, o, e), TicksAfterStep(p, o.core, ticks, e))
    ensures Summary(Step(p, o, e).trace) == Summary(o.trace).(now := e.time)
  {
    TickIsDue(p, o.core, Summary(o.trace), ticks, e);
    TickKeeps(p, o.core, Summary(o.trace), ticks, e);
    Snoc(p, o.trace, Report(p, o.core, e));
    hide Inv, May, TicksAfterTick;
  }

  /** Between any two turns of any run the invariant holds and the trace is a legal schedule. */
  lemma {:induction false} RunInvariant(p: Params, choices: seq<Ev>)
    requires Valid(p) && IsRun(p, choices)
    ensures Between(p, Exec(p, choices), TicksOf(p, choices))
    decreases |choices|
  {
    if choices == [] {
      BeginOk(p);
    } else {
      var init, e := choices[..|choices| - 1], choices[|choices| - 1];
      RunInvariant(p, init);
      hide Between, Step, Eligible, TicksAfterStep;
      if e.finish {
        FinishStepOk(p, Exec(p, init), TicksOf(p, init), e);
      } else {
        TickStepOk(p, Exec(p, init), TicksOf(p, init), e);
      }
    }
  }
}
