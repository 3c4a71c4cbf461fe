/** The timed generator: the loops of the simulation, proved to perform a run. */
module SimGen {
  import opened DepGraph
  import opened SimTrace
  import opened SimCore
  import opened SimSteps
  import opened SimRun
  import opened SimComplete
  import opened StartOrder
  import opened SimReports

  lemma {:induction false} StartsAppend(t: nat, a: seq<nat>, i: nat)
    ensures Starts(t, a + [i]) == Starts(t, a) + [Started(t, i)]
  {
    if a == [] {
      assert [] + [i] == [i];
    } else {
      StartsAppend(t, a[1..], i);
      assert (a + [i])[1..] == a[1..] + [i];
    }
  }

  /** `start_work`. */
  method StartReady(p: Params, c0: Core) returns (c: Core, started: seq<nat>)
    requires Valid(p) && Sized(p, c0)
    ensures (c, started) == StartWork(p, c0)
  {
    hide StartWork, Launch, Wired;
    c, started := c0, [];
    while c.ready != []
      invariant Sized(p, c)
      invariant StartWork(p, c0).0 == StartWork(p, c).0
      invariant StartWork(p, c0).1 == started + StartWork(p, c).1
      decreases |c.ready|
    {
      var i := c.ready[0];
      if p.sub[i] {
        if c.subs >= p.maxSubs { break; }
      } else {
        if c.builds >= p.maxJobs { break; }
      }
      StartWorkNext(p, c);
      c := Launch(p, c);
      started := started + [i];
    }
    StartWorkBlocked(p, c);
    assert started + [] == started;
  }

  /** Tell each dependent of the finished node. */
  method WakeDependents(p: Params, c0: Core, outs: seq<nat>) returns (c: Core)
    requires Sized(p, c0) && (forall k | 0 <= k < |outs| :: outs[k] < Size(p))
    requires forall n | 0 <= n < |outs| :: c0.pending[outs[n]] > 0
    requires NoDup(outs)
    ensures c == Wake(c0, outs)
  {
    c := c0;
    for k := 0 to |outs|
      invariant Sized(p, c)
      invariant forall n | k <= n < |outs| :: c.pending[outs[n]] > 0
      invariant Wake(c0, outs) == Wake(c, outs[k..])
    {
      assert outs[k..][0] == outs[k] && outs[k..][1..] == outs[k + 1..];
      c := WakeOne(c, outs[k]);
    }
  }

  method SeedReady(p: Params) returns (c: Core)
    requires Valid(p)
    ensures c == Seeded(p)
  {
    hide Wired;
    var n := Size(p);
    var pending := seq(n, i requires 0 <= i < n => |p.g.inputs[i]|);
    var st, ready := seq(n, i => Waiting), [];
    for i := 0 to n
      invariant |st| == n && ready == Leaves(p, i)
      invariant forall k | 0 <= k < i :: st[k] == if |p.g.inputs[k]| == 0 then Ready else Waiting
      invariant forall k | i <= k < n :: st[k].Waiting?
    {
      if pending[i] == 0 {
        st := st[i := Ready];
        ready := ready + [i];
      }
    }
    c := Core(st, pending, ready, 0, 0, 0, seq(n, i => 0), multiset{});
    assert c.st == Seeded(p).st && c.pending == Seeded(p).pending;
  }

  /** `started` is reported node by node. */
  method EmitStarts(t: nat, started: seq<nat>) returns (out: seq<Emitted>)
    ensures out == Starts(t, started)
  {
    out := [];
    for k := 0 to |started|
      invariant out == Starts(t, started[..k])
    {
      assert started[..k + 1] == started[..k] + [started[k]];
      StartsAppend(t, started[..k], started[k]);
      out := out + [Started(t, started[k])];
    }
    assert started[..|started|] == started;
  }

  /** The events of one finish. */
  method EmitFinish(p: Params, t: nat, i: nat) returns (out: seq<Emitted>)
    requires i < |p.dur|
    ensures out == Finale(p, t, i)
  {
    out := [];
    if p.emitProgress {
      out := [Progress(t, i, p.dur[i], p.dur[i])];
    }
    ghost var head := out;
    for n := 0 to p.lines
      invariant out == head + Logs(t, i, n)
    {
      out := out + [LogLine(t, i)];
    }
    out := out + [Finished(t, i)];
  }

  lemma {:induction false} TopExists(timeline: multiset<Ev>)
    requires timeline != multiset{}
    ensures exists e :: IsTop(timeline, e)
    decreases |timeline|
  {
    var e :| e in timeline;
    var rest := timeline - multiset{e};
    if rest == multiset{} {
      assert forall o | o in timeline :: o == e by {
        forall o | o in timeline ensures o == e {
          assert o != e ==> o in rest;
        }
      }
      assert IsTop(timeline, e);
    } else {
      TopExists(rest);
      var r :| IsTop(rest, r);
      assert forall o | o in timeline :: o == e || o in rest;
      if e.time < r.time || (e.time == r.time && (e.finish || !r.finish)) {
        assert IsTop(timeline, e);
      } else {
        assert IsTop(timeline, r);
      }
    }
  }

  lemma {:induction false} PendingPositive(p: Params, c: Core, h: Hist, rest: seq<nat>)
    requires Valid(p) && Sized(p, c) && NodesOk(p, c, h, rest) && (forall k | 0 <= k < |rest| :: rest[k] < Size(p))
    ensures forall k | 0 <= k < |rest| :: c.pending[rest[k]] > 0
  {
    forall k | 0 <= k < |rest| ensures c.pending[rest[k]] > 0 {
      assert NodeOk(p, c, h, rest, rest[k]);
    }
  }

  lemma RetiredPending(p: Params, o: Outcome, ticks: map<nat, nat>, e: Ev)
    requires Between(p, o, ticks) && Eligible(p, o.core, e) && e.finish
    ensures forall k | 0 <= k < |p.g.outputs[e.node]| ::
      p.g.outputs[e.node][k] < Size(p) && Retire(p, o.core, e).pending[p.g.outputs[e.node][k]] > 0
  {
    var outs := p.g.outputs[e.node];
    RetireKeeps(p, o.core, Summary(o.trace), ticks, e);
    assert forall k | 0 <= k < |outs| :: outs[k] in outs;
    hide NodesOk, HistOk, Between, Legal, TimelineOk, IsTop, SlotsOk, TicksOk;
    PendingPositive(p, Retire(p, o.core, e), Record(Summary(o.trace), Finished(e.time, e.node)), outs);
  }

  /** One turn of the main loop. */
  method Turn(p: Params, c: Core, trace: seq<Emitted>, e: Ev, ghost ticks: map<nat, nat>)
    returns (c': Core, trace': seq<Emitted>)
    requires Between(p, Outcome(c, trace), ticks) && Eligible(p, c, e)
    ensures Outcome(c', trace') == Step(p, Outcome(c, trace), e)
  {
    if e.finish {
      RetiredPending(p, Outcome(c, trace), ticks, e);
      hide Between, IsTop;
      c', trace' := FinishTurn(p, c, trace, e);
    } else {
      hide Between, IsTop;
      trace' := trace;
      if c.st[e.node].Running? {
        trace' := trace' + [Report(p, c, e)];
      }
      c' := Tick(p, c, e);
    }
  }

  method FinishTurn(p: Params, c: Core, trace: seq<Emitted>, e: Ev) returns (c': Core, trace': seq<Emitted>)
    requires Valid(p) && Sized(p, c) && Eligible(p, c, e) && e.finish
    requires forall k | 0 <= k < |p.g.outputs[e.node]| ::
      p.g.outputs[e.node][k] < Size(p) && Retire(p, c, e).pending[p.g.outputs[e.node][k]] > 0
    ensures Outcome(c', trace') == Step(p, Outcome(c, trace), e)
  {
    var outs := p.g.outputs[e.node];
    assert NoDup(outs);
    var retired := Retire(p, c, e);
    assert Sized(p, retired);
    var ends := EmitFinish(p, e.time, e.node);
    hide IsTop, StartWork, Retire, Starts, Finale, NoDup;
    var woken := WakeDependents(p, retired, outs);
    assert woken == Woken(p, c, e);
    var started;
    c', started := StartReady(p, woken);
    var begins := EmitStarts(e.time, started);
    trace' := trace + ends + begins;
  }

  /** The length of a complete schedule: no shorter than any chain of dependencies or than the work
      of a kind spread over its slots, and no longer than doing everything one after the other. */
  ghost predicate LengthBounded(p: Params, trace: seq<Emitted>)
    requires Valid(p)
  {
    && (forall chain | IsChain(p, chain) :: ChainTime(p, chain) <= Summary(trace).now)
    && (forall isSub: bool :: Sum(p.dur, Kind(p, isSub)) <= Cap(p, isSub) * Summary(trace).now)
    && Summary(trace).now <= Sum(p.dur, All(p))
  }

  lemma StreamCounts(p: Params, trace: seq<Emitted>)
    requires Valid(p) && Legal(p, trace)
    ensures forall i: nat :: FinishCount(trace, i) <= StartCount(trace, i) <= 1
    ensures Complete(p, trace) ==> forall i | 0 <= i < Size(p) :: FinishCount(trace, i) == 1
  {
    LegalHist(p, trace);
    hide Legal, Valid, Summary;
    forall i: nat ensures FinishCount(trace, i) <= StartCount(trace, i) <= 1
      ensures i in Summary(trace).finish ==> FinishCount(trace, i) == 1
    {
      OncePerNode(p, trace, i);
    }
  }

  lemma StreamBounded(p: Params, trace: seq<Emitted>)
    requires Valid(p) && Legal(p, trace) && Complete(p, trace)
    ensures LengthBounded(p, trace)
  {
    hide Legal, Complete, Wired, Sum, Kind, All, Summary, ChainTime;
    forall chain | IsChain(p, chain) ensures ChainTime(p, chain) <= Summary(trace).now {
      MakespanAtLeastChains(p, trace, chain);
    }
    forall isSub: bool ensures Sum(p.dur, Kind(p, isSub)) <= Cap(p, isSub) * Summary(trace).now {
      MakespanAtLeastWork(p, trace, isSub);
    }
    MakespanAtMostTotal(p, trace);
  }

  /** What a finished run promises of its stream: the rules of a schedule; no node more than once; nodes started in
      the order in which they become ready, and whatever is ready at the end waits behind a full kind; all the
      reports and log lines of every node finished; and every node once, within those lengths, exactly if the
      graph is acyclic and each kind in use has a slot. */
  lemma FinishedRun(p: Params, choices: seq<Ev>)
    requires Valid(p) && IsRun(p, choices) && Over(p, choices)
    ensures Legal(p, Exec(p, choices).trace) && Delivers(p, Exec(p, choices).trace)
  {
    CompletesIff(p, choices);
    var trace := Exec(p, choices).trace;
    StreamCounts(p, trace);
    StartOrderLaw(p, choices);
    hide StartsInOrder, NextWaits, ReportsFor, IsRun, Exec;
    forall i | 0 <= i < Size(p) && i in Summary(trace).finish ensures ReportsFor(p, trace, i) {
      ReportLaw(p, choices, i);
    }
    if Complete(p, trace) {
      StreamBounded(p, trace);
    }
  }

  ghost predicate Delivers(p: Params, trace: seq<Emitted>)
    requires Valid(p)
  {
    && (forall i: nat :: FinishCount(trace, i) <= StartCount(trace, i) <= 1)
    && StartsInOrder(p, trace) && NextWaits(p, trace)
    && (forall i | 0 <= i < Size(p) && i in Summary(trace).finish :: ReportsFor(p, trace, i))
    && if Acyclic(p.g) && SlotsForAll(p)
       then LengthBounded(p, trace) && forall i | 0 <= i < Size(p) :: FinishCount(trace, i) == 1
       else !Complete(p, trace)
  }

  /** Runs to completion, whatever the order among events that are equally due; `choices` are the
      events popped. */
  method GenerateTimedEvents(p: Params) returns (trace: seq<Emitted>, choices: seq<Ev>)
    requires Valid(p)
    ensures IsRun(p, choices) && Over(p, choices) && trace == Exec(p, choices).trace
    ensures Legal(p, trace) && Delivers(p, trace)
  {
    hide Delivers;
    var c := SeedReady(p);
    var started;
    c, started := StartReady(p, c);
    trace := EmitStarts(0, started);
    choices := [];
    RunInvariant(p, choices);
    while c.timeline != multiset{}
      invariant IsRun(p, choices) && Outcome(c, trace) == Exec(p, choices)
      invariant Between(p, Outcome(c, trace), TicksOf(p, choices))
      decreases TurnsLeft(p, Summary(trace)), ReportsLeft(p, Summary(trace), TicksOf(p, choices))
    {
      TopExists(c.timeline);
      var e :| e in c.timeline && IsTop(c.timeline, e);
      ghost var o, ticks := Outcome(c, trace), TicksOf(p, choices);
      TopEligible(p, o, ticks, e);
      c, trace := Turn(p, c, trace, e, ticks);
      ghost var before := choices;
      choices := choices + [e];
      assert choices[..|choices| - 1] == before;
      RunInvariant(p, choices);
      hide Between, Eligible, IsTop, TicksAfterStarts;
      if e.finish {
        FinishStepOk(p, o, ticks, e);
        FinishDecreases(p, Summary(o.trace), Summary(trace), e.node, e.time);
      } else {
        TickStepOk(p, o, ticks, e);
        TickDecreases(p, o, ticks, e);
      }
    }
    FinishedRun(p, choices);
  }
}
