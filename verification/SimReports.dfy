/** Which progress reports and log lines a run emits: none missing, none too many. */
module SimReports {
  import opened DepGraph
  import opened SimTrace
  import opened SimCore
  import opened SimSteps
  import opened SimRun

  /** The progress reported for a node, in order. */
  function ReportsOf(trace: seq<Emitted>, i: nat): seq<nat> {
    if trace == [] then []
    else
      var e := trace[|trace| - 1];
      ReportsOf(trace[..|trace| - 1], i) + if e.Progress? && e.node == i then [e.done] else []
  }

  /** How many log lines there are for a node. */
  function LogsOf(trace: seq<Emitted>, i: nat): nat {
    if trace == [] then 0
    else
      var e := trace[|trace| - 1];
      LogsOf(trace[..|trace| - 1], i) + CountOf(e.LogLine? && e.node == i)
  }

  /** `step`, twice `step`, and so on, `n` of them. */
  function Multiples(step: nat, n: nat): (r: seq<nat>)
    ensures |r| == n && forall k | 0 <= k < n :: r[k] == (k + 1) * step
  {
    seq(n, k requires 0 <= k < n => (k + 1) * step)
  }

  /** `n` multiples of `step` are below `total`; none counts if `step` is 0. */
  predicate AllBelow(step: nat, total: nat, n: nat) {
    if step == 0 then n == 0 else (n == 0 || n * step < total) && total <= (n + 1) * step
  }

  /** What has to have been reported for a node: nothing before it starts; while it runs, every interval so far, the
      next one being due if it comes before the finish; and at the finish, its whole duration as well. */
  ghost predicate ReportsOk(p: Params, trace: seq<Emitted>, ticks: map<nat, nat>, i: nat)
    requires i < |p.dur|
  {
    var r, h := ReportsOf(trace, i), Summary(trace);
    if !p.emitProgress || i !in h.start then r == []
    else if i in h.finish then
      exists n :: AllBelow(p.interval, p.dur[i], n) && r == Multiples(p.interval, n) + [p.dur[i]]
    else
      && r == Multiples(p.interval, |r|)
      && if i in ticks then p.interval > 0 && ticks[i] == h.start[i] + (|r| + 1) * p.interval
         else AllBelow(p.interval, p.dur[i], |r|)
  }

  predicate LogsOk(p: Params, trace: seq<Emitted>, i: nat) {
    LogsOf(trace, i) == if i in Summary(trace).finish then p.lines else 0
  }

  ghost predicate AllReported(p: Params, trace: seq<Emitted>, ticks: map<nat, nat>)
    requires Valid(p)
  {
    forall i | 0 <= i < Size(p) :: ReportsOk(p, trace, ticks, i) && LogsOk(p, trace, i)
  }

  /* ---- counting ---- */

  lemma ReportsNext(trace: seq<Emitted>, e: Emitted, i: nat)
    ensures ReportsOf(trace + [e], i) == ReportsOf(trace, i) + if e.Progress? && e.node == i then [e.done] else []
    ensures LogsOf(trace + [e], i) == LogsOf(trace, i) + CountOf(e.LogLine? && e.node == i)
    ensures Summary(trace + [e]) == Record(Summary(trace), e)
  {
    assert (trace + [e])[..|trace|] == trace;
  }

  lemma LogsOneMore(trace: seq<Emitted>, t: nat, i: nat, n: nat)
    requires n > 0
    ensures trace + Logs(t, i, n) == (trace + Logs(t, i, n - 1)) + [LogLine(t, i)]
  {
  }

  lemma {:induction false} LogsReported(trace: seq<Emitted>, t: nat, i: nat, n: nat, k: nat)
    ensures var trace' := trace + Logs(t, i, n);
      && ReportsOf(trace', k) == ReportsOf(trace, k)
      && LogsOf(trace', k) == LogsOf(trace, k) + (if k == i then n else 0)
      && Summary(trace').start == Summary(trace).start && Summary(trace').finish == Summary(trace).finish
  {
    hide ReportsOf, LogsOf, Summary;
    if n == 0 {
      assert trace + [] == trace;
    } else {
      hide Logs;
      LogsReported(trace, t, i, n - 1, k);
      LogsOneMore(trace, t, i, n);
      var before := trace + Logs(t, i, n - 1);
      ReportsNext(before, LogLine(t, i), k);
      assert ReportsOf(before, k) + [] == ReportsOf(before, k);
    }
  }

  lemma FinaleReported(p: Params, trace: seq<Emitted>, t: nat, i: nat, k: nat)
    requires i < |p.dur|
    ensures var trace' := trace + Finale(p, t, i);
      && ReportsOf(trace', k) == ReportsOf(trace, k) + (if k == i && p.emitProgress then [p.dur[i]] else [])
      && LogsOf(trace', k) == LogsOf(trace, k) + (if k == i then p.lines else 0)
      && Summary(trace').start == Summary(trace).start && Summary(trace').finish == Summary(trace).finish[i := t]
  {
    hide ReportsOf, LogsOf, Summary, Logs;
    var e := Progress(t, i, p.dur[i], p.dur[i]);
    var t1 := trace + if p.emitProgress then [e] else [];
    if p.emitProgress {
      ReportsNext(trace, e, k);
    } else {
      assert t1 == trace;
    }
    LogsReported(t1, t, i, p.lines, k);
    var t2 := t1 + Logs(t, i, p.lines);
    ReportsNext(t2, Finished(t, i), k);
    assert trace + Finale(p, t, i) == t2 + [Finished(t, i)];
    assert ReportsOf(t2, k) + [] == ReportsOf(t2, k) && ReportsOf(trace, k) + [] == ReportsOf(trace, k);
  }

  /* ---- the steps of a run ---- */

  /** A start is nothing to the other nodes. */
  lemma OthersStart(p: Params, trace: seq<Emitted>, ticks: map<nat, nat>, ticks': map<nat, nat>, t: nat, j: nat, i: nat)
    requires i < |p.dur| && i != j && ReportsOk(p, trace, ticks, i)
    requires (i in ticks <==> i in ticks') && (i in ticks ==> ticks[i] == ticks'[i])
    ensures ReportsOk(p, trace + [Started(t, j)], ticks', i)
  {
    ReportsNext(trace, Started(t, j), i);
    assert ReportsOf(trace, i) + [] == ReportsOf(trace, i);
    hide ReportsOf, Summary, Multiples;
  }

  lemma StartIsNoLog(p: Params, trace: seq<Emitted>, t: nat, j: nat, i: nat)
    requires LogsOk(p, trace, i)
    ensures LogsOk(p, trace + [Started(t, j)], i)
  {
    ReportsNext(trace, Started(t, j), i);
  }

  lemma NodeStarts(p: Params, c: Core, trace: seq<Emitted>, ticks: map<nat, nat>)
    requires Valid(p) && Sized(p, c) && c.ready != [] && ReportsOk(p, trace, ticks, c.ready[0])
    requires c.ready[0] !in ticks && c.ready[0] !in Summary(trace).start && c.ready[0] !in Summary(trace).finish
    ensures ReportsOk(p, trace + [Started(c.now, c.ready[0])], TicksAfterLaunch(p, c, ticks), c.ready[0])
  {
    hide Wired;
    var j := c.ready[0];
    ReportsNext(trace, Started(c.now, j), j);
    assert ReportsOf(trace, j) == [] && Multiples(p.interval, 0) == [];
    hide ReportsOf, Summary, Multiples;
  }

  lemma LaunchReported(p: Params, c: Core, trace: seq<Emitted>, ticks: map<nat, nat>)
    requires Valid(p) && Sized(p, c) && c.ready != [] && AllReported(p, trace, ticks)
    requires c.ready[0] !in ticks && c.ready[0] !in Summary(trace).start && c.ready[0] !in Summary(trace).finish
    ensures AllReported(p, trace + [Started(c.now, c.ready[0])], TicksAfterLaunch(p, c, ticks))
  {
    hide Wired, ReportsOk, LogsOk;
    var j := c.ready[0];
    forall i | 0 <= i < Size(p)
      ensures ReportsOk(p, trace + [Started(c.now, j)], TicksAfterLaunch(p, c, ticks), i)
      ensures LogsOk(p, trace + [Started(c.now, j)], i)
    {
      assert ReportsOk(p, trace, ticks, i) && LogsOk(p, trace, i);
      StartIsNoLog(p, trace, c.now, j, i);
      if i == j {
        NodeStarts(p, c, trace, ticks);
      } else {
        OthersStart(p, trace, ticks, TicksAfterLaunch(p, c, ticks), c.now, j, i);
      }
    }
  }

  lemma {:induction false} StartsReported(p: Params, c: Core, trace: seq<Emitted>, ticks: map<nat, nat>)
    requires Legal(p, trace) && Inv(p, c, Summary(trace), ticks, []) && Summary(trace).lastFinish == c.now
    requires AllReported(p, trace, ticks)
    ensures AllReported(p, trace + Starts(c.now, StartWork(p, c).1), TicksAfterStarts(p, c, ticks))
    decreases |c.ready|
  {
    if Blocked(p, c) {
      StartWorkBlocked(p, c);
      assert trace + Starts(c.now, []) == trace;
    } else {
      var e, c1 := Started(c.now, c.ready[0]), Launch(p, c);
      HeadMayStart(p, c, Summary(trace), ticks);
      HeadIsNew(p, c, Summary(trace), ticks);
      LaunchReported(p, c, trace, ticks);
      LaunchKeeps(p, c, Summary(trace), ticks);
      Snoc(p, trace, e);
      StartsUnfold(p, c, trace);
      hide Inv, May, Legal, Summary, Starts, Blocked, Launch, TicksAfterLaunch, Ticks, HasRoom, AllReported, StartWork;
      StartsReported(p, c1, trace + [e], TicksAfterLaunch(p, c, ticks));
    }
  }

  lemma HeadIsNew(p: Params, c: Core, h: Hist, ticks: map<nat, nat>)
    requires Inv(p, c, h, ticks, []) && c.ready != []
    ensures c.ready[0] !in h.start && c.ready[0] !in h.finish
  {
    assert NodeOk(p, c, h, [], c.ready[0]);
  }

  lemma NodeFinishes(p: Params, trace: seq<Emitted>, ticks: map<nat, nat>, t: nat, i: nat)
    requires i < |p.dur| && ReportsOk(p, trace, ticks, i) && LogsOk(p, trace, i)
    requires Flying(Summary(trace), i) && i !in ticks
    ensures ReportsOk(p, trace + Finale(p, t, i), ticks, i) && LogsOk(p, trace + Finale(p, t, i), i)
  {
    hide Finale, Multiples, Summary, ReportsOf, LogsOf;
    FinaleReported(p, trace, t, i, i);
    assert ReportsOf(trace, i) + [] == ReportsOf(trace, i);
    if p.emitProgress {
      var n := |ReportsOf(trace, i)|;
      assert AllBelow(p.interval, p.dur[i], n) && ReportsOf(trace, i) == Multiples(p.interval, n);
    }
  }

  /** A finish is nothing to the other nodes. */
  lemma OthersFinish(p: Params, trace: seq<Emitted>, ticks: map<nat, nat>, t: nat, i: nat, k: nat)
    requires i < |p.dur| && k < |p.dur| && k != i && ReportsOk(p, trace, ticks, k) && LogsOk(p, trace, k)
    ensures ReportsOk(p, trace + Finale(p, t, i), ticks, k) && LogsOk(p, trace + Finale(p, t, i), k)
  {
    hide Finale, Multiples, Summary, ReportsOf, LogsOf;
    FinaleReported(p, trace, t, i, k);
    assert ReportsOf(trace, k) + [] == ReportsOf(trace, k);
  }

  lemma FinishReported(p: Params, trace: seq<Emitted>, ticks: map<nat, nat>, t: nat, i: nat)
    requires Valid(p) && i < Size(p) && AllReported(p, trace, ticks)
    requires Flying(Summary(trace), i) && i !in ticks
    ensures AllReported(p, trace + Finale(p, t, i), ticks)
  {
    hide Wired, Finale, ReportsOk, LogsOk;
    forall k | 0 <= k < Size(p)
      ensures ReportsOk(p, trace + Finale(p, t, i), ticks, k) && LogsOk(p, trace + Finale(p, t, i), k)
    {
      assert ReportsOk(p, trace, ticks, k) && LogsOk(p, trace, k);
      if k == i {
        NodeFinishes(p, trace, ticks, t, i);
      } else {
        OthersFinish(p, trace, ticks, t, i, k);
      }
    }
  }

  lemma NextMultiple(step: nat, n: nat)
    ensures Multiples(step, n + 1) == Multiples(step, n) + [(n + 1) * step]
  {
  }

  lemma NextReport(p: Params, trace: seq<Emitted>, c: Core, ticks: map<nat, nat>, e: Ev)
    requires Valid(p) && Sized(p, c) && e.node < Size(p) && ReportsOk(p, trace, ticks, e.node)
    requires Flying(Summary(trace), e.node) && c.start[e.node] == Summary(trace).start[e.node]
    requires e.node in ticks && ticks[e.node] == e.time && p.emitProgress
    requires c.start[e.node] <= e.time < c.start[e.node] + p.dur[e.node]
    ensures ReportsOk(p, trace + [Report(p, c, e)], TicksAfterTick(p, c, ticks, e), e.node)
  {
    hide Wired, Multiples;
    var i, r := e.node, ReportsOf(trace, e.node);
    var n := |r|;
    ReportsNext(trace, Report(p, c, e), i);
    NextMultiple(p.interval, n);
    assert |Multiples(p.interval, n + 1)| == n + 1;
    assert (n + 1) * p.interval + p.interval == (n + 2) * p.interval;
  }

  /** A report is nothing to the other nodes, and no log line. */
  lemma OthersReported(p: Params, trace: seq<Emitted>, ticks: map<nat, nat>, ticks': map<nat, nat>, e: Emitted, k: nat)
    requires k < |p.dur| && e.Progress? && e.node != k && ReportsOk(p, trace, ticks, k)
    requires (k in ticks <==> k in ticks') && (k in ticks ==> ticks[k] == ticks'[k])
    ensures ReportsOk(p, trace + [e], ticks', k)
  {
    ReportsNext(trace, e, k);
    assert ReportsOf(trace, k) + [] == ReportsOf(trace, k);
    hide ReportsOf, Summary, Multiples;
  }

  lemma ReportIsNoLog(p: Params, trace: seq<Emitted>, e: Emitted, k: nat)
    requires e.Progress? && LogsOk(p, trace, k)
    ensures LogsOk(p, trace + [e], k)
  {
    ReportsNext(trace, e, k);
  }

  lemma TickReported(p: Params, o: Outcome, ticks: map<nat, nat>, e: Ev)
    requires Between(p, o, ticks) && Eligible(p, o.core, e) && !e.finish && AllReported(p, o.trace, ticks)
    ensures AllReported(p, Step(p, o, e).trace, TicksAfterTick(p, o.core, ticks, e))
  {
    hide Inv, IsTop, Wired, Legal, ReportsOk, LogsOk, Blocked;
    TickIsDue(p, o.core, Summary(o.trace), ticks, e);
    var e', ticks' := Report(p, o.core, e), TicksAfterTick(p, o.core, ticks, e);
    assert Step(p, o, e).trace == o.trace + [e'];
    forall k | 0 <= k < Size(p) ensures ReportsOk(p, o.trace + [e'], ticks', k) && LogsOk(p, o.trace + [e'], k) {
      assert ReportsOk(p, o.trace, ticks, k) && LogsOk(p, o.trace, k);
      ReportIsNoLog(p, o.trace, e', k);
      if k == e.node {
        NextReport(p, o.trace, o.core, ticks, e);
      } else {
        OthersReported(p, o.trace, ticks, ticks', e', k);
      }
    }
  }

  lemma FinishTurnReported(p: Params, o: Outcome, ticks: map<nat, nat>, e: Ev)
    requires Between(p, o, ticks) && Eligible(p, o.core, e) && e.finish && AllReported(p, o.trace, ticks)
    ensures AllReported(p, Step(p, o, e).trace, TicksAfterStarts(p, Woken(p, o.core, e), ticks))
  {
    var h := Summary(o.trace);
    FinishIsDue(p, o.core, h, ticks, e);
    WokenOk(p, o.core, h, ticks, e);
    FinaleLegal(p, o.trace, e.time, e.node);
    var t1 := o.trace + Finale(p, e.time, e.node);
    hide Inv, Legal, Finale, Starts, StartWork, TicksAfterStarts, Sized, Blocked, Eligible, Woken, AllReported;
    FinishReported(p, o.trace, ticks, e.time, e.node);
    hide Summary, May;
    StartsReported(p, Woken(p, o.core, e), t1, ticks);
  }

  lemma NothingReported(p: Params)
    requires Valid(p)
    ensures AllReported(p, [], map[])
  {
  }

  lemma {:induction false} RunReported(p: Params, choices: seq<Ev>)
    requires Valid(p) && IsRun(p, choices)
    ensures AllReported(p, Exec(p, choices).trace, TicksOf(p, choices))
    decreases |choices|
  {
    if choices == [] {
      NothingReported(p);
      SeededOk(p);
      hide Inv, AllReported;
      StartsReported(p, Seeded(p), [], map[]);
      assert [] + Begin(p).trace == Begin(p).trace;
    } else {
      var init, e := choices[..|choices| - 1], choices[|choices| - 1];
      RunReported(p, init);
      RunInvariant(p, init);
      hide Between, Step, Eligible, AllReported, TicksAfterStarts, TicksAfterTick, Woken;
      if e.finish {
        FinishTurnReported(p, Exec(p, init), TicksOf(p, init), e);
      } else {
        TickReported(p, Exec(p, init), TicksOf(p, init), e);
      }
    }
  }

  /** For every node finished in a run: with progress on, a report at each multiple of the interval before its
      finish, in order, and one at the finish, and otherwise none; and as many log lines as configured. */
  ghost predicate ReportsFor(p: Params, trace: seq<Emitted>, i: nat)
    requires i < |p.dur|
  {
    && LogsOf(trace, i) == p.lines
    && if p.emitProgress then
         exists n :: AllBelow(p.interval, p.dur[i], n) && ReportsOf(trace, i) == Multiples(p.interval, n) + [p.dur[i]]
       else ReportsOf(trace, i) == []
  }

  lemma ReportLaw(p: Params, choices: seq<Ev>, i: nat)
    requires Valid(p) && IsRun(p, choices) && i < Size(p) && i in Summary(Exec(p, choices).trace).finish
    ensures ReportsFor(p, Exec(p, choices).trace, i)
  {
    RunReported(p, choices);
    RunInvariant(p, choices);
    var o := Exec(p, choices);
    assert ReportsOk(p, o.trace, TicksOf(p, choices), i) && LogsOk(p, o.trace, i);
    assert HistOk(p, Summary(o.trace));
  }
}
