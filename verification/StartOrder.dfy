/** Nodes are started in the order in which they become ready, and as soon as there is a slot for the next. */
module StartOrder {
  import opened DepGraph
  import opened ReadyOrder
  import opened SimTrace
  import opened SimCore
  import opened SimSteps
  import opened SimRun

  /** The nodes started, in the order of the stream. */
  function NodesStarted(trace: seq<Emitted>): seq<nat> {
    if trace == [] then []
    else
      var e := trace[|trace| - 1];
      NodesStarted(trace[..|trace| - 1]) + if e.Started? then [e.node] else []
  }

  /** The nodes finished, in the order of the stream. */
  function NodesFinished(trace: seq<Emitted>): seq<nat> {
    if trace == [] then []
    else
      var e := trace[|trace| - 1];
      NodesFinished(trace[..|trace| - 1]) + if e.Finished? then [e.node] else []
  }

  lemma {:induction false} OrdersAppend(a: seq<Emitted>, b: seq<Emitted>)
    ensures NodesStarted(a + b) == NodesStarted(a) + NodesStarted(b)
    ensures NodesFinished(a + b) == NodesFinished(a) + NodesFinished(b)
  {
    if b == [] {
      assert a + b == a;
    } else {
      var init := b[..|b| - 1];
      assert (a + b)[..|a + b| - 1] == a + init;
      OrdersAppend(a, init);
    }
  }

  lemma OrdersOne(e: Emitted)
    ensures NodesStarted([e]) == if e.Started? then [e.node] else []
    ensures NodesFinished([e]) == if e.Finished? then [e.node] else []
  {
    assert [e][..0] == [];
  }

  lemma {:induction false} StartsOrders(t: nat, nodes: seq<nat>)
    ensures NodesStarted(Starts(t, nodes)) == nodes && NodesFinished(Starts(t, nodes)) == []
  {
    if nodes == [] {
    } else {
      StartsOrders(t, nodes[1..]);
      OrdersOne(Started(t, nodes[0]));
      OrdersAppend([Started(t, nodes[0])], Starts(t, nodes[1..]));
    }
  }

  lemma {:induction false} LogsOrders(t: nat, i: nat, n: nat)
    ensures NodesStarted(Logs(t, i, n)) == [] && NodesFinished(Logs(t, i, n)) == []
  {
    if n == 0 {
    } else {
      LogsOrders(t, i, n - 1);
      OrdersOne(LogLine(t, i));
      OrdersAppend(Logs(t, i, n - 1), [LogLine(t, i)]);
    }
  }

  lemma FinaleOrders(p: Params, t: nat, i: nat)
    requires i < |p.dur|
    ensures NodesStarted(Finale(p, t, i)) == [] && NodesFinished(Finale(p, t, i)) == [i]
  {
    hide NodesStarted, NodesFinished, Logs;
    var head := if p.emitProgress then [Progress(t, i, p.dur[i], p.dur[i])] else [];
    LogsOrders(t, i, p.lines);
    OrdersOne(Progress(t, i, p.dur[i], p.dur[i]));
    OrdersOne(Finished(t, i));
    if p.emitProgress {
      OrdersAppend(head, Logs(t, i, p.lines));
    } else {
      assert head + Logs(t, i, p.lines) == Logs(t, i, p.lines);
    }
    OrdersAppend(head + Logs(t, i, p.lines), [Finished(t, i)]);
  }

  lemma {:induction false} FinishedAre(trace: seq<Emitted>)
    ensures Handled(NodesFinished(trace)) == Summary(trace).finish.Keys
  {
    if trace == [] {
    } else {
      FinishedAre(trace[..|trace| - 1]);
    }
  }

  /* ---- the queue ---- */

  /** Starting takes nodes off the front of the queue. */
  lemma {:induction false} StartsFromFront(p: Params, c: Core)
    requires Valid(p) && Sized(p, c)
    ensures StartWork(p, c).1 + StartWork(p, c).0.ready == c.ready
    decreases |c.ready|
  {
    hide StartWork, Launch, Valid;
    if Blocked(p, c) {
      StartWorkBlocked(p, c);
      assert [] + c.ready == c.ready;
    } else {
      StartWorkNext(p, c);
      StartsFromFront(p, Launch(p, c));
      AppendThree([c.ready[0]], StartWork(p, Launch(p, c)).1, StartWork(p, Launch(p, c)).0.ready);
      assert [c.ready[0]] + c.ready[1..] == c.ready;
    }
  }

  /** Telling the dependents appends those whose last input is done. */
  lemma {:induction false} WakeAppends(p: Params, c: Core, h: Hist, rest: seq<nat>)
    requires NoDup(rest) && (forall k | 0 <= k < |rest| :: rest[k] < Size(p))
    requires Valid(p) && Sized(p, c) && NodesOk(p, c, h, rest) && NoDup(c.ready)
    ensures Wake(c, rest).ready == c.ready + Unlocked(p.g, h.finish.Keys, rest)
    decreases |rest|
  {
    hide NodesOk, Wired, NoDup;
    if rest == [] {
      assert c.ready + [] == c.ready;
    } else {
      var j := rest[0];
      WakeNodes(p, c, h, rest);
      AwokenIff(p, c, h, rest);
      assert rest == [j] + rest[1..];
      NoDupTail(rest);
      WakeAppends(p, WakeOne(c, j), h, rest[1..]);
    }
  }

  lemma NoDupTail(s: seq<nat>)
    requires NoDup(s) && s != []
    ensures NoDup(s[1..])
  {
  }

  lemma AwokenIff(p: Params, c: Core, h: Hist, rest: seq<nat>)
    requires NoDup(rest) && rest != [] && (forall k | 0 <= k < |rest| :: rest[k] < Size(p))
    requires Valid(p) && Sized(p, c) && NodesOk(p, c, h, rest) && c.pending[rest[0]] > 0
    ensures var j := rest[0];
      WakeOne(c, j).ready ==
        c.ready + if j < |p.g.inputs| && (forall i | i in p.g.inputs[j] :: i in h.finish.Keys) then [j] else []
  {
    var j := rest[0];
    assert NodeOk(p, c, h, rest, j) && j in rest;
    UndoneZero(p.g.inputs[j], h.finish.Keys);
    assert c.ready + [] == c.ready;
  }

  lemma {:induction false} LeavesMeet(p: Params, n: nat)
    requires Valid(p) && n <= Size(p)
    ensures Leaves(p, n) + LeavesFrom(p.g, n) == LeavesFrom(p.g, 0)
  {
    if n == 0 {
      assert [] + LeavesFrom(p.g, 0) == LeavesFrom(p.g, 0);
    } else {
      LeavesMeet(p, n - 1);
    }
  }

  /* ---- the law ---- */

  /** What has been started, followed by what is queued, is what has become ready, in that order. */
  ghost predicate InOrder(p: Params, o: Outcome) {
    NodesStarted(o.trace) + o.core.ready == ReadyAfter(p.g, NodesFinished(o.trace))
  }

  lemma BeginInOrder(p: Params)
    requires Valid(p)
    ensures InOrder(p, Begin(p))
  {
    var c := Seeded(p);
    StartsOrders(0, StartWork(p, c).1);
    StartsFromFront(p, c);
    LeavesMeet(p, Size(p));
    assert LeavesFrom(p.g, Size(p)) == [];
    assert Leaves(p, Size(p)) + [] == Leaves(p, Size(p));
  }

  lemma QuietEnd(trace: seq<Emitted>, end: seq<Emitted>)
    requires end == [] || (|end| == 1 && end[0].Progress?)
    ensures NodesStarted(trace + end) == NodesStarted(trace) && NodesFinished(trace + end) == NodesFinished(trace)
  {
    hide NodesStarted, NodesFinished;
    if end == [] {
      assert trace + end == trace;
    } else {
      assert end == [end[0]];
      OrdersAppend(trace, end);
      OrdersOne(end[0]);
      assert NodesStarted(trace) + [] == NodesStarted(trace);
      assert NodesFinished(trace) + [] == NodesFinished(trace);
    }
  }

  lemma TickInOrder(p: Params, o: Outcome, ticks: map<nat, nat>, e: Ev)
    requires Between(p, o, ticks) && Eligible(p, o.core, e) && !e.finish && InOrder(p, o)
    ensures InOrder(p, Step(p, o, e))
  {
    hide Inv, Legal, Blocked, IsTop, Wired, NodesStarted, NodesFinished, ReadyAfter;
    QuietEnd(o.trace, if o.core.st[e.node].Running? then [Report(p, o.core, e)] else []);
  }

  lemma OutputsOk(p: Params, i: nat)
    requires Valid(p) && i < Size(p)
    ensures i < |p.g.outputs| && NoDup(p.g.outputs[i])
    ensures forall k | 0 <= k < |p.g.outputs[i]| :: p.g.outputs[i][k] < Size(p)
  {
    assert forall k | 0 <= k < |p.g.outputs[i]| :: p.g.outputs[i][k] in p.g.outputs[i];
  }

  lemma WokenAppends(p: Params, o: Outcome, ticks: map<nat, nat>, e: Ev)
    requires Between(p, o, ticks) && Eligible(p, o.core, e) && e.finish
    ensures Valid(p) && Sized(p, o.core) && e.node < |p.g.outputs|
    ensures Woken(p, o.core, e).ready ==
      o.core.ready + Unlocked(p.g, Summary(o.trace).finish.Keys + {e.node}, p.g.outputs[e.node])
  {
    hide Wired, HistOk, NodesOk, Legal, TimelineOk, SlotsOk, TicksOk, DueOk, IsTop, Blocked, Unlocked, NoDup;
    var h := Summary(o.trace);
    OutputsOk(p, e.node);
    RetireKeeps(p, o.core, h, ticks, e);
    WakeAppends(p, Retire(p, o.core, e), Record(h, Finished(e.time, e.node)), p.g.outputs[e.node]);
    assert Record(h, Finished(e.time, e.node)).finish.Keys == h.finish.Keys + {e.node};
  }

  lemma HandledNext(g: Graph, order: seq<nat>, i: nat)
    requires i < |g.outputs|
    ensures ReadyAfter(g, order + [i]) == ReadyAfter(g, order) + Unlocked(g, Handled(order) + {i}, g.outputs[i])
  {
    assert (order + [i])[..|order|] == order;
    assert Handled(order + [i]) == Handled(order) + {i};
  }

  /** What a finishing turn adds to the two orders. */
  lemma TurnOrders(p: Params, trace: seq<Emitted>, t: nat, i: nat, started: seq<nat>)
    requires i < |p.dur|
    ensures var trace' := trace + Finale(p, t, i) + Starts(t, started);
      && NodesStarted(trace') == NodesStarted(trace) + started
      && NodesFinished(trace') == NodesFinished(trace) + [i]
  {
    hide Starts, Finale, NodesStarted, NodesFinished;
    FinaleOrders(p, t, i);
    StartsOrders(t, started);
    OrdersAppend(trace, Finale(p, t, i));
    OrdersAppend(trace + Finale(p, t, i), Starts(t, started));
    assert NodesStarted(trace) + [] == NodesStarted(trace);
    assert NodesFinished(trace) + [i] + [] == NodesFinished(trace) + [i];
  }

  lemma FinishInOrder(p: Params, o: Outcome, ticks: map<nat, nat>, e: Ev)
    requires Between(p, o, ticks) && Eligible(p, o.core, e) && e.finish && InOrder(p, o)
    ensures InOrder(p, Step(p, o, e))
  {
    hide Between, Wired, IsTop, Starts, Finale, NodesStarted, NodesFinished, Summary, Unlocked, ReadyAfter, Handled;
    hide StartWork, Woken;
    WokenAppends(p, o, ticks, e);
    var c := Woken(p, o.core, e);
    var started := StartWork(p, c).1;
    TurnOrders(p, o.trace, e.time, e.node, started);
    StartsFromFront(p, c);
    FinishedAre(o.trace);
    HandledNext(p.g, NodesFinished(o.trace), e.node);
    var unlocked := Unlocked(p.g, Summary(o.trace).finish.Keys + {e.node}, p.g.outputs[e.node]);
    AppendThree(NodesStarted(o.trace), started, StartWork(p, c).0.ready);
    AppendThree(NodesStarted(o.trace), o.core.ready, unlocked);
  }

  lemma AppendThree(a: seq<nat>, b: seq<nat>, c: seq<nat>)
    ensures (a + b) + c == a + (b + c)
  {
  }

  lemma {:induction false} RunInOrder(p: Params, choices: seq<Ev>)
    requires Valid(p) && IsRun(p, choices)
    ensures InOrder(p, Exec(p, choices))
    decreases |choices|
  {
    if choices == [] {
      BeginInOrder(p);
    } else {
      var init, e := choices[..|choices| - 1], choices[|choices| - 1];
      RunInOrder(p, init);
      RunInvariant(p, init);
      hide Between, Step, Eligible, InOrder, TicksAfterStep;
      if e.finish {
        FinishInOrder(p, Exec(p, init), TicksOf(p, init), e);
      } else {
        TickInOrder(p, Exec(p, init), TicksOf(p, init), e);
      }
    }
  }

  /** The stream obeys the law: nodes are started in the order in which they become ready, which graph and
      stream alone determine. */
  predicate StartsInOrder(p: Params, trace: seq<Emitted>) {
    var started, ready := NodesStarted(trace), ReadyAfter(p.g, NodesFinished(trace));
    |started| <= |ready| && started == ready[..|started|]
  }

  /** Between turns, the next node in that order, if there is one, waits for a slot of its kind. */
  predicate NextWaits(p: Params, trace: seq<Emitted>)
    requires Valid(p)
  {
    var started, ready := NodesStarted(trace), ReadyAfter(p.g, NodesFinished(trace));
    |started| < |ready| ==>
      var j := ready[|started|];
      j < Size(p) && Count(Size(p), InFlight(p, Summary(trace), p.sub[j])) >= Cap(p, p.sub[j])
  }

  /** In every run, between any two turns. */
  lemma StartOrderLaw(p: Params, choices: seq<Ev>)
    requires Valid(p) && IsRun(p, choices)
    ensures StartsInOrder(p, Exec(p, choices).trace) && NextWaits(p, Exec(p, choices).trace)
  {
    RunInOrder(p, choices);
    RunInvariant(p, choices);
    var o := Exec(p, choices);
    hide NodesStarted, NodesFinished, ReadyAfter, Summary, Legal, HistOk, NodesOk, TicksOk, TimelineOk, DueOk;
    var started := NodesStarted(o.trace);
    assert (started + o.core.ready)[..|started|] == started;
    if o.core.ready != [] {
      assert (started + o.core.ready)[|started|] == o.core.ready[0];
    }
  }
}
