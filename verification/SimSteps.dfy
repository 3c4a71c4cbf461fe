/** Every step of the timed simulation keeps the invariant and emits only what the rules of a
    schedule allow. */
module SimSteps {
  import opened DepGraph
  import opened SimTrace
  import opened SimCore

  /* ---- what is at the top of the timeline ---- */

  lemma TopIsFirst(p: Params, c: Core, h: Hist, ticks: map<nat, nat>, e: Ev)
    requires Inv(p, c, h, ticks, []) && IsTop(c.timeline, e)
    ensures DueOk(p, e.time, h)
    ensures forall i | i in ticks :: e.time <= ticks[i]
  {
    hide HistOk, NodesOk, SlotsOk;
    forall k: nat | Flying(h, k) ensures k < |p.dur| && e.time <= h.start[k] + p.dur[k] {
      var o := Ev(h.start[k] + p.dur[k], k, true);
      assert c.timeline[o] == Expected(p, h, ticks, o) == 1;
    }
    forall k | k in ticks ensures e.time <= ticks[k] {
      var o := Ev(ticks[k], k, false);
      assert c.timeline[o] == Expected(p, h, ticks, o) == 1;
    }
  }

  lemma FinishIsDue(p: Params, c: Core, h: Hist, ticks: map<nat, nat>, e: Ev)
    requires Inv(p, c, h, ticks, []) && IsTop(c.timeline, e) && e.finish
    ensures e.node < Size(p) && May(p, h, Finished(e.time, e.node))
    ensures if p.sub[e.node] then c.subs > 0 else c.builds > 0
    ensures e.node !in ticks
  {
    TopIsFirst(p, c, h, ticks, e);
    assert c.timeline[e] == Expected(p, h, ticks, e);
    var i := e.node;
    assert i in InFlight(p, h, p.sub[i]);
    CountPositive(Size(p), InFlight(p, h, p.sub[i]), i);
    hide HistOk, NodesOk, Count;
  }

  /** A progress event is only ever popped for a running node, strictly before its finish. */
  lemma TickIsDue(p: Params, c: Core, h: Hist, ticks: map<nat, nat>, e: Ev)
    requires Inv(p, c, h, ticks, []) && IsTop(c.timeline, e) && !e.finish
    ensures e.node < Size(p) && Flying(h, e.node) && c.st[e.node].Running?
    ensures c.now <= e.time < c.start[e.node] + p.dur[e.node] && c.start[e.node] == h.start[e.node]
    ensures c.start[e.node] <= c.now
    ensures e.node in ticks && ticks[e.node] == e.time && p.interval > 0 && p.emitProgress
  {
    TopIsFirst(p, c, h, ticks, e);
    assert c.timeline[e] == Expected(p, h, ticks, e);
    assert NodeOk(p, c, h, [], e.node);
    hide SlotsOk, Undone;
  }

  /* ---- starting a node ---- */

  lemma HeadMayStart(p: Params, c: Core, h: Hist, ticks: map<nat, nat>)
    requires Inv(p, c, h, ticks, []) && c.ready != [] && HasRoom(p, c, c.ready[0]) && h.lastFinish == c.now
    ensures May(p, h, Started(c.now, c.ready[0]))
    ensures c.ready[0] !in ticks
  {
    var i := c.ready[0];
    assert NodeOk(p, c, h, [], i);
    UndoneZero(p.g.inputs[i], h.finish.Keys);
  }

  function TicksAfterLaunch(p: Params, c: Core, ticks: map<nat, nat>): map<nat, nat>
    requires Valid(p) && Sized(p, c) && c.ready != []
  {
    if Ticks(p, c, c.ready[0]) then ticks[c.ready[0] := c.now + p.interval] else ticks
  }

  lemma LaunchNodes(p: Params, c: Core, h: Hist)
    requires Valid(p) && Sized(p, c) && NodesOk(p, c, h, []) && NoDup(c.ready)
    requires c.ready != [] && May(p, h, Started(c.now, c.ready[0]))
    ensures NodesOk(p, Launch(p, c), Record(h, Started(c.now, c.ready[0])), [])
    ensures NoDup(c.ready[1..])
  {
    var i := c.ready[0];
    assert c.ready == [i] + c.ready[1..];
    assert i !in c.ready[1..];
    assert i !in h.start;
    var c', h' := Launch(p, c), Record(h, Started(c.now, i));
    hide May, Undone, Ticks;
    forall k | 0 <= k < Size(p) ensures NodeOk(p, c', h', [], k) {
      assert NodeOk(p, c, h, [], k) && NodeOk(p, c, h, [], i);
    }
  }

  lemma LaunchCounts(p: Params, h: Hist, t: nat, i: nat, isSub: bool)
    requires Valid(p) && i < Size(p) && i !in h.start && i !in h.finish
    ensures Count(Size(p), InFlight(p, Record(h, Started(t, i)), isSub))
         == Count(Size(p), InFlight(p, h, isSub)) + CountOf(p.sub[i] == isSub)
  {
    var before, after := InFlight(p, h, isSub), InFlight(p, Record(h, Started(t, i)), isSub);
    if p.sub[i] == isSub {
      assert after == before + {i};
      SumAdd(Ones(Size(p)), before, i);
    } else {
      assert after == before;
    }
  }

  lemma LaunchTimeline(p: Params, c: Core, h: Hist, ticks: map<nat, nat>)
    requires Valid(p) && Sized(p, c) && TimelineOk(p, c.timeline, h, ticks) && TicksOk(p, c.now, h, ticks)
    requires c.ready != [] && c.ready[0] !in ticks && c.ready[0] !in h.start && c.ready[0] !in h.finish
    ensures TimelineOk(p, Launch(p, c).timeline, Record(h, Started(c.now, c.ready[0])), TicksAfterLaunch(p, c, ticks))
  {
    hide TicksOk, Wired, Launch, Expected, TicksAfterLaunch;
    forall e: Ev
      ensures Launch(p, c).timeline[e]
           == Expected(p, Record(h, Started(c.now, c.ready[0])), TicksAfterLaunch(p, c, ticks), e)
    {
      assert c.timeline[e] == Expected(p, h, ticks, e);
      LaunchExpected(p, c, h, ticks, e);
    }
  }

  lemma LaunchExpected(p: Params, c: Core, h: Hist, ticks: map<nat, nat>, e: Ev)
    requires Valid(p) && Sized(p, c) && c.ready != [] && c.timeline[e] == Expected(p, h, ticks, e)
    requires c.ready[0] !in ticks && c.ready[0] !in h.start && c.ready[0] !in h.finish
    ensures Launch(p, c).timeline[e]
         == Expected(p, Record(h, Started(c.now, c.ready[0])), TicksAfterLaunch(p, c, ticks), e)
  {
    hide Wired;
  }

  lemma LaunchDue(p: Params, c: Core, h: Hist, ticks: map<nat, nat>)
    requires Valid(p) && Sized(p, c) && TicksOk(p, c.now, h, ticks) && DueOk(p, c.now, h)
    requires c.ready != [] && c.ready[0] !in ticks && c.ready[0] !in h.start && c.ready[0] !in h.finish
    ensures TicksOk(p, c.now, Record(h, Started(c.now, c.ready[0])), TicksAfterLaunch(p, c, ticks))
    ensures DueOk(p, c.now, Record(h, Started(c.now, c.ready[0])))
  {
  }

  lemma LaunchKeeps(p: Params, c: Core, h: Hist, ticks: map<nat, nat>)
    requires Inv(p, c, h, ticks, []) && c.ready != [] && HasRoom(p, c, c.ready[0]) && h.lastFinish == c.now
    ensures Inv(p, Launch(p, c), Record(h, Started(c.now, c.ready[0])), TicksAfterLaunch(p, c, ticks), [])
  {
    HeadMayStart(p, c, h, ticks);
    var i := c.ready[0];
    assert i !in h.start && i !in h.finish;
    LaunchNodes(p, c, h);
    LaunchTimeline(p, c, h, ticks);
    LaunchDue(p, c, h, ticks);
    LaunchCounts(p, h, c.now, i, false);
    LaunchCounts(p, h, c.now, i, true);
    RecordHistOk(p, h, Started(c.now, i));
    hide NodesOk, TimelineOk, Count, InFlight, May, HistOk, TicksOk, DueOk, Ticks;
  }

  /** Nothing more can be started: the queue is empty, or its head has no free slot. */
  predicate Blocked(p: Params, c: Core)
    requires Valid(p) && Sized(p, c)
  {
    c.ready == [] || !HasRoom(p, c, c.ready[0])
  }

  function TicksAfterStarts(p: Params, c: Core, ticks: map<nat, nat>): map<nat, nat>
    requires Valid(p) && Sized(p, c)
    decreases |c.ready|
  {
    if c.ready == [] || !HasRoom(p, c, c.ready[0]) then ticks
    else TicksAfterStarts(p, Launch(p, c), TicksAfterLaunch(p, c, ticks))
  }

  lemma StartsUnfold(p: Params, c: Core, trace: seq<Emitted>)
    requires Valid(p) && Sized(p, c) && !Blocked(p, c)
    ensures StartWork(p, c).0 == StartWork(p, Launch(p, c)).0 && Launch(p, c).now == c.now
    ensures trace + Starts(c.now, StartWork(p, c).1)
         == (trace + [Started(c.now, c.ready[0])]) + Starts(c.now, StartWork(p, Launch(p, c)).1)
  {
    var started, more := StartWork(p, c).1, StartWork(p, Launch(p, c)).1;
    assert started == [c.ready[0]] + more && started[1..] == more;
  }

  lemma StartWorkBlocked(p: Params, c: Core)
    requires Valid(p) && Sized(p, c) && (c.ready == [] || !HasRoom(p, c, c.ready[0]))
    ensures StartWork(p, c) == (c, [])
  {
  }

  lemma StartWorkNext(p: Params, c: Core)
    requires Valid(p) && Sized(p, c) && c.ready != [] && HasRoom(p, c, c.ready[0])
    ensures Sized(p, Launch(p, c)) && Launch(p, c).ready == c.ready[1..]
    ensures StartWork(p, c).0 == StartWork(p, Launch(p, c)).0
    ensures StartWork(p, c).1 == [c.ready[0]] + StartWork(p, Launch(p, c)).1
  {
  }

  lemma {:induction false} StartWorkKeeps(p: Params, c: Core, trace: seq<Emitted>, ticks: map<nat, nat>)
    requires Legal(p, trace) && Inv(p, c, Summary(trace), ticks, []) && Summary(trace).lastFinish == c.now
    ensures var (c', started) := StartWork(p, c);
      var trace' := trace + Starts(c.now, started);
      && Legal(p, trace')
      && Inv(p, c', Summary(trace'), TicksAfterStarts(p, c, ticks), [])
      && Summary(trace').finish == Summary(trace).finish
      && Blocked(p, c')
    decreases |c.ready|
  {
    if Blocked(p, c) {
      assert StartWork(p, c) == (c, []);
      assert trace + Starts(c.now, []) == trace;
    } else {
      var e := Started(c.now, c.ready[0]);
      var c1 := Launch(p, c);
      HeadMayStart(p, c, Summary(trace), ticks);
      LaunchKeeps(p, c, Summary(trace), ticks);
      Snoc(p, trace, e);
      StartsUnfold(p, c, trace);
      hide Inv, May, Legal, Summary, Starts, Blocked, Launch, TicksAfterLaunch, Ticks, HasRoom;
      StartWorkKeeps(p, c1, trace + [e], TicksAfterLaunch(p, c, ticks));
    }
  }

  /* ---- a finish event ---- */

  function Logs(t: nat, i: nat, n: nat): seq<Emitted> {
    if n == 0 then [] else Logs(t, i, n - 1) + [LogLine(t, i)]
  }

  /** What is emitted when a node finishes. */
  function Finale(p: Params, t: nat, i: nat): seq<Emitted>
    requires i < |p.dur|
  {
    (if p.emitProgress then [Progress(t, i, p.dur[i], p.dur[i])] else []) + Logs(t, i, p.lines) + [Finished(t, i)]
  }

  lemma {:induction false} LogsLegal(p: Params, trace: seq<Emitted>, t: nat, i: nat, n: nat)
    requires Legal(p, trace) && Flying(Summary(trace), i) && i < |p.dur|
    requires Summary(trace).now <= t == Summary(trace).start[i] + p.dur[i]
    ensures Legal(p, trace + Logs(t, i, n))
    ensures Summary(trace + Logs(t, i, n)) == Summary(trace).(now := if n == 0 then Summary(trace).now else t)
  {
    if n == 0 {
      assert trace + Logs(t, i, n) == trace;
    } else {
      LogsLegal(p, trace, t, i, n - 1);
      Snoc(p, trace + Logs(t, i, n - 1), LogLine(t, i));
      assert trace + Logs(t, i, n) == (trace + Logs(t, i, n - 1)) + [LogLine(t, i)];
      hide Legal, Summary;
    }
  }

  lemma FinaleLegal(p: Params, trace: seq<Emitted>, t: nat, i: nat)
    requires Legal(p, trace) && Flying(Summary(trace), i) && i < |p.dur|
    requires Summary(trace).now <= t == Summary(trace).start[i] + p.dur[i]
    ensures Legal(p, trace + Finale(p, t, i))
    ensures Summary(trace + Finale(p, t, i)) == Record(Summary(trace), Finished(t, i))
  {
    hide Legal, Summary;
    var head := if p.emitProgress then [Progress(t, i, p.dur[i], p.dur[i])] else [];
    var t1 := trace + head;
    if p.emitProgress {
      Snoc(p, trace, Progress(t, i, p.dur[i], p.dur[i]));
    } else {
      assert t1 == trace;
    }
    LogsLegal(p, t1, t, i, p.lines);
    var t2 := t1 + Logs(t, i, p.lines);
    Snoc(p, t2, Finished(t, i));
    hide Logs;
    assert trace + Finale(p, t, i) == t2 + [Finished(t, i)];
  }

  lemma RetireNodes(p: Params, c: Core, h: Hist, e: Ev)
    requires Valid(p) && Sized(p, c) && NodesOk(p, c, h, []) && HistOk(p, h)
    requires e.node < Size(p) && Flying(h, e.node)
    requires if p.sub[e.node] then c.subs > 0 else c.builds > 0
    ensures NodesOk(p, Retire(p, c, e), Record(h, Finished(e.time, e.node)), p.g.outputs[e.node])
  {
    var i := e.node;
    forall k | 0 <= k < Size(p)
      ensures NodeOk(p, Retire(p, c, e), Record(h, Finished(e.time, i)), p.g.outputs[i], k)
    {
      assert NodeOk(p, c, h, [], k) && NodeOk(p, c, h, [], i);
      UndoneDrop(p.g.inputs[k], h.finish.Keys, i);
      UndoneZero(p.g.inputs[k], h.finish.Keys);
      assert Record(h, Finished(e.time, i)).finish.Keys == h.finish.Keys + {i};
      assert i in p.g.inputs[k] <==> k in p.g.outputs[i];
      assert k in h.start && i in p.g.inputs[k] ==> i in h.finish;
      hide HistOk, Undone, NodesOk, Valid;
    }
  }

  lemma RetireCounts(p: Params, c: Core, h: Hist, e: Ev, isSub: bool)
    requires Valid(p) && e.node < Size(p) && Flying(h, e.node)
    ensures Count(Size(p), InFlight(p, Record(h, Finished(e.time, e.node)), isSub)) + CountOf(p.sub[e.node] == isSub)
         == Count(Size(p), InFlight(p, h, isSub))
  {
    var i := e.node;
    var before, after := InFlight(p, h, isSub), InFlight(p, Record(h, Finished(e.time, i)), isSub);
    if p.sub[i] == isSub {
      assert after == before - {i};
      SumRemove(Ones(Size(p)), before, i);
    } else {
      assert after == before;
    }
  }

  lemma RetireTimeline(p: Params, timeline: multiset<Ev>, h: Hist, ticks: map<nat, nat>, e: Ev)
    requires TimelineOk(p, timeline, h, ticks) && e in timeline && e.finish && e.node < |p.dur|
    requires Flying(h, e.node) && e.time == h.start[e.node] + p.dur[e.node]
    ensures TimelineOk(p, timeline - multiset{e}, Record(h, Finished(e.time, e.node)), ticks)
  {
    forall o: Ev
      ensures (timeline - multiset{e})[o] == Expected(p, Record(h, Finished(e.time, e.node)), ticks, o)
    {
      assert timeline[o] == Expected(p, h, ticks, o);
    }
  }

  lemma RetireDue(p: Params, h: Hist, ticks: map<nat, nat>, e: Ev, now: nat)
    requires TicksOk(p, now, h, ticks) && DueOk(p, e.time, h) && (forall i | i in ticks :: e.time <= ticks[i])
    requires e.node !in ticks
    ensures TicksOk(p, e.time, Record(h, Finished(e.time, e.node)), ticks)
    ensures DueOk(p, e.time, Record(h, Finished(e.time, e.node)))
  {
  }

  lemma RetireSlots(p: Params, c: Core, h: Hist, e: Ev)
    requires Valid(p) && Sized(p, c) && SlotsOk(p, c, h)
    requires e.node < Size(p) && Flying(h, e.node) && if p.sub[e.node] then c.subs > 0 else c.builds > 0
    ensures Sized(p, Retire(p, c, e)) && SlotsOk(p, Retire(p, c, e), Record(h, Finished(e.time, e.node)))
  {
    RetireCounts(p, c, h, e, false);
    RetireCounts(p, c, h, e, true);
    hide Count, InFlight;
  }

  lemma RetireKeeps(p: Params, c: Core, h: Hist, ticks: map<nat, nat>, e: Ev)
    requires Inv(p, c, h, ticks, []) && IsTop(c.timeline, e) && e.finish
    requires e.node < Size(p) && if p.sub[e.node] then c.subs > 0 else c.builds > 0
    ensures Inv(p, Retire(p, c, e), Record(h, Finished(e.time, e.node)), ticks, p.g.outputs[e.node])
  {
    FinishIsDue(p, c, h, ticks, e);
    TopIsFirst(p, c, h, ticks, e);
    RecordHistOk(p, h, Finished(e.time, e.node));
    assert Flying(h, e.node) && e.time == h.start[e.node] + p.dur[e.node];
    hide HistOk, NodesOk, TimelineOk, SlotsOk, TicksOk, DueOk, May, Valid;
    RetireNodes(p, c, h, e);
    RetireSlots(p, c, h, e);
    RetireDue(p, h, ticks, e, c.now);
    RetireTimeline(p, c.timeline, h, ticks, e);
  }

  /** Telling one dependent that an input is done. */
  lemma WakeNodes(p: Params, c: Core, h: Hist, rest: seq<nat>)
    requires rest != [] && NoDup(rest) && rest[0] < Size(p)
    requires Valid(p) && Sized(p, c) && NodesOk(p, c, h, rest) && NoDup(c.ready)
    ensures c.pending[rest[0]] > 0
    ensures Sized(p, WakeOne(c, rest[0])) && NodesOk(p, WakeOne(c, rest[0]), h, rest[1..])
    ensures NoDup(WakeOne(c, rest[0]).ready)
  {
    var j, rest' := rest[0], rest[1..];
    assert NodeOk(p, c, h, rest, j);
    assert j !in rest' && rest == [j] + rest';
    var c' := WakeOne(c, j);
    hide Undone, Valid;
    forall k | 0 <= k < Size(p) ensures NodeOk(p, c', h, rest', k) {
      assert NodeOk(p, c, h, rest, k);
      assert k != j ==> (k in rest <==> k in rest');
    }
  }

  function Wake(c: Core, rest: seq<nat>): Core
    requires |c.pending| == |c.st| && (forall k | 0 <= k < |rest| :: rest[k] < |c.st|)
    decreases |rest|
  {
    if rest == [] || c.pending[rest[0]] == 0 then c else Wake(WakeOne(c, rest[0]), rest[1..])
  }

  lemma {:induction false} WakeKeeps(p: Params, c: Core, h: Hist, ticks: map<nat, nat>, rest: seq<nat>)
    requires NoDup(rest) && (forall k | 0 <= k < |rest| :: rest[k] < Size(p))
    requires Inv(p, c, h, ticks, rest)
    ensures Inv(p, Wake(c, rest), h, ticks, [])
    ensures Wake(c, rest).now == c.now
    decreases |rest|
  {
    if rest == [] {
    } else {
      WakeNodes(p, c, h, rest);
      var c' := WakeOne(c, rest[0]);
      assert SlotsOk(p, c', h);
      hide HistOk, NodesOk, SlotsOk, TicksOk, TimelineOk, DueOk;
      WakeKeeps(p, c', h, ticks, rest[1..]);
    }
  }

  /* ---- a progress event ---- */

  function TicksAfterTick(p: Params, c: Core, ticks: map<nat, nat>, e: Ev): map<nat, nat>
    requires e.node < |c.start| && e.node < |p.dur|
  {
    if e.time + p.interval < c.start[e.node] + p.dur[e.node] then ticks[e.node := e.time + p.interval]
    else ticks - {e.node}
  }

  function Report(p: Params, c: Core, e: Ev): Emitted
    requires e.node < |c.start| && e.node < |p.dur| && c.start[e.node] <= e.time
  {
    var elapsed := e.time - c.start[e.node];
    Progress(e.time, e.node, if elapsed <= p.dur[e.node] then elapsed else p.dur[e.node], p.dur[e.node])
  }

  lemma TickTimeline(p: Params, c: Core, h: Hist, ticks: map<nat, nat>, e: Ev)
    requires Valid(p) && Sized(p, c) && TimelineOk(p, c.timeline, h, ticks) && e in c.timeline && !e.finish
    requires e.node < Size(p) && c.st[e.node].Running?
    ensures TimelineOk(p, Tick(p, c, e).timeline, h.(now := e.time), TicksAfterTick(p, c, ticks, e))
  {
    hide Wired, Tick, Expected, TicksAfterTick;
    assert c.timeline[e] == Expected(p, h, ticks, e);
    forall o: Ev
      ensures Tick(p, c, e).timeline[o] == Expected(p, h.(now := e.time), TicksAfterTick(p, c, ticks, e), o)
    {
      assert c.timeline[o] == Expected(p, h, ticks, o);
      TickExpected(p, c, h, ticks, e, o);
    }
  }

  lemma TickExpected(p: Params, c: Core, h: Hist, ticks: map<nat, nat>, e: Ev, o: Ev)
    requires Valid(p) && Sized(p, c) && e.node < Size(p) && c.st[e.node].Running? && !e.finish && e in c.timeline
    requires c.timeline[o] == Expected(p, h, ticks, o) && c.timeline[e] == Expected(p, h, ticks, e)
    ensures Tick(p, c, e).timeline[o] == Expected(p, h.(now := e.time), TicksAfterTick(p, c, ticks, e), o)
  {
    hide Wired;
  }

  lemma TickDue(p: Params, c: Core, h: Hist, ticks: map<nat, nat>, e: Ev)
    requires Valid(p) && Sized(p, c) && e.node < Size(p) && Flying(h, e.node) && c.start[e.node] == h.start[e.node]
    requires TicksOk(p, c.now, h, ticks) && DueOk(p, e.time, h) && (forall i | i in ticks :: e.time <= ticks[i])
    requires p.interval > 0 && p.emitProgress
    ensures TicksOk(p, e.time, h.(now := e.time), TicksAfterTick(p, c, ticks, e)) && DueOk(p, e.time, h.(now := e.time))
  {
  }

  lemma TickNodes(p: Params, c: Core, h: Hist, t: nat, tl: multiset<Ev>)
    requires Valid(p) && Sized(p, c) && NodesOk(p, c, h, []) && SlotsOk(p, c, h)
    ensures NodesOk(p, c.(now := t, timeline := tl), h.(now := t), [])
    ensures SlotsOk(p, c.(now := t, timeline := tl), h.(now := t))
  {
    assert forall s: bool :: InFlight(p, h.(now := t), s) == InFlight(p, h, s);
    forall k | 0 <= k < Size(p) ensures NodeOk(p, c.(now := t, timeline := tl), h.(now := t), [], k) {
      assert NodeOk(p, c, h, [], k);
    }
  }

  lemma ReportMay(p: Params, c: Core, h: Hist, ticks: map<nat, nat>, e: Ev)
    requires Inv(p, c, h, ticks, []) && IsTop(c.timeline, e) && !e.finish
    requires e.node < Size(p) && c.start[e.node] <= e.time
    ensures May(p, h, Report(p, c, e)) && Record(h, Report(p, c, e)) == h.(now := e.time)
    ensures HistOk(p, h.(now := e.time))
  {
    TickIsDue(p, c, h, ticks, e);
    hide NodesOk, TimelineOk, SlotsOk, TicksOk, DueOk, IsTop;
    RecordHistOk(p, h, Report(p, c, e));
  }

  lemma TickKeeps(p: Params, c: Core, h: Hist, ticks: map<nat, nat>, e: Ev)
    requires Inv(p, c, h, ticks, []) && IsTop(c.timeline, e) && !e.finish
    requires e.node < Size(p) && c.start[e.node] <= e.time
    ensures May(p, h, Report(p, c, e))
    ensures Inv(p, Tick(p, c, e), Record(h, Report(p, c, e)), TicksAfterTick(p, c, ticks, e), [])
  {
    TickIsDue(p, c, h, ticks, e);
    TopIsFirst(p, c, h, ticks, e);
    ReportMay(p, c, h, ticks, e);
    hide May, Report, IsTop;
    TickNodes(p, c, h, e.time, Tick(p, c, e).timeline);
    hide HistOk, NodesOk, TimelineOk, SlotsOk, TicksOk, DueOk, Valid;
    TickTimeline(p, c, h, ticks, e);
    TickDue(p, c, h, ticks, e);
    assert Tick(p, c, e) == c.(now := e.time, timeline := Tick(p, c, e).timeline);
  }
}
