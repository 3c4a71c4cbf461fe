/** The untimed generator's loops, and what its runs inherit from the timed ones. */
module SimPlainGen {
  import opened DepGraph
  import opened ReadyOrder
  import opened SimTrace
  import opened SimCore
  import opened SimSteps
  import opened SimRun
  import opened SimComplete
  import opened SimUntimed
  import opened SimErase
  import opened SimGen
  import opened StartOrder

  lemma {:induction false} BegansAppend(a: seq<nat>, i: nat)
    ensures Begans(a + [i]) == Begans(a) + [Began(i)]
  {
    if a == [] {
      assert [] + [i] == [i];
    } else {
      BegansAppend(a[1..], i);
      assert (a + [i])[1..] == a[1..] + [i];
    }
  }

  /** `start_work`. */
  method TakeReady(p: Params, u0: Plain) returns (u: Plain, started: seq<nat>)
    requires Valid(p) && Fits(p, u0)
    ensures (u, started) == TakeAll(p, u0)
  {
    u, started := u0, [];
    while u.ready != []
      invariant Fits(p, u)
      invariant TakeAll(p, u0).0 == TakeAll(p, u).0
      invariant TakeAll(p, u0).1 == started + TakeAll(p, u).1
      decreases |u.ready|
    {
      var i := u.ready[0];
      if p.sub[i] {
        if u.subs >= p.maxSubs { break; }
      } else {
        if u.builds >= p.maxJobs { break; }
      }
      u := Take(p, u);
      started := started + [i];
    }
    assert TakeAll(p, u) == (u, []);
    assert TakeAll(p, u0).1 == started;
  }

  method TellDependents(p: Params, u0: Plain, outs: seq<nat>) returns (u: Plain)
    requires Fits(p, u0) && (forall k | 0 <= k < |outs| :: outs[k] < Size(p))
    requires forall n | 0 <= n < |outs| :: u0.pending[outs[n]] > 0
    requires NoDup(outs)
    ensures u == TellAll(p, u0, outs)
  {
    u := u0;
    for k := 0 to |outs|
      invariant Fits(p, u)
      invariant forall n | k <= n < |outs| :: u.pending[outs[n]] > 0
      invariant TellAll(p, u0, outs) == TellAll(p, u, outs[k..])
    {
      assert outs[k..][0] == outs[k] && outs[k..][1..] == outs[k + 1..];
      u := Tell(u, outs[k]);
    }
  }

  method NoteStarts(started: seq<nat>) returns (out: seq<Note>)
    ensures out == Begans(started)
  {
    out := [];
    for k := 0 to |started|
      invariant out == Begans(started[..k])
    {
      assert started[..k + 1] == started[..k] + [started[k]];
      BegansAppend(started[..k], started[k]);
      out := out + [Began(started[k])];
    }
    assert started[..|started|] == started;
  }

  method NoteEnd(p: Params, i: nat) returns (out: seq<Note>)
    ensures out == Lines(i, p.lines) + [Ended(i)]
  {
    out := [];
    for n := 0 to p.lines
      invariant out == Lines(i, n)
    {
      out := out + [Line(i)];
    }
    out := out + [Ended(i)];
  }

  /** One turn of the main loop. */
  method PlainTurn(p: Params, u: Plain, notes: seq<Note>, d: Due) returns (u': Plain, notes': seq<Note>)
    requires Valid(p) && Fits(p, u) && IsNext(p, u, d)
    requires forall k | 0 <= k < |p.g.outputs[d.node]| ::
      p.g.outputs[d.node][k] < Size(p) && u.pending[p.g.outputs[d.node][k]] > 0
    ensures Told(u', notes') == PlainStep(p, Told(u, notes), d)
  {
    var outs := p.g.outputs[d.node];
    assert NoDup(outs);
    var retired := Settle(p, u, d);
    assert Fits(p, retired);
    var ends := NoteEnd(p, d.node);
    hide IsNext, TakeAll, Settle, Begans, Lines, NoDup;
    var told := TellDependents(p, retired, outs);
    var started;
    u', started := TakeReady(p, told);
    var begins := NoteStarts(started);
    notes' := notes + ends + begins;
    assert notes + (Lines(d.node, p.lines) + [Ended(d.node)]) == notes + Lines(d.node, p.lines) + [Ended(d.node)];
  }

  lemma TellsPending(p: Params, o: Outcome, u: Plain, ticks: map<nat, nat>, e: Ev)
    requires Between(p, o, ticks) && Eligible(p, o.core, e) && e.finish && Matches(o.core, u)
    ensures forall k | 0 <= k < |p.g.outputs[e.node]| ::
      p.g.outputs[e.node][k] < Size(p) && u.pending[p.g.outputs[e.node][k]] > 0
  {
    hide Between;
    RetiredPending(p, o, ticks, e);
  }

  lemma NextExists(timeline: multiset<Due>)
    requires timeline != multiset{}
    ensures exists d :: d in timeline && forall o | o in timeline :: d.time <= o.time
    decreases |timeline|
  {
    var d :| d in timeline;
    var rest := timeline - multiset{d};
    assert forall o | o in timeline :: o == d || o in rest;
    if rest != multiset{} {
      NextExists(rest);
      var r :| r in rest && forall o | o in rest :: r.time <= o.time;
      assert r in timeline;
      if d.time <= r.time {
        assert forall o | o in timeline :: d.time <= o.time;
      } else {
        assert forall o | o in timeline :: r.time <= o.time;
      }
    } else {
      assert forall o | o in timeline :: d.time <= o.time;
    }
  }

  lemma NextEligible(p: Params, choices: seq<Ev>, dues: seq<Due>, d: Due)
    requires Valid(p) && Agrees(p, choices, dues)
    requires d in Tale(p, dues).plain.timeline && (forall o | o in Tale(p, dues).plain.timeline :: d.time <= o.time)
    ensures IsNext(p, Tale(p, dues).plain, d)
  {
    var o, u := Exec(p, choices), Tale(p, dues).plain;
    RunInvariant(p, choices);
    var e := Ev(d.time, d.node, true);
    assert u.timeline[d] == o.core.timeline[e];
    QueuedRuns(p, o, TicksOf(p, choices), e);
  }

  lemma QueuedRuns(p: Params, o: Outcome, ticks: map<nat, nat>, e: Ev)
    requires Between(p, o, ticks) && e in o.core.timeline && e.finish
    ensures e.node < Size(p) && if p.sub[e.node] then o.core.subs > 0 else o.core.builds > 0
  {
    var h := Summary(o.trace);
    assert o.core.timeline[e] == Expected(p, h, ticks, e);
    assert e.node in InFlight(p, h, p.sub[e.node]);
    CountPositive(Size(p), InFlight(p, h, p.sub[e.node]), e.node);
  }

  /** The untimed generator runs to completion, whatever the order among equally early completions;
      `dues` are the completions popped. */
  method GenerateEvents(p: Params) returns (notes: seq<Note>, dues: seq<Due>)
    requires Valid(p)
    ensures IsPlainRun(p, dues) && Tale(p, dues).plain.timeline == multiset{} && notes == Tale(p, dues).notes
    ensures PlainDelivers(p, notes)
  {
    hide PlainDelivers;
    var c := SeedReady(p);
    var u := Plain(c.st, c.pending, c.ready, 0, 0, 0, multiset{});
    var started;
    u, started := TakeReady(p, u);
    notes := NoteStarts(started);
    dues := [];
    ghost var choices: seq<Ev> := PlainAgrees(p, dues);
    while u.timeline != multiset{}
      invariant Agrees(p, choices, dues) && Told(u, notes) == Tale(p, dues)
      decreases TurnsLeft(p, Summary(Exec(p, choices).trace))
    {
      NextExists(u.timeline);
      var d :| d in u.timeline && forall o | o in u.timeline :: d.time <= o.time;
      ghost var e := Ev(d.time, d.node, true);
      ghost var before := dues;
      NextEligible(p, choices, dues, d);
      choices := DrainTicks(p, choices, dues, d);
      ghost var o, ticks := Exec(p, choices), TicksOf(p, choices);
      RunInvariant(p, choices);
      TellsPending(p, o, u, ticks, e);
      hide Agrees, Between, Eligible, IsNext, TurnsLeft;
      u, notes := PlainTurn(p, u, notes, d);
      FinishStepOk(p, o, ticks, e);
      AgreesStep(p, choices, dues, e);
      ExecExtends(p, choices, e);
      choices := choices + [e];
      dues := dues + [d];
      TaleExtends(p, before, d);
      FinishDecreases(p, Summary(o.trace), Summary(Exec(p, choices).trace), e.node, e.time);
    }
    PlainFinishedRun(p, dues);
  }

  lemma ExecExtends(p: Params, choices: seq<Ev>, e: Ev)
    requires Valid(p) && IsRun(p, choices) && Eligible(p, Exec(p, choices).core, e)
    ensures IsRun(p, choices + [e]) && Exec(p, choices + [e]) == Step(p, Exec(p, choices), e)
  {
    assert (choices + [e])[..|choices|] == choices;
    hide Eligible, Step;
  }

  lemma TaleExtends(p: Params, dues: seq<Due>, d: Due)
    requires Valid(p) && IsPlainRun(p, dues) && IsNext(p, Tale(p, dues).plain, d)
    ensures IsPlainRun(p, dues + [d]) && Tale(p, dues + [d]) == PlainStep(p, Tale(p, dues), d)
  {
    assert (dues + [d])[..|dues|] == dues;
    hide IsNext, PlainStep;
  }

  /* ---- completeness carries over ---- */

  /** How often a note occurs. */
  function Times(notes: seq<Note>, n: Note): nat {
    if notes == [] then 0 else Times(notes[..|notes| - 1], n) + CountOf(notes[|notes| - 1] == n)
  }

  lemma TimesSnoc(notes: seq<Note>, last: Note, n: Note)
    ensures Times(notes + [last], n) == Times(notes, n) + CountOf(last == n)
  {
    assert (notes + [last])[..|notes|] == notes;
  }

  lemma TimesOne(notes: seq<Note>, e: Emitted, i: nat)
    ensures Times(notes + EraseOne(e), Began(i)) == Times(notes, Began(i)) + CountOf(e.Started? && e.node == i)
    ensures Times(notes + EraseOne(e), Ended(i)) == Times(notes, Ended(i)) + CountOf(e.Finished? && e.node == i)
  {
    hide Times;
    if EraseOne(e) == [] {
      assert notes + [] == notes;
    } else {
      TimesSnoc(notes, EraseOne(e)[0], Began(i));
      TimesSnoc(notes, EraseOne(e)[0], Ended(i));
    }
  }

  lemma {:induction false} TimesErased(trace: seq<Emitted>, i: nat)
    ensures Times(Erase(trace), Began(i)) == StartCount(trace, i)
    ensures Times(Erase(trace), Ended(i)) == FinishCount(trace, i)
  {
    hide Times;
    if trace == [] {
      TimesNone(Began(i));
      TimesNone(Ended(i));
    } else {
      var init, e := trace[..|trace| - 1], trace[|trace| - 1];
      TimesErased(init, i);
      TimesOne(Erase(init), e, i);
    }
  }

  lemma TimesNone(n: Note)
    ensures Times([], n) == 0
  {
  }

  lemma NothingQueued(p: Params, o: Outcome, u: Plain, ticks: map<nat, nat>, e: Ev)
    requires Between(p, o, ticks) && Matches(o.core, u) && u.timeline == multiset{}
    ensures e !in o.core.timeline
  {
    hide HistOk, NodesOk, SlotsOk, Legal, Blocked;
    var i := e.node;
    var h := Summary(o.trace);
    assert o.core.timeline[e] == Expected(p, h, ticks, e);
    if Flying(h, i) {
      var due := h.start[i] + p.dur[i];
      assert o.core.timeline[Ev(due, i, true)] == Expected(p, h, ticks, Ev(due, i, true));
      assert u.timeline[Due(due, i)] == o.core.timeline[Ev(due, i, true)];
    }
  }

  lemma DrainedIsOver(p: Params, choices: seq<Ev>, dues: seq<Due>)
    requires Valid(p) && Agrees(p, choices, dues) && Tale(p, dues).plain.timeline == multiset{}
    ensures Over(p, choices)
  {
    hide Between, Matches, Legal, Summary, Valid;
    RunInvariant(p, choices);
    var o, u, ticks := Exec(p, choices), Tale(p, dues).plain, TicksOf(p, choices);
    forall e: Ev ensures e !in o.core.timeline {
      NothingQueued(p, o, u, ticks, e);
    }
  }

  /** The untimed generator, too, reports every node started and finished exactly once if and
      only if the graph is acyclic and every kind in use has a slot. */
  lemma PlainCompletesIff(p: Params, dues: seq<Due>)
    requires Valid(p) && IsPlainRun(p, dues) && Tale(p, dues).plain.timeline == multiset{}
    ensures (forall i | 0 <= i < Size(p) ::
              Times(Tale(p, dues).notes, Began(i)) == 1 && Times(Tale(p, dues).notes, Ended(i)) == 1)
       <==> Acyclic(p.g) && SlotsForAll(p)
  {
    var choices := PlainAgrees(p, dues);
    DrainedIsOver(p, choices, dues);
    CompletesIff(p, choices);
    var trace := Exec(p, choices).trace;
    forall i | 0 <= i < Size(p)
      ensures Times(Tale(p, dues).notes, Began(i)) == CountOf(i in Summary(trace).start)
      ensures Times(Tale(p, dues).notes, Ended(i)) == CountOf(i in Summary(trace).finish)
    {
      TimesErased(trace, i);
      OncePerNode(p, trace, i);
    }
    hide Acyclic, SlotsForAll, Times, Legal, Summary;
  }

  /* ---- what the untimed generator delivers ---- */

  /** The nodes begun, in order. */
  function NodesBegan(notes: seq<Note>): seq<nat> {
    if notes == [] then []
    else
      var n := notes[|notes| - 1];
      NodesBegan(notes[..|notes| - 1]) + if n.Began? then [n.node] else []
  }

  /** The nodes ended, in order. */
  function NodesEnded(notes: seq<Note>): seq<nat> {
    if notes == [] then []
    else
      var n := notes[|notes| - 1];
      NodesEnded(notes[..|notes| - 1]) + if n.Ended? then [n.node] else []
  }

  lemma OrdersNext(notes: seq<Note>, e: Emitted)
    ensures NodesBegan(notes + EraseOne(e)) == NodesBegan(notes) + if e.Started? then [e.node] else []
    ensures NodesEnded(notes + EraseOne(e)) == NodesEnded(notes) + if e.Finished? then [e.node] else []
  {
    if EraseOne(e) == [] {
      assert notes + [] == notes;
      assert NodesBegan(notes) + [] == NodesBegan(notes) && NodesEnded(notes) + [] == NodesEnded(notes);
    } else {
      assert (notes + EraseOne(e))[..|notes|] == notes;
    }
  }

  lemma {:induction false} OrdersErased(trace: seq<Emitted>)
    ensures NodesBegan(Erase(trace)) == NodesStarted(trace)
    ensures NodesEnded(Erase(trace)) == NodesFinished(trace)
  {
    hide EraseOne;
    if trace == [] {
    } else {
      OrdersErased(trace[..|trace| - 1]);
      OrdersNext(Erase(trace[..|trace| - 1]), trace[|trace| - 1]);
    }
  }

  /** The notes are those of some stream as the timed generator delivers it. In particular nodes begin in the order
      in which they become ready; none does so or ends twice; and each does exactly if the graph is acyclic and
      each kind in use has a slot. */
  ghost predicate PlainDelivers(p: Params, notes: seq<Note>)
    requires Valid(p)
  {
    && (exists trace :: Legal(p, trace) && Delivers(p, trace) && notes == Erase(trace))
    && NodesBegan(notes) <= ReadyAfter(p.g, NodesEnded(notes))
    && (forall i: nat :: Times(notes, Ended(i)) <= Times(notes, Began(i)) <= 1)
    && ((forall i | 0 <= i < Size(p) :: Times(notes, Began(i)) == 1 && Times(notes, Ended(i)) == 1)
        <==> Acyclic(p.g) && SlotsForAll(p))
  }

  lemma PlainFinishedRun(p: Params, dues: seq<Due>)
    requires Valid(p) && IsPlainRun(p, dues) && Tale(p, dues).plain.timeline == multiset{}
    ensures PlainDelivers(p, Tale(p, dues).notes)
  {
    var choices := PlainAgrees(p, dues);
    DrainedIsOver(p, choices, dues);
    FinishedRun(p, choices);
    PlainCompletesIff(p, dues);
    var trace := Exec(p, choices).trace;
    OrdersErased(trace);
    StreamInOrder(p, trace);
    hide Delivers, Acyclic, SlotsForAll, Legal, Summary, Times, ReadyAfter, NodesStarted, NodesFinished;
    forall i: nat ensures Times(Tale(p, dues).notes, Ended(i)) <= Times(Tale(p, dues).notes, Began(i)) <= 1 {
      TimesErased(trace, i);
      StreamCountsOf(p, trace, i);
    }
  }

  lemma StreamInOrder(p: Params, trace: seq<Emitted>)
    requires Valid(p) && Delivers(p, trace)
    ensures NodesStarted(trace) <= ReadyAfter(p.g, NodesFinished(trace))
  {
  }

  lemma StreamCountsOf(p: Params, trace: seq<Emitted>, i: nat)
    requires Valid(p) && Delivers(p, trace)
    ensures FinishCount(trace, i) <= StartCount(trace, i) <= 1
  {
  }
}
