/** The two generators agree: the untimed runs are exactly the timed runs with timestamps and
    progress reports erased. */
module SimErase {
  import opened DepGraph
  import opened SimTrace
  import opened SimCore
  import opened SimSteps
  import opened SimRun
  import opened SimComplete
  import opened SimUntimed
  import opened SimGen

  function EraseOne(e: Emitted): seq<Note> {
    match e
    case Started(_, i) => [Began(i)]
    case Progress(_, _, _, _) => []
    case LogLine(_, i) => [Line(i)]
    case Finished(_, i) => [Ended(i)]
  }

  function Erase(trace: seq<Emitted>): seq<Note> {
    if trace == [] then [] else Erase(trace[..|trace| - 1]) + EraseOne(trace[|trace| - 1])
  }

  /** The finish events among the popped ones. */
  function Finishes(choices: seq<Ev>): seq<Due> {
    if choices == [] then []
    else
      var e := choices[|choices| - 1];
      Finishes(choices[..|choices| - 1]) + if e.finish then [Due(e.time, e.node)] else []
  }

  lemma {:induction false} EraseAppend(a: seq<Emitted>, b: seq<Emitted>)
    ensures Erase(a + b) == Erase(a) + Erase(b)
  {
    if b == [] {
      assert a + b == a;
    } else {
      var init, last := b[..|b| - 1], b[|b| - 1];
      EraseAppend(a, init);
      assert (a + b)[..|a + b| - 1] == a + init && (a + b)[|a + b| - 1] == last;
      hide EraseOne;
      assert Erase(a) + (Erase(init) + EraseOne(last)) == Erase(a) + Erase(init) + EraseOne(last);
    }
  }

  lemma EraseSingle(e: Emitted)
    ensures Erase([e]) == EraseOne(e)
  {
    assert [e][..0] == [];
  }

  lemma {:induction false} EraseStarts(t: nat, nodes: seq<nat>)
    ensures Erase(Starts(t, nodes)) == Begans(nodes)
  {
    if nodes == [] {
    } else {
      EraseStarts(t, nodes[1..]);
      EraseSingle(Started(t, nodes[0]));
      EraseAppend([Started(t, nodes[0])], Starts(t, nodes[1..]));
    }
  }

  lemma {:induction false} EraseLogs(t: nat, i: nat, n: nat)
    ensures Erase(Logs(t, i, n)) == Lines(i, n)
  {
    if n == 0 {
    } else {
      EraseLogs(t, i, n - 1);
      EraseSingle(LogLine(t, i));
      EraseAppend(Logs(t, i, n - 1), [LogLine(t, i)]);
    }
  }

  lemma EraseFinale(p: Params, t: nat, i: nat)
    requires i < |p.dur|
    ensures Erase(Finale(p, t, i)) == Lines(i, p.lines) + [Ended(i)]
  {
    hide Erase, Logs, Lines;
    var logs, end := Logs(t, i, p.lines), [Finished(t, i)];
    EraseLogs(t, i, p.lines);
    EraseSingle(Finished(t, i));
    if p.emitProgress {
      var report := Progress(t, i, p.dur[i], p.dur[i]);
      EraseSingle(report);
      EraseAppend([report], logs);
      EraseAppend([report] + logs, end);
      assert [] + Lines(i, p.lines) == Lines(i, p.lines);
    } else {
      EraseAppend(logs, end);
      assert [] + logs + end == logs + end;
    }
  }

  /* ---- the states correspond ---- */

  /** Everything agrees but the clock, and the finish events are the completions. */
  ghost predicate Matches(c: Core, u: Plain) {
    && c.st == u.st && c.pending == u.pending && c.ready == u.ready && c.builds == u.builds && c.subs == u.subs
    && forall t: nat, i: nat :: u.timeline[Due(t, i)] == c.timeline[Ev(t, i, true)]
  }

  lemma LaunchMatches(p: Params, c: Core, u: Plain)
    requires Valid(p) && Sized(p, c) && Fits(p, u) && Matches(c, u) && c.now == u.now && c.ready != []
    ensures Matches(Launch(p, c), Take(p, u)) && Launch(p, c).now == Take(p, u).now
  {
  }

  lemma {:induction false} StartWorkMatches(p: Params, c: Core, u: Plain)
    requires Valid(p) && Sized(p, c) && Fits(p, u) && Matches(c, u) && c.now == u.now
    ensures Matches(StartWork(p, c).0, TakeAll(p, u).0) && StartWork(p, c).1 == TakeAll(p, u).1
    decreases |c.ready|
  {
    if Blocked(p, c) {
    } else {
      LaunchMatches(p, c, u);
      StartWorkMatches(p, Launch(p, c), Take(p, u));
    }
  }

  lemma {:induction false} WakeMatches(p: Params, c: Core, u: Plain, rest: seq<nat>)
    requires Sized(p, c) && Fits(p, u) && Matches(c, u) && c.now == u.now
    requires forall k | 0 <= k < |rest| :: rest[k] < Size(p)
    ensures Matches(Wake(c, rest), TellAll(p, u, rest)) && Wake(c, rest).now == TellAll(p, u, rest).now
    decreases |rest|
  {
    if rest != [] && c.pending[rest[0]] > 0 {
      WakeMatches(p, WakeOne(c, rest[0]), Tell(u, rest[0]), rest[1..]);
    }
  }

  lemma RetireMatches(p: Params, c: Core, u: Plain, e: Ev)
    requires Valid(p) && Sized(p, c) && Fits(p, u) && Matches(c, u)
    requires Eligible(p, c, e) && e.finish && IsNext(p, u, Due(e.time, e.node))
    ensures Matches(Retire(p, c, e), Settle(p, u, Due(e.time, e.node)))
  {
  }

  lemma FinishIsNext(p: Params, c: Core, u: Plain, e: Ev)
    requires Valid(p) && Sized(p, c) && Fits(p, u) && Matches(c, u) && Eligible(p, c, e) && e.finish
    ensures IsNext(p, u, Due(e.time, e.node))
  {
    var d := Due(e.time, e.node);
    assert u.timeline[d] == c.timeline[e];
    forall x | x in u.timeline ensures d.time <= x.time {
      assert u.timeline[x] == c.timeline[Ev(x.time, x.node, true)];
    }
  }

  function Freed(p: Params, u: Plain, d: Due): (r: Plain)
    requires Valid(p) && Fits(p, u) && IsNext(p, u, d)
    ensures Fits(p, r)
  {
    OutputsInRange(p, d.node);
    TellAll(p, Settle(p, u, d), p.g.outputs[d.node])
  }

  lemma WokenMatches(p: Params, c: Core, u: Plain, e: Ev)
    requires Valid(p) && Sized(p, c) && Fits(p, u) && Matches(c, u) && Eligible(p, c, e) && e.finish
    requires IsNext(p, u, Due(e.time, e.node))
    ensures Matches(Woken(p, c, e), Freed(p, u, Due(e.time, e.node)))
    ensures Freed(p, u, Due(e.time, e.node)).now == e.time
  {
    RetireMatches(p, c, u, e);
    OutputsInRange(p, e.node);
    hide Matches, IsTop, IsNext, Valid;
    WakeMatches(p, Retire(p, c, e), Settle(p, u, Due(e.time, e.node)), p.g.outputs[e.node]);
  }

  lemma FinishNotes(p: Params, trace: seq<Emitted>, notes: seq<Note>, t: nat, i: nat, started: seq<nat>)
    requires i < |p.dur| && notes == Erase(trace)
    ensures notes + Lines(i, p.lines) + [Ended(i)] + Begans(started)
         == Erase(trace + Finale(p, t, i) + Starts(t, started))
  {
    hide *;
    EraseStarts(t, started);
    EraseFinale(p, t, i);
    EraseAppend(trace, Finale(p, t, i));
    EraseAppend(trace + Finale(p, t, i), Starts(t, started));
    assert notes + (Lines(i, p.lines) + [Ended(i)]) == notes + Lines(i, p.lines) + [Ended(i)];
  }

  lemma FinishMatches(p: Params, o: Outcome, w: Told, e: Ev)
    requires Valid(p) && Sized(p, o.core) && Fits(p, w.plain) && Matches(o.core, w.plain)
    requires Eligible(p, o.core, e) && e.finish && w.notes == Erase(o.trace)
    ensures IsNext(p, w.plain, Due(e.time, e.node))
    ensures Matches(Step(p, o, e).core, PlainStep(p, w, Due(e.time, e.node)).plain)
    ensures PlainStep(p, w, Due(e.time, e.node)).notes == Erase(Step(p, o, e).trace)
  {
    var d := Due(e.time, e.node);
    FinishIsNext(p, o.core, w.plain, e);
    var u := Freed(p, w.plain, d);
    assert PlainStep(p, w, d)
        == Told(TakeAll(p, u).0, w.notes + Lines(d.node, p.lines) + [Ended(d.node)] + Begans(TakeAll(p, u).1));
    var c := Woken(p, o.core, e);
    assert Step(p, o, e)
        == Outcome(StartWork(p, c).0, o.trace + Finale(p, e.time, e.node) + Starts(e.time, StartWork(p, c).1));
    hide *;
    WokenMatches(p, o.core, w.plain, e);
    StartWorkMatches(p, c, u);
    FinishNotes(p, o.trace, w.notes, e.time, e.node, StartWork(p, c).1);
  }

  lemma TickKeepsMatch(p: Params, c: Core, u: Plain, e: Ev)
    requires Valid(p) && Sized(p, c) && Matches(c, u) && e.node < Size(p) && !e.finish
    ensures Matches(Tick(p, c, e), u)
  {
    hide Wired;
  }

  lemma TickMatches(p: Params, o: Outcome, w: Told, e: Ev)
    requires Valid(p) && Sized(p, o.core) && Fits(p, w.plain) && Matches(o.core, w.plain)
    requires Eligible(p, o.core, e) && !e.finish && w.notes == Erase(o.trace)
    ensures Matches(Step(p, o, e).core, w.plain)
    ensures w.notes == Erase(Step(p, o, e).trace)
  {
    hide Erase, Wired, IsTop, Matches, Fits;
    TickKeepsMatch(p, o.core, w.plain, e);
    if o.core.st[e.node].Running? {
      EraseSingle(Report(p, o.core, e));
      EraseAppend(o.trace, [Report(p, o.core, e)]);
    } else {
      assert o.trace + [] == o.trace;
    }
  }

  lemma BeginMatches(p: Params)
    requires Valid(p)
    ensures Matches(Begin(p).core, Open(p).plain) && Open(p).notes == Erase(Begin(p).trace)
  {
    StartWorkMatches(p, Seeded(p), Fresh(p));
    EraseStarts(0, StartWork(p, Seeded(p)).1);
  }

  ghost predicate Agrees(p: Params, choices: seq<Ev>, dues: seq<Due>)
    requires Valid(p)
  {
    && IsRun(p, choices) && IsPlainRun(p, dues) && dues == Finishes(choices)
    && Matches(Exec(p, choices).core, Tale(p, dues).plain)
    && Tale(p, dues).notes == Erase(Exec(p, choices).trace)
  }

  lemma AgreesStep(p: Params, choices: seq<Ev>, dues: seq<Due>, e: Ev)
    requires Valid(p) && Agrees(p, choices, dues) && Eligible(p, Exec(p, choices).core, e)
    ensures Agrees(p, choices + [e], if e.finish then dues + [Due(e.time, e.node)] else dues)
  {
    var more := choices + [e];
    assert more[..|more| - 1] == choices;
    var o, w := Exec(p, choices), Tale(p, dues);
    assert IsRun(p, more) && Exec(p, more) == Step(p, o, e);
    if e.finish {
      FinishMatches(p, o, w, e);
      var d := Due(e.time, e.node);
      assert (dues + [d])[..|dues + [d]| - 1] == dues;
      hide Matches, Step, PlainStep, Erase, IsNext, Eligible;
      assert Tale(p, dues + [d]) == PlainStep(p, w, d);
    } else {
      TickMatches(p, o, w, e);
      assert Finishes(more) == Finishes(choices) + [];
    }
  }

  lemma EmptyMatches(c: Core, u: Plain)
    requires Matches(c, u) && c.timeline == multiset{}
    ensures u.timeline == multiset{}
  {
    forall d: Due ensures d !in u.timeline {
      assert u.timeline[d] == c.timeline[Ev(d.time, d.node, true)];
    }
  }

  lemma {:induction false} ErasedAgrees(p: Params, choices: seq<Ev>)
    requires Valid(p) && IsRun(p, choices)
    ensures Agrees(p, choices, Finishes(choices))
    decreases |choices|
  {
    if choices == [] {
      BeginMatches(p);
    } else {
      var init, e := choices[..|choices| - 1], choices[|choices| - 1];
      assert init + [e] == choices;
      assert Finishes(choices) == Finishes(init) + if e.finish then [Due(e.time, e.node)] else [];
      assert IsRun(p, init) && Eligible(p, Exec(p, init).core, e);
      hide *;
      ErasedAgrees(p, init);
      AgreesStep(p, init, Finishes(init), e);
    }
  }

  /** Erasing a timed run gives an untimed run, ending when it ends. */
  lemma ErasedRunIsRun(p: Params, choices: seq<Ev>)
    requires Valid(p) && IsRun(p, choices)
    ensures IsPlainRun(p, Finishes(choices))
    ensures Tale(p, Finishes(choices)).notes == Erase(Exec(p, choices).trace)
    ensures Over(p, choices) ==> Tale(p, Finishes(choices)).plain.timeline == multiset{}
  {
    ErasedAgrees(p, choices);
    if Over(p, choices) {
      EmptyMatches(Exec(p, choices).core, Tale(p, Finishes(choices)).plain);
    }
  }

  /* ---- and every untimed run arises this way ---- */

  /** What tops the timeline is either the completion `d` itself, or one equally due, or an earlier report. */
  lemma DueOrReport(p: Params, o: Outcome, u: Plain, ticks: map<nat, nat>, d: Due, top: Ev)
    requires Between(p, o, ticks) && Matches(o.core, u) && IsNext(p, u, d) && IsTop(o.core.timeline, top)
    ensures top.finish ==> Eligible(p, o.core, Ev(d.time, d.node, true))
    ensures !top.finish ==> Eligible(p, o.core, top)
  {
    var e := Ev(d.time, d.node, true);
    assert u.timeline[d] == o.core.timeline[e];
    if top.finish {
      assert u.timeline[Due(top.time, top.node)] == o.core.timeline[top];
      assert Due(top.time, top.node) in u.timeline;
      assert IsTop(o.core.timeline, e);
      hide Between, IsTop;
      TopEligible(p, o, ticks, e);
    } else {
      hide Between, IsTop;
      TopEligible(p, o, ticks, top);
    }
  }

  lemma TickExtends(p: Params, choices: seq<Ev>, top: Ev)
    requires Valid(p) && IsRun(p, choices) && Eligible(p, Exec(p, choices).core, top) && !top.finish
    ensures IsRun(p, choices + [top])
    ensures Summary(Exec(p, choices + [top]).trace).finish == Summary(Exec(p, choices).trace).finish
    ensures ReportsLeft(p, Summary(Exec(p, choices + [top]).trace), TicksOf(p, choices + [top]))
          < ReportsLeft(p, Summary(Exec(p, choices).trace), TicksOf(p, choices))
  {
    var more, o, ticks := choices + [top], Exec(p, choices), TicksOf(p, choices);
    assert more[..|more| - 1] == choices;
    assert IsRun(p, more) && Exec(p, more) == Step(p, o, top);
    assert TicksOf(p, more) == TicksAfterTick(p, o.core, ticks, top);
    RunInvariant(p, choices);
    hide *;
    TickStepOk(p, o, ticks, top);
    TickDecreases(p, o, ticks, top);
  }

  /** Pending progress reports that come before the completion `d` can be popped out of its way. */
  lemma {:induction false} DrainTicks(p: Params, choices: seq<Ev>, dues: seq<Due>, d: Due) returns (drained: seq<Ev>)
    requires Valid(p) && Agrees(p, choices, dues) && IsNext(p, Tale(p, dues).plain, d)
    ensures Agrees(p, drained, dues) && Eligible(p, Exec(p, drained).core, Ev(d.time, d.node, true))
    ensures Summary(Exec(p, drained).trace).finish == Summary(Exec(p, choices).trace).finish
    decreases ReportsLeft(p, Summary(Exec(p, choices).trace), TicksOf(p, choices))
  {
    var o, u, ticks := Exec(p, choices), Tale(p, dues).plain, TicksOf(p, choices);
    RunInvariant(p, choices);
    assert u.timeline[d] == o.core.timeline[Ev(d.time, d.node, true)];
    assert Matches(o.core, u);
    TopExists(o.core.timeline);
    var top :| IsTop(o.core.timeline, top);
    DueOrReport(p, o, u, ticks, d, top);
    hide *;
    if top.finish {
      drained := choices;
    } else {
      AgreesStep(p, choices, dues, top);
      TickExtends(p, choices, top);
      drained := DrainTicks(p, choices + [top], dues, d);
    }
  }

  lemma {:induction false} PlainAgrees(p: Params, dues: seq<Due>) returns (choices: seq<Ev>)
    requires Valid(p) && IsPlainRun(p, dues)
    ensures Agrees(p, choices, dues)
    decreases |dues|
  {
    if dues == [] {
      BeginMatches(p);
      choices := [];
    } else {
      var init, d := dues[..|dues| - 1], dues[|dues| - 1];
      assert init + [d] == dues;
      assert IsPlainRun(p, init) && IsNext(p, Tale(p, init).plain, d);
      hide *;
      var short := PlainAgrees(p, init);
      var drained := DrainTicks(p, short, init, d);
      var e := Ev(d.time, d.node, true);
      AgreesStep(p, drained, init, e);
      choices := drained + [e];
    }
  }

  /** Every untimed run is the erasure of some timed run. */
  lemma EveryRunIsErased(p: Params, dues: seq<Due>) returns (choices: seq<Ev>)
    requires Valid(p) && IsPlainRun(p, dues)
    ensures IsRun(p, choices) && dues == Finishes(choices)
    ensures Tale(p, dues).notes == Erase(Exec(p, choices).trace)
  {
    choices := PlainAgrees(p, dues);
  }
}
