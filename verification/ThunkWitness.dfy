/** A run in which a value is finished twice, first by a thread that is not evaluating it. */
module ThunkWitness {
  import opened ThunkProtocol
  import opened ThunkRuns

  /** One value, two threads; `held` says that thread 1 holds the lock. Thread 0 evaluates the value once
      `tag` is busy. */
  function Two(tag: Tag, first: Thread, pc: Pc, held: bool): State {
    State(map[0 := tag], [first, Thread(pc, [])], if held then map[0 := 1] else map[])
  }

  const IDLE := Thread(Running, [])
  const BUSY := Thread(Running, [0])

  /** The run goes on with one step, to the state given. */
  lemma Go(run: seq<State>, events: seq<Event>, t: Tid, a: Action, s: State)
    returns (run': seq<State>, events': seq<Event>)
    requires IsRun(run, events) && Enabled(run[|events|], t, a) && s == Step(run[|events|], t, a)
    ensures run' == run + [s] && events' == events + [Event(t, a)] && IsRun(run', events')
    ensures run'[|events'|] == s
  {
    hide Enabled, Step, Initial;
    run', events' := run + [s], events + [Event(t, a)];
  }

  /** Both threads see the thunk, and thread 0 claims it. */
  lemma Claimed() returns (run: seq<State>, events: seq<Event>)
    ensures IsRun(run, events) && run[|events|] == Two(Pending(0), BUSY, Loaded(0, Thunk), false)
  {
    run, events := [Two(Thunk, IDLE, Running, false)], [];
    run, events := Go(run, events, 1, Load(0), Two(Thunk, IDLE, Loaded(0, Thunk), false));
    run, events := Go(run, events, 0, Load(0), Two(Thunk, Thread(Loaded(0, Thunk), []), Loaded(0, Thunk), false));
    assert map[0 := Thunk][0 := Pending(0)] == map[0 := Pending(0)];
    assert IDLE.stack + [0] == [0];
    run, events := Go(run, events, 0, Claim, Two(Pending(0), BUSY, Loaded(0, Thunk), false));
  }

  /** Thread 1 loses and takes the lock. */
  lemma Lost() returns (run: seq<State>, events: seq<Event>)
    ensures IsRun(run, events) && run[|events|] == Two(Pending(0), BUSY, Locked(0, Pending(0), true), true)
  {
    run, events := Claimed();
    run, events := Go(run, events, 1, Claim, Two(Pending(0), BUSY, WantLock(0, Pending(0), true), false));
    run, events := Go(run, events, 1, Lock, Two(Pending(0), BUSY, Locked(0, Pending(0), true), true));
  }

  /** It marks the value and waits. */
  lemma Waited() returns (run: seq<State>, events: seq<Event>)
    ensures IsRun(run, events) && run[|events|] == Two(Awaited(0), BUSY, Parked(0, 0, true), false)
  {
    run, events := Lost();
    assert map[0 := Pending(0)][0 := Awaited(0)] == map[0 := Awaited(0)];
    run, events := Go(run, events, 1, MarkAwaited, Two(Awaited(0), BUSY, Waiting(0, 0, true), true));
    run, events := Go(run, events, 1, Park, Two(Awaited(0), BUSY, Parked(0, 0, true), false));
  }

  /** Woken, it sees the value still awaited. */
  lemma Rechecked() returns (run: seq<State>, events: seq<Event>)
    ensures IsRun(run, events) && run[|events|] == Two(Awaited(0), BUSY, Checking(0, 0, true), true)
  {
    run, events := Waited();
    run, events := Go(run, events, 1, Wake, Two(Awaited(0), BUSY, Woken(0, 0, true), false));
    run, events := Go(run, events, 1, Relock, Two(Awaited(0), BUSY, Rechecking(0, 0, true), true));
    run, events := Go(run, events, 1, Recheck, Two(Awaited(0), BUSY, Checking(0, 0, true), true));
  }

  /** It is interrupted and writes a failure: the value is finished while thread 0 is evaluating it. */
  lemma Failed() returns (run: seq<State>, events: seq<Event>)
    ensures IsRun(run, events) && run[|events|] == Two(Finished(false), BUSY, MustNotify(0), false)
    ensures events != [] && events[|events| - 1].a.Fail?
  {
    run, events := Rechecked();
    run, events := Go(run, events, 1, Interrupt, Two(Awaited(0), BUSY, Failing(0), false));
    assert map[0 := Awaited(0)][0 := Finished(false)] == map[0 := Finished(false)];
    run, events := Go(run, events, 1, Fail, Two(Finished(false), BUSY, MustNotify(0), false));
  }

  /** Then thread 0 writes its result: the failure has become a result. */
  lemma FinishedTwice() returns (run: seq<State>, events: seq<Event>)
    ensures IsRun(run, events) && |events| > 1 && !FinishedOnce(run, events)
    ensures run[|events| - 1] == Two(Finished(false), BUSY, MustNotify(0), false)
    ensures run[|events|] == Two(Finished(true), IDLE, MustNotify(0), false)
  {
    run, events := Failed();
    ghost var n := |events|;
    assert map[0 := Finished(false)][0 := Finished(true)] == map[0 := Finished(true)];
    assert BUSY.stack[..0] == [];
    run, events := Go(run, events, 0, Finish(true), Two(Finished(true), IDLE, MustNotify(0), false));
    assert events[n - 1].a.Fail?;
    UnfailedIffFinishedOnce(run, events);
  }
}
