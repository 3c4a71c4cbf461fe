/** What the protocol guarantees over whole runs. */
module ThunkRuns {
  import opened ThunkProtocol

  datatype Event = Event(t: Tid, a: Action)

  predicate IsPath(run: seq<State>, events: seq<Event>) {
    && |run| == |events| + 1
    && forall i | 0 <= i < |events| ::
         Enabled(run[i], events[i].t, events[i].a) && run[i + 1] == Step(run[i], events[i].t, events[i].a)
  }

  predicate IsRun(run: seq<State>, events: seq<Event>) {
    IsPath(run, events) && Initial(run[0])
  }

  lemma {:induction false} RunInv(run: seq<State>, events: seq<Event>, i: nat)
    requires IsRun(run, events) && i < |run|
    ensures Inv(run[i])
  {
    if i == 0 {
      InitialOk(run[0]);
    } else {
      RunInv(run, events, i - 1);
      StepKeepsInv(run[i - 1], events[i - 1].t, events[i - 1].a);
    }
  }

  /** The three assertions of `waitOnThunk` and the unreachable branch of `finish`: no thread
      of any run ever gets there. */
  lemma AssertionsHold(run: seq<State>, events: seq<Event>, i: nat, t: Tid)
    requires IsRun(run, events) && i < |run| && t < |run[i].threads|
    ensures !run[i].threads[t].pc.Broken?
  {
    RunInv(run, events, i);
    assert PcOk(run[i], t);
  }

  /* ---- runs in which no failure is written by a thread that lost its claim ---- */

  predicate Waits(pc: Pc) { pc.Waiting? || pc.Checking? || pc.Parked? }

  /** What a thread evaluates is unfinished, and what it waits for is notified by its evaluator. */
  predicate CleanAt(s: State, t: Tid)
    requires t < |s.threads|
  {
    var pc, stack := s.threads[t].pc, s.threads[t].stack;
    && (forall k | 0 <= k < |stack| :: stack[k] in s.vals && Busy(s.vals[stack[k]]))
    && (Waits(pc) && pc.v in s.vals && s.vals[pc.v].Finished? ==>
          pc.owner < |s.threads| && IsNotifier(s.threads[pc.owner].pc, pc.v))
  }

  predicate Clean(s: State) {
    forall t | 0 <= t < |s.threads| :: CleanAt(s, t)
  }

  lemma CleanStack(s: State, t: Tid, a: Action, u: Tid)
    requires Inv(s) && Clean(s) && Enabled(s, t, a) && !a.Fail? && u < |s.threads|
    ensures u < |Step(s, t, a).threads|
    ensures forall v | v in Step(s, t, a).threads[u].stack :: v in Step(s, t, a).vals && Busy(Step(s, t, a).vals[v])
  {
    hide PcOk, LockOk, OwnerOk, IsNotifier;
    assert CleanAt(s, u) && StackOk(s, u) && StackOk(s, t) && Apart(s, u, t);
    if u != t {
      OtherStays(s, t, a, u);
    }
  }

  /** A value is finished by its evaluator, who is then the one to notify. */
  lemma CleanFinish(s: State, t: Tid, a: Action, v: Addr)
    requires Inv(s) && Clean(s) && Enabled(s, t, a) && !a.Fail? && v in s.vals
    ensures var s' := Step(s, t, a);
      && v in s'.vals && (s.vals[v].Finished? ==> s'.vals[v] == s.vals[v])
      && (s.vals[v].Awaited? && s'.vals[v].Finished? ==>
            s.vals[v].owner == t && t < |s'.threads| && IsNotifier(s'.threads[t].pc, v))
  {
    hide PcOk, LockOk, OwnerOk, Apart;
    assert CleanAt(s, t) && StackOk(s, t);
  }

  lemma CleanWait(s: State, t: Tid, a: Action, u: Tid)
    requires Inv(s) && Clean(s) && Enabled(s, t, a) && !a.Fail? && u < |s.threads| && Waits(s.threads[u].pc)
    requires u < |Step(s, t, a).threads| && Waits(Step(s, t, a).threads[u].pc)
    requires Step(s, t, a).threads[u].pc.v == s.threads[u].pc.v
    requires Step(s, t, a).threads[u].pc.owner == s.threads[u].pc.owner
    ensures var s', v, o := Step(s, t, a), s.threads[u].pc.v, s.threads[u].pc.owner;
      v in s'.vals && s'.vals[v].Finished? ==> o < |s'.threads| && IsNotifier(s'.threads[o].pc, v)
  {
    hide Step, Enabled, StackOk, OwnerOk, LockOk, Apart, Notified;
    var v, o := s.threads[u].pc.v, s.threads[u].pc.owner;
    assert PcOk(s, u) && CleanAt(s, u);
    CleanFinish(s, t, a, v);
    if s.vals[v].Finished? {
      if o != t {
        OtherStays(s, t, a, o);
      } else {
        NotifierWithWaiter(s, t, a, u);
      }
    }
  }

  /** While `u` still waits for `v`, its notifier has not notified. */
  lemma NotifierWithWaiter(s: State, t: Tid, a: Action, u: Tid)
    requires Inv(s) && Enabled(s, t, a) && u < |s.threads| && Waits(s.threads[u].pc)
    requires IsNotifier(s.threads[t].pc, s.threads[u].pc.v)
    requires u < |Step(s, t, a).threads| && Waits(Step(s, t, a).threads[u].pc)
    ensures t < |Step(s, t, a).threads| && IsNotifier(Step(s, t, a).threads[t].pc, s.threads[u].pc.v)
  {
    hide StackOk, OwnerOk, LockOk, Apart, Attended, Advanced;
    assert PcOk(s, u) && PcOk(s, t);
    NotifierStep(s, t, a, s.threads[u].pc.v);
  }

  /** A thread starts to wait for what it has just seen awaited. */
  lemma WaitBegins(s: State, t: Tid, a: Action, u: Tid)
    requires Inv(s) && Enabled(s, t, a) && u < |s.threads| && u < |Step(s, t, a).threads|
    requires Waits(Step(s, t, a).threads[u].pc)
    ensures var pc, s' := Step(s, t, a).threads[u].pc, Step(s, t, a);
      || (Waits(s.threads[u].pc) && s.threads[u].pc.v == pc.v && s.threads[u].pc.owner == pc.owner)
      || (pc.v in s'.vals && s'.vals[pc.v].Awaited?)
  {
    hide StackOk, OwnerOk, LockOk, Apart;
    if u != t {
      OtherStays(s, t, a, u);
    }
  }

  lemma CleanKeeps(s: State, t: Tid, a: Action)
    requires Inv(s) && Clean(s) && Enabled(s, t, a) && !a.Fail?
    ensures Clean(Step(s, t, a))
  {
    var s' := Step(s, t, a);
    assert |s'.threads| == |s.threads|;
    hide Step, Enabled, PcOk, StackOk, OwnerOk, LockOk, Apart;
    forall u | 0 <= u < |s'.threads| ensures CleanAt(s', u) {
      CleanStack(s, t, a, u);
      if Waits(s'.threads[u].pc) {
        WaitBegins(s, t, a, u);
        if Waits(s.threads[u].pc) && s.threads[u].pc.v == s'.threads[u].pc.v
           && s.threads[u].pc.owner == s'.threads[u].pc.owner {
          CleanWait(s, t, a, u);
        }
      }
    }
  }

  /** No thread that lost a claim has written a failure in the first `i` steps. */
  predicate Unfailed(events: seq<Event>, i: nat)
    requires i <= |events|
  {
    forall k | 0 <= k < i :: !events[k].a.Fail?
  }

  lemma {:induction false} RunClean(run: seq<State>, events: seq<Event>, i: nat)
    requires IsRun(run, events) && i < |run| && Unfailed(events, i)
    ensures Clean(run[i])
  {
    if i == 0 {
    } else {
      RunClean(run, events, i - 1);
      RunInv(run, events, i - 1);
      CleanKeeps(run[i - 1], events[i - 1].t, events[i - 1].a);
    }
  }

  /* ---- waiting and recursion ---- */

  /** A parked thread's value is still awaited, or somebody else has finished it and has yet to notify: its
      evaluator, unless a thread that lost its claim has written a failure. */
  lemma NoLostWakeup(run: seq<State>, events: seq<Event>, i: nat, t: Tid)
    requires IsRun(run, events) && i < |run| && t < |run[i].threads| && run[i].threads[t].pc.Parked?
    ensures var pc, s := run[i].threads[t].pc, run[i];
      && pc.v in s.vals && pc.owner != t
      && ((s.vals[pc.v] == Awaited(pc.owner) && pc.owner < |s.threads|) ||
          (s.vals[pc.v].Finished? && exists u :: 0 <= u < |s.threads| && u != t && IsNotifier(s.threads[u].pc, pc.v)))
      && (Unfailed(events, i) && s.vals[pc.v].Finished? ==>
            pc.owner < |s.threads| && IsNotifier(s.threads[pc.owner].pc, pc.v))
  {
    RunInv(run, events, i);
    var s := run[i];
    assert PcOk(s, t);
    assert OwnerOk(s, s.threads[t].pc.v);
    if s.vals[s.threads[t].pc.v].Finished? {
      var u :| 0 <= u < |s.threads| && IsNotifier(s.threads[u].pc, s.threads[t].pc.v);
      assert u != t;
    }
    if Unfailed(events, i) {
      RunClean(run, events, i);
      assert CleanAt(s, t);
    }
  }

  /** The infinite-recursion error is raised only by the thread that is evaluating the value, which is still
      marked as its own unless a thread that lost its claim has written a failure. */
  lemma RecursionIsOwn(run: seq<State>, events: seq<Event>, i: nat, t: Tid)
    requires IsRun(run, events) && i < |run| && t < |run[i].threads| && run[i].threads[t].pc.Recursion?
    ensures var v := run[i].threads[t].pc.v;
      && v in run[i].threads[t].stack && v in run[i].vals
      && (run[i].vals[v].Finished? || (Busy(run[i].vals[v]) && run[i].vals[v].owner == t))
      && (Unfailed(events, i) ==> Busy(run[i].vals[v]))
  {
    RunInv(run, events, i);
    assert PcOk(run[i], t) && StackOk(run[i], t);
    if Unfailed(events, i) {
      RunClean(run, events, i);
      assert CleanAt(run[i], t);
    }
  }

  /** Conversely a thread that runs into its own value never waits for it. */
  lemma NeverWaitsForItself(run: seq<State>, events: seq<Event>, i: nat, t: Tid)
    requires IsRun(run, events) && i < |run| && t < |run[i].threads|
    requires run[i].threads[t].pc.Parked?
    ensures run[i].threads[t].pc.v !in run[i].threads[t].stack
  {
    RunInv(run, events, i);
    assert PcOk(run[i], t);
  }

  /** One value, one evaluation: the stacks of different threads are disjoint. */
  lemma OneEvaluator(run: seq<State>, events: seq<Event>, i: nat, t: Tid, u: Tid, v: Addr)
    requires IsRun(run, events) && i < |run| && t < |run[i].threads| && u < |run[i].threads|
    requires v in run[i].threads[t].stack && v in run[i].threads[u].stack
    ensures t == u
  {
    RunInv(run, events, i);
    assert Apart(run[i], t, u);
  }

  /* ---- values ---- */

  /** Values only move from thunk through pending and awaited to finished, under one owner:
      a finished value is never a thunk or pending again. */
  lemma {:induction false} ValuesAdvance(run: seq<State>, events: seq<Event>, i: nat, j: nat, v: Addr)
    requires IsRun(run, events) && i <= j < |run| && v in run[i].vals
    ensures v in run[j].vals && Advanced(run[i].vals[v], run[j].vals[v])
    decreases j
  {
    if i == j {
    } else {
      ValuesAdvance(run, events, i, j - 1, v);
      RunInv(run, events, j - 1);
      hide Inv, Enabled, Step;
      ValueAdvances(run[j - 1], events[j - 1].t, events[j - 1].a, v);
    }
  }

  /** A finished value keeps its result, or its failure, as long as no thread that lost its claim has
      written a failure. */
  lemma {:induction false} ResultsStay(run: seq<State>, events: seq<Event>, i: nat, j: nat, v: Addr)
    requires IsRun(run, events) && i <= j < |run| && Unfailed(events, j)
    requires v in run[i].vals && run[i].vals[v].Finished?
    ensures v in run[j].vals && run[j].vals[v] == run[i].vals[v]
    decreases j
  {
    if i == j {
    } else {
      ResultsStay(run, events, i, j - 1, v);
      RunInv(run, events, j - 1);
      RunClean(run, events, j - 1);
      hide Inv, Clean, Enabled, Step;
      CleanFinish(run[j - 1], events[j - 1].t, events[j - 1].a, v);
    }
  }

  /** A notification wakes exactly the threads parked on a value of the same domain, and values share a domain
      exactly if their addresses, in units of 32, differ by a multiple of 128. */
  lemma NotifyReaches(s: State, t: Tid, u: Tid)
    requires Enabled(s, t, NotifyAll) && u < |s.threads| && u != t
    ensures u < |Step(s, t, NotifyAll).threads|
    ensures var pc, pc' := s.threads[u].pc, Step(s, t, NotifyAll).threads[u].pc;
      pc' == if pc.Parked? && (pc.v / 32 - s.threads[t].pc.v / 32) % 128 == 0
             then Woken(pc.v, pc.owner, pc.lost) else pc
  {
    if s.threads[u].pc.Parked? {
      SameDomain(s.threads[u].pc.v, s.threads[t].pc.v);
    }
  }

  lemma SameDomain(v: Addr, w: Addr)
    ensures Domain(v) == Domain(w) <==> (v / 32 - w / 32) % 128 == 0
  {
  }

  /** Unless it is interrupted or raises an error, a thread that does not evaluate a value itself leaves `force`
      only when the value is finished. */
  lemma ForceReturnsFinished(s: State, t: Tid, a: Action)
    requires Inv(s) && Enabled(s, t, a) && !s.threads[t].pc.Running?
    requires !a.Interrupt? && !a.Unwind? && !a.Fail?
    requires Step(s, t, a).threads[t].pc.Running? && Step(s, t, a).threads[t].stack == s.threads[t].stack
    ensures s.threads[t].pc.v in s.vals && s.vals[s.threads[t].pc.v].Finished?
  {
    hide StackOk, OwnerOk, LockOk, Apart, Attended;
    assert PcOk(s, t);
  }

  /* ---- who finishes a value, and how often ---- */

  /** The step exchanges the tag of `v` for a finished one. */
  predicate Writes(s: State, e: Event, v: Addr) {
    e.t < |s.threads| &&
    var th := s.threads[e.t];
    || (e.a.Finish? && th.stack != [] && th.stack[|th.stack| - 1] == v)
    || (e.a.Fail? && th.pc.Failing? && th.pc.v == v)
  }

  /** Every value is finished at most once, and only by the thread evaluating it. */
  ghost predicate FinishedOnce(run: seq<State>, events: seq<Event>)
    requires IsRun(run, events)
  {
    && (forall i, v | 0 <= i < |events| && Writes(run[i], events[i], v) :: v in run[i].threads[events[i].t].stack)
    && (forall i, j, v | 0 <= i < j < |events| && Writes(run[i], events[i], v) :: !Writes(run[j], events[j], v))
  }

  /** What a write leaves: the outcome of the evaluation, or the failure of the handler. */
  lemma WriteOutcome(s: State, e: Event, v: Addr)
    requires Enabled(s, e.t, e.a) && Writes(s, e, v)
    ensures v in Step(s, e.t, e.a).vals
    ensures e.a == Finish(true) ==> Step(s, e.t, e.a).vals[v] == Finished(true)
    ensures e.a == Finish(false) || e.a == Fail ==> Step(s, e.t, e.a).vals[v] == Finished(false)
  {
  }

  /** Nothing else changes whether a value is finished, or how. */
  lemma NoWriteNoChange(s: State, e: Event, v: Addr)
    requires Enabled(s, e.t, e.a) && !Writes(s, e, v) && v in s.vals && v in Step(s, e.t, e.a).vals
    requires s.threads[e.t].pc.Loaded? && s.threads[e.t].pc.v == v ==> Advanced(s.threads[e.t].pc.seen, s.vals[v])
    ensures Step(s, e.t, e.a).vals[v].Finished? ==> s.vals[v] == Step(s, e.t, e.a).vals[v]
  {
  }

  /** No step from the `i`-th to the one before the `j`-th writes `v`. */
  predicate Unwritten(run: seq<State>, events: seq<Event>, i: nat, j: nat, v: Addr)
    requires IsPath(run, events) && j <= |events|
  {
    forall k | i <= k < j :: !Writes(run[k], events[k], v)
  }

  /** A finished value holds what the last write to it before left: the result or failure of an evaluation, or
      the failure of a handler. Unless a handler has run, that was its evaluator's own evaluation. */
  lemma {:induction false} FinishedBy(run: seq<State>, events: seq<Event>, j: nat, v: Addr) returns (i: nat)
    requires IsRun(run, events) && j < |run| && v in run[0].vals && !run[0].vals[v].Finished?
    requires v in run[j].vals && run[j].vals[v].Finished?
    ensures i < j && Writes(run[i], events[i], v) && Unwritten(run, events, i + 1, j, v)
    ensures events[i].a == Finish(run[j].vals[v].ok) || (events[i].a.Fail? && !run[j].vals[v].ok)
    ensures Unfailed(events, j) ==>
      events[i].a == Finish(run[j].vals[v].ok) && v in run[i].threads[events[i].t].stack
  {
    hide Inv, Enabled, Step, Writes;
    assert j > 0;
    var s, e := run[j - 1], events[j - 1];
    ValuesAdvance(run, events, 0, j - 1, v);
    if Writes(s, e, v) {
      i := j - 1;
      WriteOutcome(s, e, v);
      WriteKinds(s, e, v);
    } else {
      RunInv(run, events, j - 1);
      SeenAdvanced(s, e, v);
      NoWriteNoChange(s, e, v);
      i := FinishedBy(run, events, j - 1, v);
    }
  }

  lemma WriteKinds(s: State, e: Event, v: Addr)
    requires Enabled(s, e.t, e.a) && Writes(s, e, v)
    ensures e.a.Fail? || (e.a.Finish? && v in s.threads[e.t].stack)
  {
  }

  lemma SeenAdvanced(s: State, e: Event, v: Addr)
    requires Inv(s) && Enabled(s, e.t, e.a) && v in s.vals
    ensures e.t < |s.threads|
    ensures s.threads[e.t].pc.Loaded? && s.threads[e.t].pc.v == v ==> Advanced(s.threads[e.t].pc.seen, s.vals[v])
  {
    assert PcOk(s, e.t);
  }

  lemma WrittenOnce(run: seq<State>, events: seq<Event>, i: nat, j: nat, v: Addr)
    requires IsRun(run, events) && Unfailed(events, |events|) && i < j < |events| && Writes(run[i], events[i], v)
    ensures !Writes(run[j], events[j], v)
  {
    WriteOutcome(run[i], events[i], v);
    ValuesAdvance(run, events, i + 1, j, v);
    assert Unfailed(events, j);
    RunClean(run, events, j);
    assert Enabled(run[j], events[j].t, events[j].a) && CleanAt(run[j], events[j].t);
  }

  lemma UnfailedIffFinishedOnce(run: seq<State>, events: seq<Event>)
    requires IsRun(run, events)
    ensures FinishedOnce(run, events) <==> Unfailed(events, |events|)
  {
    if Unfailed(events, |events|) {
      forall i, j, v | 0 <= i < j < |events| && Writes(run[i], events[i], v) ensures !Writes(run[j], events[j], v) {
        WrittenOnce(run, events, i, j, v);
      }
    } else {
      var k :| 0 <= k < |events| && events[k].a.Fail?;
      RunInv(run, events, k);
      assert Enabled(run[k], events[k].t, events[k].a) && PcOk(run[k], events[k].t);
      assert Writes(run[k], events[k], run[k].threads[events[k].t].pc.v);
    }
  }

  /** A thread whose claim failed is interrupted while it waits. */
  predicate LoserInterrupted(run: seq<State>, events: seq<Event>, i: nat)
    requires IsRun(run, events) && i < |events|
  {
    events[i].a.Interrupt? && run[i].threads[events[i].t].pc.lost
  }

  /** Only such an interrupt leads to the handler. */
  lemma FailingBegins(s: State, t: Tid, a: Action, u: Tid)
    requires Inv(s) && Enabled(s, t, a) && u < |Step(s, t, a).threads| && Step(s, t, a).threads[u].pc.Failing?
    ensures u < |s.threads|
    ensures s.threads[u].pc.Failing? || (u == t && a.Interrupt? && s.threads[t].pc.lost)
  {
    hide StackOk, OwnerOk, LockOk, Apart, Attended, Advanced;
    assert PcOk(s, t);
    if u != t {
      assert u < |s.threads|;
      OtherStays(s, t, a, u);
    }
  }

  lemma {:induction false} FailingSince(run: seq<State>, events: seq<Event>, j: nat, t: Tid) returns (i: nat)
    requires IsRun(run, events) && j < |run| && t < |run[j].threads| && run[j].threads[t].pc.Failing?
    ensures i < j && events[i].t == t && LoserInterrupted(run, events, i)
  {
    hide Inv, Enabled, Step;
    assert j > 0;
    var s, e := run[j - 1], events[j - 1];
    RunInv(run, events, j - 1);
    FailingBegins(s, e.t, e.a, t);
    if s.threads[t].pc.Failing? {
      i := FailingSince(run, events, j - 1, t);
    } else {
      i := j - 1;
    }
  }

  /** The next step of such a thread is to write the failure. */
  lemma {:induction false} NextFails(run: seq<State>, events: seq<Event>, i: nat, j: nat) returns (k: nat)
    requires IsRun(run, events) && i <= j < |events|
    requires events[j].t < |run[i].threads| && run[i].threads[events[j].t].pc.Failing?
    ensures k <= j && events[k].a.Fail?
    decreases j - i
  {
    var s, e := run[i], events[i];
    assert Enabled(s, e.t, e.a);
    if e.t == events[j].t {
      k := i;
    } else {
      RunInv(run, events, i);
      OtherStays(s, e.t, e.a, events[j].t);
      k := NextFails(run, events, i + 1, j);
    }
  }

  /** A value is finished once, and only by its evaluator, exactly in the runs in which no thread that lost
      a claim is interrupted while waiting and then goes on. */
  lemma FinishedOnceIff(run: seq<State>, events: seq<Event>)
    requires IsRun(run, events)
    ensures FinishedOnce(run, events) <==>
      forall i, j | 0 <= i < j < |events| && events[i].t == events[j].t :: !LoserInterrupted(run, events, i)
  {
    UnfailedIffFinishedOnce(run, events);
    if i, j :| 0 <= i < j < |events| && events[i].t == events[j].t && LoserInterrupted(run, events, i) {
      assert Enabled(run[i], events[i].t, events[i].a) && run[i + 1] == Step(run[i], events[i].t, events[i].a);
      var k := NextFails(run, events, i + 1, j);
    }
    if k :| 0 <= k < |events| && events[k].a.Fail? {
      assert Enabled(run[k], events[k].t, events[k].a);
      var i := FailingSince(run, events, k, events[k].t);
    }
  }

  /** In particular, once every handler has run: exactly if no thread that lost a claim was interrupted. */
  lemma FinishedOnceAtRest(run: seq<State>, events: seq<Event>)
    requires IsRun(run, events)
    requires forall t | 0 <= t < |run[|events|].threads| :: !run[|events|].threads[t].pc.Failing?
    ensures FinishedOnce(run, events) <==> forall i | 0 <= i < |events| :: !LoserInterrupted(run, events, i)
  {
    FinishedOnceIff(run, events);
    forall i | 0 <= i < |events| && LoserInterrupted(run, events, i)
      ensures exists j :: i < j < |events| && events[i].t == events[j].t
    {
      var j := GoesOn(run, events, i);
    }
  }

  lemma GoesOn(run: seq<State>, events: seq<Event>, i: nat) returns (j: nat)
    requires IsRun(run, events) && i < |events| && LoserInterrupted(run, events, i)
    requires forall t | 0 <= t < |run[|events|].threads| :: !run[|events|].threads[t].pc.Failing?
    ensures i < j < |events| && events[j].t == events[i].t
  {
    var t := events[i].t;
    assert Enabled(run[i], t, events[i].a) && run[i + 1] == Step(run[i], t, events[i].a);
    j := i + 1;
    while j < |events| && events[j].t != t
      invariant i < j <= |events| && t < |run[j].threads| && run[j].threads[t].pc.Failing?
    {
      assert Enabled(run[j], events[j].t, events[j].a);
      RunInv(run, events, j);
      OtherStays(run[j], events[j].t, events[j].a, t);
      j := j + 1;
    }
  }

  /* ---- locks are always released, and a parked thread whose value is done can be woken ---- */

  /** How many of its own steps a lock holder takes, at most, until it lets go. */
  function HolderRank(pc: Pc): nat {
    match pc
    case Locked(_, _, _) => 2
    case Rechecking(_, _, _) => 2
    case Checking(_, _, _) => 1
    case Waiting(_, _, _) => 1
    case Notifying(_) => 1
    case _ => 0
  }

  function HolderAction(t: Tid, pc: Pc): Action {
    match pc
    case Locked(_, seen, _) => if seen.Awaited? then CheckAwaited else MarkAwaited
    case Rechecking(_, _, _) => Recheck
    case Checking(_, _, _) => Park
    case Waiting(_, o, _) => if o == t then Recurse else Park
    case _ => NotifyAll
  }

  /** A domain lock never blocks for good: its holder can step, and each step either frees the
      lock or brings the holder closer to freeing it. */
  lemma HolderStep(s: State, d: nat)
    requires Inv(s) && d in s.locks
    ensures var t := s.locks[d];
      t < |s.threads| &&
      var a := HolderAction(t, s.threads[t].pc);
      && Enabled(s, t, a)
      && (d !in Step(s, t, a).locks ||
          (Step(s, t, a).locks == s.locks && HolderRank(Step(s, t, a).threads[t].pc) < HolderRank(s.threads[t].pc)))
  {
    assert LockOk(s, d);
    assert PcOk(s, s.locks[d]);
  }

  /** The step a thread inside `force` takes next, if it waits for nothing. */
  function NextAction(t: Tid, pc: Pc): Action {
    match pc
    case Loaded(_, seen) => if seen.Thunk? then Claim else if seen.Finished? then SeenDone else SeenBusy
    case WantLock(_, _, _) => Lock
    case Woken(_, _, _) => Relock
    case Failing(_) => Fail
    case Recursion(_) => Unwind
    case MustNotify(_) => LockNotify
    case _ => HolderAction(t, pc)
  }

  /** A thread inside `force` can always go on unless it is parked or wants a lock that is taken. */
  lemma CanGoOn(s: State, t: Tid)
    requires Inv(s) && t < |s.threads| && !s.threads[t].pc.Running? && !s.threads[t].pc.Parked?
    requires var pc := s.threads[t].pc;
      pc.WantLock? || pc.Woken? || pc.MustNotify? ==> Domain(pc.v) !in s.locks
    ensures Enabled(s, t, NextAction(t, s.threads[t].pc))
  {
    assert PcOk(s, t);
  }

  predicate OthersOnly(events: seq<Event>, t: Tid) {
    forall i | 0 <= i < |events| :: events[i].t != t
  }

  /** Where `events` lead from `s`, if they are all enabled. */
  predicate LeadsTo(s: State, events: seq<Event>, s': State)
    decreases |events|
  {
    if events == [] then s' == s
    else Enabled(s, events[0].t, events[0].a) && LeadsTo(Step(s, events[0].t, events[0].a), events[1..], s')
  }

  /** What a parked thread becomes when it is woken. */
  function WokenUp(th: Thread): Thread
    requires th.pc.Parked?
  {
    th.(pc := Woken(th.pc.v, th.pc.owner, th.pc.lost))
  }

  /** A thread parked on a finished value can always be woken by the others alone. */
  lemma {:induction false} WakeupReachable(s: State, t: Tid) returns (events: seq<Event>, s': State)
    requires Inv(s) && t < |s.threads| && s.threads[t].pc.Parked?
    requires s.threads[t].pc.v in s.vals && s.vals[s.threads[t].pc.v].Finished?
    ensures |events| <= 4 && OthersOnly(events, t) && LeadsTo(s, events, s')
    ensures t < |s'.threads| && s'.threads[t] == WokenUp(s.threads[t])
  {
    hide Enabled, Step, StackOk, OwnerOk, LockOk, Apart;
    var v := s.threads[t].pc.v;
    assert PcOk(s, t);
    var freeing, s1 := FreeLock(s, Domain(v), t);
    events, s' := freeing, s1;
    if s1.threads[t].pc.Parked? {
      assert PcOk(s1, t);
      var u :| 0 <= u < |s1.threads| && IsNotifier(s1.threads[u].pc, v);
      assert PcOk(s1, u);
      var tail, s2 := NotifyWakes(s1, t, u);
      events, s' := freeing + tail, s2;
      Append(s, freeing, s1, tail, s2);
    }
  }

  /** Whoever finished the value takes the free lock and notifies. */
  lemma NotifyWakes(s: State, t: Tid, u: Tid) returns (events: seq<Event>, s': State)
    requires t < |s.threads| && s.threads[t].pc.Parked? && Domain(s.threads[t].pc.v) !in s.locks
    requires u < |s.threads| && s.threads[u].pc == MustNotify(s.threads[t].pc.v)
    ensures |events| == 2 && OthersOnly(events, t) && LeadsTo(s, events, s')
    ensures t < |s'.threads| && s'.threads[t] == WokenUp(s.threads[t])
  {
    var s1 := Step(s, u, LockNotify);
    s' := Step(s1, u, NotifyAll);
    events := [Event(u, LockNotify), Event(u, NotifyAll)];
    hide Enabled, Step;
    assert LeadsTo(s1, events[1..], s');
  }

  /** Let the holder of `d`, if any, run until the lock is free; `t` is parked meanwhile. */
  lemma {:induction false} FreeLock(s: State, d: nat, t: Tid) returns (events: seq<Event>, s': State)
    requires Inv(s) && t < |s.threads| && s.threads[t].pc.Parked? && Domain(s.threads[t].pc.v) == d
    requires s.threads[t].pc.v in s.vals && s.vals[s.threads[t].pc.v].Finished?
    ensures |events| <= (if d in s.locks then HolderRank(s.threads[s.locks[d]].pc) else 0)
    ensures |events| <= 2 && OthersOnly(events, t) && LeadsTo(s, events, s') && Inv(s')
    ensures |s'.threads| == |s.threads|
    ensures s'.threads[t] == WokenUp(s.threads[t]) || (s'.threads[t] == s.threads[t] && d !in s'.locks)
    ensures s.threads[t].pc.v in s'.vals && s'.vals[s.threads[t].pc.v].Finished?
    decreases if d in s.locks then 1 + HolderRank(s.threads[s.locks[d]].pc) else 0
  {
    hide StackOk, OwnerOk, Apart, Attended;
    assert PcOk(s, t);
    if d !in s.locks {
      return [], s;
    }
    HolderStep(s, d);
    var h := s.locks[d];
    assert LockOk(s, d) && h != t;
    var a := HolderAction(h, s.threads[h].pc);
    var s1 := Step(s, h, a);
    StepKeepsInv(s, h, a);
    ValueAdvances(s, h, a, s.threads[t].pc.v);
    var rest: seq<Event>;
    if s1.threads[t].pc.Parked? && d in s1.locks {
      rest, s' := FreeLock(s1, d, t);
    } else {
      rest, s' := [], s1;
    }
    events := [Event(h, a)] + rest;
    assert events[1..] == rest;
  }

  lemma {:induction false} Append(s: State, first: seq<Event>, s1: State, second: seq<Event>, s2: State)
    requires LeadsTo(s, first, s1) && LeadsTo(s1, second, s2)
    ensures LeadsTo(s, first + second, s2)
    decreases |first|
  {
    if first == [] {
      assert first + second == second;
    } else {
      assert (first + second)[1..] == first[1..] + second;
      Append(Step(s, first[0].t, first[0].a), first[1..], s1, second, s2);
    }
  }
}
