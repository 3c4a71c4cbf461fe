/** Concurrent forcing of lazy values: the pending/awaited/finished protocol, one atomic
    access or lock operation per step, any number of threads and values. */
module ThunkProtocol {
  type Addr = nat

  type Tid = nat

  /** The tag in a value's first word; a busy value carries the thread evaluating it, and a
      finished one is a result or a failure. */
  datatype Tag = Thunk | Pending(owner: Tid) | Awaited(owner: Tid) | Finished(ok: bool)

  /** Where a thread is inside `force`, `waitOnThunk`, `finish` and `notifyWaiters`. `lost` says that it
      waits because its claim failed: then it waits inside the `try` of `force`. */
  datatype Pc =
    | Running
    | Loaded(v: Addr, seen: Tag)
    | WantLock(v: Addr, seen: Tag, lost: bool)
    | Locked(v: Addr, seen: Tag, lost: bool)
    | Waiting(v: Addr, owner: Tid, lost: bool)
    | Parked(v: Addr, owner: Tid, lost: bool)
    | Woken(v: Addr, owner: Tid, lost: bool)
    | Rechecking(v: Addr, owner: Tid, lost: bool)
    | Checking(v: Addr, owner: Tid, lost: bool)
    | Failing(v: Addr)
    | Recursion(v: Addr)
    | MustNotify(v: Addr)
    | Notifying(v: Addr)
    | Broken

  /** `stack` holds the values the thread is evaluating, innermost last. */
  datatype Thread = Thread(pc: Pc, stack: seq<Addr>)

  datatype State = State(vals: map<Addr, Tag>, threads: seq<Thread>, locks: map<nat, Tid>)

  const DOMAINS := 128

  /** Values share condition variables: the domain is a hash of the address. */
  function Domain(v: Addr): nat { (v / 32) % DOMAINS }

  datatype Action =
    | Load(v: Addr)
    | Claim
    | SeenBusy
    | SeenDone
    | Lock
    | CheckAwaited
    | MarkAwaited
    | Recurse
    | Unwind
    | Park
    | Wake
    | Relock
    | Recheck
    | Interrupt
    | Fail
    | Finish(ok: bool)
    | LockNotify
    | NotifyAll

  predicate Busy(tag: Tag) { tag.Pending? || tag.Awaited? }

  function SetPc(s: State, t: Tid, pc: Pc): State
    requires t < |s.threads|
  {
    s.(threads := s.threads[t := s.threads[t].(pc := pc)])
  }

  function Unlock(s: State, d: nat): State {
    s.(locks := s.locks - {d})
  }

  /** Leaving with the lock: fine if the value is finished, an assertion failure if it has
      gone back to thunk or pending. */
  function LeaveWith(s: State, t: Tid, v: Addr, tag: Tag): State
    requires t < |s.threads|
  {
    SetPc(Unlock(s, Domain(v)), t, if tag.Finished? then Running else Broken)
  }

  function WakeAll(threads: seq<Thread>, d: nat): (r: seq<Thread>)
    ensures |r| == |threads|
    ensures forall i | 0 <= i < |threads| :: r[i] == WakeOne(threads[i], d)
  {
    seq(|threads|, i requires 0 <= i < |threads| => WakeOne(threads[i], d))
  }

  function WakeOne(th: Thread, d: nat): Thread {
    if th.pc.Parked? && Domain(th.pc.v) == d then th.(pc := Woken(th.pc.v, th.pc.owner, th.pc.lost)) else th
  }

  predicate Enabled(s: State, t: Tid, a: Action) {
    t < |s.threads| &&
    var th := s.threads[t];
    var pc := th.pc;
    match a
    case Load(v) => pc.Running? && v in s.vals
    case Claim => pc.Loaded? && pc.seen.Thunk? && pc.v in s.vals
    case SeenBusy => pc.Loaded? && Busy(pc.seen)
    case SeenDone => pc.Loaded? && pc.seen.Finished?
    case Lock => pc.WantLock? && Domain(pc.v) !in s.locks
    case CheckAwaited => pc.Locked? && pc.seen.Awaited? && pc.v in s.vals
    case MarkAwaited => pc.Locked? && pc.seen.Pending? && pc.v in s.vals
    case Recurse => pc.Waiting? && pc.owner == t
    case Unwind => pc.Recursion?
    case Park => (pc.Waiting? && pc.owner != t) || pc.Checking?
    case Wake => pc.Parked?
    case Relock => pc.Woken? && Domain(pc.v) !in s.locks
    case Recheck => pc.Rechecking? && pc.v in s.vals
    case Interrupt => pc.Checking?
    case Fail => pc.Failing? && pc.v in s.vals
    case Finish(_) => pc.Running? && th.stack != [] && th.stack[|th.stack| - 1] in s.vals
    case LockNotify => pc.MustNotify? && Domain(pc.v) !in s.locks
    case NotifyAll => pc.Notifying?
  }

  /** What `finish` does after its exchange, depending on the tag it got back. */
  function AfterExchange(v: Addr, tag: Tag): Pc {
    if tag.Awaited? then MustNotify(v) else if tag.Thunk? then Broken else Running
  }

  /** Throwing while holding the lock. A thread whose claim failed comes to the handler of `force`, which
      writes a failure; any other leaves. */
  function Throw(s: State, t: Tid, v: Addr, lost: bool, pc: Pc): State
    requires t < |s.threads|
  {
    SetPc(Unlock(s, Domain(v)), t, if lost then Failing(v) else pc)
  }

  function Step(s: State, t: Tid, a: Action): State
    requires Enabled(s, t, a)
  {
    var th := s.threads[t];
    var pc := th.pc;
    match a
    case Load(v) => SetPc(s, t, Loaded(v, s.vals[v]))
    case Claim =>
      var tag := s.vals[pc.v];
      if tag.Thunk? then
        s.(vals := s.vals[pc.v := Pending(t)], threads := s.threads[t := Thread(Running, th.stack + [pc.v])])
      else SetPc(s, t, if Busy(tag) then WantLock(pc.v, tag, true) else Running)
    case SeenBusy => SetPc(s, t, WantLock(pc.v, pc.seen, false))
    case SeenDone => SetPc(s, t, Running)
    case Lock => SetPc(s.(locks := s.locks[Domain(pc.v) := t]), t, Locked(pc.v, pc.seen, pc.lost))
    case CheckAwaited =>
      var tag := s.vals[pc.v];
      if tag.Awaited? then SetPc(s, t, Waiting(pc.v, pc.seen.owner, pc.lost)) else LeaveWith(s, t, pc.v, tag)
    case MarkAwaited =>
      var tag := s.vals[pc.v];
      if tag == pc.seen then
        SetPc(s.(vals := s.vals[pc.v := Awaited(pc.seen.owner)]), t, Waiting(pc.v, pc.seen.owner, pc.lost))
      else if tag.Awaited? then SetPc(s, t, Waiting(pc.v, pc.seen.owner, pc.lost))
      else LeaveWith(s, t, pc.v, tag)
    case Recurse => Throw(s, t, pc.v, pc.lost, Recursion(pc.v))
    case Unwind => SetPc(s, t, Running)
    case Park => SetPc(Unlock(s, Domain(pc.v)), t, Parked(pc.v, pc.owner, pc.lost))
    case Wake => SetPc(s, t, Woken(pc.v, pc.owner, pc.lost))
    case Relock => SetPc(s.(locks := s.locks[Domain(pc.v) := t]), t, Rechecking(pc.v, pc.owner, pc.lost))
    case Recheck =>
      var tag := s.vals[pc.v];
      if tag.Awaited? then SetPc(s, t, Checking(pc.v, pc.owner, pc.lost)) else LeaveWith(s, t, pc.v, tag)
    case Interrupt => Throw(s, t, pc.v, pc.lost, Running)
    case Fail => SetPc(s.(vals := s.vals[pc.v := Finished(false)]), t, AfterExchange(pc.v, s.vals[pc.v]))
    case Finish(ok) =>
      var v := th.stack[|th.stack| - 1];
      s.(vals := s.vals[v := Finished(ok)],
         threads := s.threads[t := Thread(AfterExchange(v, s.vals[v]), th.stack[..|th.stack| - 1])])
    case LockNotify => SetPc(s.(locks := s.locks[Domain(pc.v) := t]), t, Notifying(pc.v))
    case NotifyAll =>
      var u := Unlock(s, Domain(pc.v));
      SetPc(u.(threads := WakeAll(u.threads, Domain(pc.v))), t, Running)
  }

  predicate Initial(s: State) {
    && s.locks == map[]
    && (forall v | v in s.vals :: !Busy(s.vals[v]))
    && (forall t | 0 <= t < |s.threads| :: s.threads[t] == Thread(Running, []))
  }

  /* ---- the invariant ---- */

  predicate HoldsLock(pc: Pc) {
    pc.Locked? || pc.Waiting? || pc.Rechecking? || pc.Checking? || pc.Notifying?
  }

  /** A tag seen earlier bounds the present one: busy values only advance, under one owner. */
  predicate Advanced(seen: Tag, now: Tag) {
    match seen
    case Thunk => true
    case Pending(o) => now == Pending(o) || now == Awaited(o) || now.Finished?
    case Awaited(o) => now == Awaited(o) || now.Finished?
    case Finished(_) => now.Finished?
  }

  predicate IsNotifier(pc: Pc, v: Addr) {
    pc == MustNotify(v) || pc == Notifying(v)
  }

  /** Some thread is about to notify the waiters of `v`. */
  predicate Notified(s: State, v: Addr) {
    exists u :: 0 <= u < |s.threads| && IsNotifier(s.threads[u].pc, v)
  }

  /** Somebody will wake those waiting for `v`: its owner, or whoever has finished it. */
  predicate Attended(s: State, v: Addr, o: Tid)
    requires v in s.vals
  {
    s.vals[v] == Awaited(o) || (s.vals[v].Finished? && Notified(s, v))
  }

  /** `o` was the evaluator of `v` when thread `t`, with this stack, last looked. */
  predicate OwnIff(t: Tid, stack: seq<Addr>, v: Addr, o: Tid, lost: bool) {
    (o == t <==> v in stack) && (lost ==> o != t)
  }

  predicate PcOk(s: State, t: Tid)
    requires t < |s.threads|
  {
    var th := s.threads[t];
    var pc := th.pc;
    && !pc.Broken?
    && (!pc.Running? && !pc.Broken? ==> pc.v in s.vals)
    && (HoldsLock(pc) ==> Domain(pc.v) in s.locks && s.locks[Domain(pc.v)] == t)
    && match pc
       case Loaded(v, seen) =>
         && Advanced(seen, s.vals[v]) && (seen.Thunk? ==> v !in th.stack)
         && (Busy(seen) ==> OwnIff(t, th.stack, v, seen.owner, false))
       case WantLock(v, seen, l) => Busy(seen) && Advanced(seen, s.vals[v]) && OwnIff(t, th.stack, v, seen.owner, l)
       case Locked(v, seen, l) => Busy(seen) && Advanced(seen, s.vals[v]) && OwnIff(t, th.stack, v, seen.owner, l)
       case Waiting(v, o, l) => Attended(s, v, o) && OwnIff(t, th.stack, v, o, l)
       case Parked(v, o, l) => Attended(s, v, o) && OwnIff(t, th.stack, v, o, l) && o != t
       case Woken(v, o, l) => Advanced(Awaited(o), s.vals[v]) && OwnIff(t, th.stack, v, o, l) && o != t
       case Rechecking(v, o, l) => Advanced(Awaited(o), s.vals[v]) && OwnIff(t, th.stack, v, o, l) && o != t
       case Checking(v, o, l) => Attended(s, v, o) && OwnIff(t, th.stack, v, o, l) && o != t
       case Failing(v) => (s.vals[v].Awaited? || s.vals[v].Finished?) && v !in th.stack
       case Recursion(v) => v in th.stack
       case MustNotify(v) => s.vals[v].Finished?
       case Notifying(v) => s.vals[v].Finished?
       case _ => true
  }

  /** What a thread is evaluating is marked as its own, or was finished by somebody else meanwhile. */
  predicate StackOk(s: State, t: Tid)
    requires t < |s.threads|
  {
    var stack := s.threads[t].stack;
    && (forall i | 0 <= i < |stack| :: stack[i] in s.vals &&
          (s.vals[stack[i]] == Pending(t) || s.vals[stack[i]] == Awaited(t) || s.vals[stack[i]].Finished?))
    && (forall i, j | 0 <= i < j < |stack| :: stack[i] != stack[j])
  }

  /** No value is being evaluated by two threads. */
  predicate Apart(s: State, t: Tid, u: Tid)
    requires t < |s.threads| && u < |s.threads|
  {
    t != u ==> forall v | v in s.threads[t].stack :: v !in s.threads[u].stack
  }

  predicate OwnerOk(s: State, v: Addr)
    requires v in s.vals
  {
    Busy(s.vals[v]) ==> s.vals[v].owner < |s.threads| && v in s.threads[s.vals[v].owner].stack
  }

  predicate LockOk(s: State, d: nat)
    requires d in s.locks
  {
    var t := s.locks[d];
    t < |s.threads| && HoldsLock(s.threads[t].pc) && Domain(s.threads[t].pc.v) == d
  }

  predicate Inv(s: State) {
    && (forall t | 0 <= t < |s.threads| :: PcOk(s, t))
    && (forall t | 0 <= t < |s.threads| :: StackOk(s, t))
    && (forall t, u | 0 <= t < |s.threads| && 0 <= u < |s.threads| :: Apart(s, t, u))
    && (forall v | v in s.vals :: OwnerOk(s, v))
    && (forall d | d in s.locks :: LockOk(s, d))
  }

  lemma InitialOk(s: State)
    requires Initial(s)
    ensures Inv(s)
  {
  }

  /* ---- what one step leaves alone ---- */

  /** Values only move on. */
  lemma ValueAdvances(s: State, t: Tid, a: Action, v: Addr)
    requires Inv(s) && Enabled(s, t, a) && v in s.vals
    ensures v in Step(s, t, a).vals && Advanced(s.vals[v], Step(s, t, a).vals[v])
  {
    hide Apart, OwnerOk, LockOk;
    assert PcOk(s, t) && StackOk(s, t);
  }

  /** Another thread keeps its stack, its locks and its place, unless it is woken. */
  lemma OtherStays(s: State, t: Tid, a: Action, u: Tid)
    requires Inv(s) && Enabled(s, t, a) && u < |s.threads| && u != t
    ensures var s' := Step(s, t, a);
      && |s'.threads| == |s.threads|
      && s'.threads[u] == (if a.NotifyAll? then WakeOne(s.threads[u], Domain(s.threads[t].pc.v)) else s.threads[u])
      && forall d | d in s.locks && s.locks[d] == u :: d in s'.locks && s'.locks[d] == u
  {
    hide StackOk, OwnerOk, LockOk, Apart, Attended, Advanced;
    assert PcOk(s, t);
  }

  /** The thread that takes the step: where it was, if it was about to notify. */
  lemma NotifierStep(s: State, t: Tid, a: Action, v: Addr)
    requires Enabled(s, t, a) && IsNotifier(s.threads[t].pc, v)
    ensures t < |Step(s, t, a).threads|
    ensures (a.LockNotify? && Step(s, t, a).threads[t].pc == Notifying(v)) || a.NotifyAll?
  {
  }

  /** Only a notification ends the care taken of a value's waiters. */
  lemma AttendedStays(s: State, t: Tid, a: Action, v: Addr, o: Tid)
    requires Inv(s) && Enabled(s, t, a) && v in s.vals && Attended(s, v, o)
    requires a.NotifyAll? ==> Domain(s.threads[t].pc.v) != Domain(v)
    ensures v in Step(s, t, a).vals && Attended(Step(s, t, a), v, o)
  {
    hide PcOk, StackOk, OwnerOk, LockOk, Apart;
    ValueAdvances(s, t, a, v);
    if s.vals[v].Finished? {
      var w :| 0 <= w < |s.threads| && IsNotifier(s.threads[w].pc, v);
      if w == t {
        NotifierStep(s, t, a, v);
      } else {
        OtherStays(s, t, a, w);
      }
      assert IsNotifier(Step(s, t, a).threads[w].pc, v);
    } else {
      AwaitedStays(s, t, a, v);
    }
  }

  lemma AwaitedStays(s: State, t: Tid, a: Action, v: Addr)
    requires Inv(s) && Enabled(s, t, a) && v in s.vals && s.vals[v].Awaited?
    ensures v in Step(s, t, a).vals
    ensures Step(s, t, a).vals[v] == s.vals[v] || (Step(s, t, a).vals[v].Finished? && Notified(Step(s, t, a), v))
  {
    hide PcOk, StackOk, OwnerOk, LockOk, Apart;
    var s' := Step(s, t, a);
    if s'.vals[v] != s.vals[v] {
      assert IsNotifier(s'.threads[t].pc, v);
    }
  }

  /* ---- the invariant is kept ---- */

  lemma StepKeepsStack(s: State, t: Tid, a: Action, u: Tid)
    requires Inv(s) && Enabled(s, t, a) && u < |s.threads|
    ensures u < |Step(s, t, a).threads| && StackOk(Step(s, t, a), u)
  {
    hide PcOk, OwnerOk, LockOk, Apart;
    assert StackOk(s, u);
    if u != t {
      OtherStays(s, t, a, u);
    }
    forall i | 0 <= i < |s.threads[u].stack|
      ensures s.threads[u].stack[i] in Step(s, t, a).vals
      ensures Advanced(s.vals[s.threads[u].stack[i]], Step(s, t, a).vals[s.threads[u].stack[i]])
    {
      ValueAdvances(s, t, a, s.threads[u].stack[i]);
    }
    StackChange(s, t, a);
    hide Step, Enabled;
  }

  /** A claim pushes an unfinished value, a finish pops one. */
  lemma StackChange(s: State, t: Tid, a: Action)
    requires Inv(s) && Enabled(s, t, a)
    ensures |Step(s, t, a).threads| == |s.threads|
    ensures var stack, stack', pc := s.threads[t].stack, Step(s, t, a).threads[t].stack, s.threads[t].pc;
      || stack' == stack
      || (stack != [] && stack' == stack[..|stack| - 1])
      || (pc.Loaded? && pc.v in s.vals && s.vals[pc.v].Thunk?
          && stack' == stack + [pc.v] && Step(s, t, a).vals[pc.v] == Pending(t))
  {
    hide PcOk, StackOk, OwnerOk, LockOk, Apart;
  }

  lemma StepKeepsApart(s: State, t: Tid, a: Action, u: Tid, w: Tid)
    requires Inv(s) && Enabled(s, t, a) && u < |s.threads| && w < |s.threads|
    ensures |Step(s, t, a).threads| == |s.threads| && Apart(Step(s, t, a), u, w)
  {
    hide PcOk, OwnerOk, LockOk, Step, Enabled;
    assert Apart(s, u, w) && Apart(s, w, u) && StackOk(s, u) && StackOk(s, w);
    StackChange(s, t, a);
    if u != t {
      OtherStays(s, t, a, u);
    }
    if w != t {
      OtherStays(s, t, a, w);
    }
  }

  lemma StepKeepsOwner(s: State, t: Tid, a: Action, v: Addr)
    requires Inv(s) && Enabled(s, t, a) && v in s.vals
    ensures v in Step(s, t, a).vals && OwnerOk(Step(s, t, a), v)
  {
    hide LockOk, PcOk, Apart;
    assert StackOk(s, t) && OwnerOk(s, v);
  }

  lemma StepKeepsLock(s: State, t: Tid, a: Action, d: nat)
    requires Inv(s) && Enabled(s, t, a) && d in Step(s, t, a).locks
    ensures LockOk(Step(s, t, a), d)
  {
    hide StackOk, OwnerOk, Apart, Attended, Advanced, OwnIff;
    assert PcOk(s, t);
    assert d in s.locks ==> LockOk(s, d);
  }

  lemma StepKeepsOwnPc(s: State, t: Tid, a: Action)
    requires Inv(s) && Enabled(s, t, a)
    ensures t < |Step(s, t, a).threads| && PcOk(Step(s, t, a), t)
  {
    match a
    case Load(v) => LoadKeepsOwn(s, t, v);
    case Claim => ClaimKeepsOwn(s, t);
    case MarkAwaited => MarkKeepsOwn(s, t);
    case Finish(ok) => FinishKeepsOwn(s, t, ok);
    case Fail => FailKeepsOwn(s, t);
    case Park => ParkKeepsOwn(s, t);
    case _ => QuietKeepsOwn(s, t, a);
  }

  lemma LoadKeepsOwn(s: State, t: Tid, v: Addr)
    requires Inv(s) && Enabled(s, t, Load(v))
    ensures PcOk(Step(s, t, Load(v)), t)
  {
    hide LockOk, Apart;
    assert StackOk(s, t) && OwnerOk(s, v);
  }

  lemma ClaimKeepsOwn(s: State, t: Tid)
    requires Inv(s) && Enabled(s, t, Claim)
    ensures PcOk(Step(s, t, Claim), t)
  {
    hide LockOk, Apart;
    assert PcOk(s, t) && StackOk(s, t) && OwnerOk(s, s.threads[t].pc.v);
  }

  lemma MarkKeepsOwn(s: State, t: Tid)
    requires Inv(s) && Enabled(s, t, MarkAwaited)
    ensures PcOk(Step(s, t, MarkAwaited), t)
  {
    hide LockOk, Apart, StackOk, OwnerOk;
    assert PcOk(s, t);
  }

  lemma FinishKeepsOwn(s: State, t: Tid, ok: bool)
    requires Inv(s) && Enabled(s, t, Finish(ok))
    ensures PcOk(Step(s, t, Finish(ok)), t)
  {
    hide LockOk, Apart, OwnerOk;
    assert PcOk(s, t) && StackOk(s, t);
  }

  lemma FailKeepsOwn(s: State, t: Tid)
    requires Inv(s) && Enabled(s, t, Fail)
    ensures PcOk(Step(s, t, Fail), t)
  {
    hide LockOk, Apart, StackOk, OwnerOk;
    assert PcOk(s, t);
  }

  lemma ParkKeepsOwn(s: State, t: Tid)
    requires Inv(s) && Enabled(s, t, Park)
    ensures PcOk(Step(s, t, Park), t)
  {
    hide LockOk, Apart, StackOk, OwnerOk, Attended, Notified;
    assert PcOk(s, t);
    AttendedStays(s, t, Park, s.threads[t].pc.v, s.threads[t].pc.owner);
  }

  lemma QuietKeepsOwn(s: State, t: Tid, a: Action)
    requires Inv(s) && Enabled(s, t, a)
    requires !a.Load? && !a.Claim? && !a.MarkAwaited? && !a.Finish? && !a.Fail? && !a.Park?
    ensures PcOk(Step(s, t, a), t)
  {
    hide StackOk, OwnerOk, LockOk, Apart, Notified;
    assert PcOk(s, t);
  }

  lemma StepKeepsOtherPc(s: State, t: Tid, a: Action, u: Tid)
    requires Inv(s) && Enabled(s, t, a) && u < |s.threads| && u != t
    ensures u < |Step(s, t, a).threads| && PcOk(Step(s, t, a), u)
  {
    hide Enabled, Step, StackOk, OwnerOk, LockOk, Apart, Attended;
    assert PcOk(s, u);
    OtherStays(s, t, a, u);
    var pc := s.threads[u].pc;
    if !pc.Running? {
      ValueAdvances(s, t, a, pc.v);
    }
    if pc.Waiting? || pc.Checking? || pc.Parked? {
      WaiterStays(s, t, a, u);
    }
  }

  /** A thread that waits for a value is taken care of until it is woken. */
  lemma WaiterStays(s: State, t: Tid, a: Action, u: Tid)
    requires Inv(s) && Enabled(s, t, a) && u < |s.threads| && u != t
    requires var pc := s.threads[u].pc; pc.Waiting? || pc.Checking? || pc.Parked?
    ensures s.threads[u].pc.v in s.vals && Advanced(Awaited(s.threads[u].pc.owner), s.vals[s.threads[u].pc.v])
    ensures var s', pc := Step(s, t, a), s.threads[u].pc;
      || (pc.v in s'.vals && Attended(s', pc.v, pc.owner))
      || (pc.Parked? && a.NotifyAll? && Domain(pc.v) == Domain(s.threads[t].pc.v))
  {
    hide Step, StackOk, OwnerOk, LockOk, Apart, Notified;
    assert PcOk(s, u) && PcOk(s, t);
    var pc := s.threads[u].pc;
    if !(a.NotifyAll? && Domain(pc.v) == Domain(s.threads[t].pc.v)) {
      AttendedStays(s, t, a, pc.v, pc.owner);
    }
  }

  lemma StepKeepsPc(s: State, t: Tid, a: Action, u: Tid)
    requires Inv(s) && Enabled(s, t, a) && u < |s.threads|
    ensures u < |Step(s, t, a).threads| && PcOk(Step(s, t, a), u)
  {
    if u == t {
      StepKeepsOwnPc(s, t, a);
    } else {
      StepKeepsOtherPc(s, t, a, u);
    }
  }

  lemma StepKeepsInv(s: State, t: Tid, a: Action)
    requires Inv(s) && Enabled(s, t, a)
    ensures Inv(Step(s, t, a))
  {
    hide PcOk, StackOk, OwnerOk, LockOk, Apart;
    var s' := Step(s, t, a);
    assert |s'.threads| == |s.threads| && s'.vals.Keys == s.vals.Keys;
    forall u | 0 <= u < |s'.threads| ensures PcOk(s', u) && StackOk(s', u) {
      StepKeepsPc(s, t, a, u);
      StepKeepsStack(s, t, a, u);
    }
    forall u, w | 0 <= u < |s'.threads| && 0 <= w < |s'.threads| ensures Apart(s', u, w) {
      StepKeepsApart(s, t, a, u, w);
    }
    forall v | v in s'.vals ensures OwnerOk(s', v) {
      StepKeepsOwner(s, t, a, v);
    }
    forall d | d in s'.locks ensures LockOk(s', d) {
      StepKeepsLock(s, t, a, d);
    }
  }
}
