/** The coroutine simulator: goals as program counters, semaphores over resettable events. */
module TaskModel {
  import opened DepGraph

  /** `lines[g]` is how many output lines goal `g` would print while working. */
  datatype Params = Params(g: Graph, maxJobs: nat, maxSubs: nat, sub: seq<bool>, lines: seq<nat>)

  predicate Valid(p: Params) {
    Wired(p.g) && |p.sub| == |p.lines| == |p.g.inputs|
  }

  function Size(p: Params): nat { |p.g.inputs| }

  function Cap(p: Params, isSub: bool): nat { if isSub then p.maxSubs else p.maxJobs }

  /** Where a goal stands between two suspensions or checks. */
  datatype Pc =
    | Fresh
    | Announcing
    | AnnouncingWait
    | Deps(k: nat)
    | DepParked(k: nat)
    | BeforeSlot
    | Acquiring
    | SlotParked
    | SlotWoken
    | Acquired
    | EmittingSlot
    | EmittingWork
    | Working(left: nat)
    | Releasing
    | AfterWork
    | EmittingDone
    | Completing
    | LastEmit
    | Returned
    | GaveUp

  /** An event that can be awaited; the most recent waiter comes first. */
  datatype Ev = Ev(isSet: bool, waiters: seq<nat>)

  datatype Sem = Sem(count: nat, ev: Ev)

  /** `complete[g]` is the event that goal `g` sets when it is done. */
  datatype State = State(pc: seq<Pc>, build: Sem, subst: Sem, complete: seq<Ev>, completed: nat)

  predicate Shaped(p: Params, s: State) {
    |s.pc| == |s.complete| == Size(p)
  }

  function SemOf(s: State, isSub: bool): Sem { if isSub then s.subst else s.build }

  function WithSem(s: State, isSub: bool, m: Sem): State {
    if isSub then s.(subst := m) else s.(build := m)
  }

  predicate Parked(c: Pc) { c.DepParked? || c.SlotParked? }

  predicate Over(c: Pc) { c.Returned? || c.GaveUp? }

  predicate CanStep(c: Pc) { !Parked(c) && !Over(c) }

  /** The goal owns a slot. */
  predicate Holds(c: Pc) {
    c.Acquired? || c.EmittingSlot? || c.EmittingWork? || c.Working? || c.Releasing?
  }

  /** Where a goal continues when the event it is parked on is set. */
  function Awake(c: Pc): Pc {
    match c
    case DepParked(k) => Deps(k + 1)
    case SlotParked => SlotWoken
    case _ => c
  }

  /** Resume each of the goals. */
  function Wake(pc: seq<Pc>, gs: seq<nat>): (r: seq<Pc>)
    ensures |r| == |pc|
    decreases |gs|
  {
    if gs == [] then pc
    else Wake(if gs[0] < |pc| then pc[gs[0] := Awake(pc[gs[0]])] else pc, gs[1..])
  }

  function SetEv(e: Ev): Ev { if e.isSet then e else Ev(true, []) }

  /** Those resumed by setting the event. */
  function Resumed(e: Ev): seq<nat> { if e.isSet then [] else e.waiters }

  /** `release`: one more slot, and everyone waiting looks again. */
  function Release(s: State, isSub: bool): (r: State)
    ensures |r.pc| == |s.pc| && |r.complete| == |s.complete|
  {
    var m := SemOf(s, isSub);
    WithSem(s.(pc := Wake(s.pc, Resumed(m.ev))), isSub, Sem(m.count + 1, SetEv(m.ev)))
  }

  /** The loop of `acquire`, from its test on: take a slot, or reset the event if it is set and park. */
  function TryAcquire(s: State, g: nat, isSub: bool): (r: State)
    requires g < |s.pc|
    ensures |r.pc| == |s.pc| && |r.complete| == |s.complete|
  {
    var m := SemOf(s, isSub);
    if m.count > 0 then WithSem(s.(pc := s.pc[g := Acquired]), isSub, m.(count := m.count - 1))
    else WithSem(s.(pc := s.pc[g := SlotParked]), isSub, m.(ev := Ev(false, [g] + m.ev.waiters)))
  }

  /** Being resumed inside `acquire` resets the event first. */
  function Reset(s: State, isSub: bool): (r: State)
    ensures |r.pc| == |s.pc| && |r.complete| == |s.complete|
  {
    var m := SemOf(s, isSub);
    if m.ev.isSet then WithSem(s, isSub, m.(ev := Ev(false, []))) else s
  }

  function Go(s: State, g: nat, c: Pc): (r: State)
    requires g < |s.pc|
    ensures |r.pc| == |s.pc| && |r.complete| == |s.complete|
  {
    s.(pc := s.pc[g := c])
  }

  /** Goal `g` runs up to its next check or suspension. `ok` is the outcome of the check: no
      shutdown was requested, or the event was delivered. */
  function Next(p: Params, s: State, g: nat, ok: bool): (r: State)
    requires Valid(p) && Shaped(p, s) && g < Size(p) && CanStep(s.pc[g])
    ensures Shaped(p, r)
  {
    var isSub, ins := p.sub[g], p.g.inputs[g];
    match s.pc[g]
    case Fresh => Go(s, g, if ok then Announcing else GaveUp)
    case Announcing => Go(s, g, if !ok then GaveUp else if ins == [] then BeforeSlot else AnnouncingWait)
    case AnnouncingWait => Go(s, g, if ok then Deps(0) else GaveUp)
    case Deps(k) =>
      if !ok then Go(s, g, GaveUp)
      else if k >= |ins| then Go(s, g, BeforeSlot)
      else
        assert ins[k] in ins;
        var e := s.complete[ins[k]];
        if e.isSet then Go(s, g, Deps(k + 1))
        else Go(s.(complete := s.complete[ins[k] := Ev(false, [g] + e.waiters)]), g, DepParked(k))
    case BeforeSlot => Go(s, g, if ok then Acquiring else GaveUp)
    case Acquiring => TryAcquire(s, g, isSub)
    case SlotWoken => TryAcquire(Reset(s, isSub), g, isSub)
    case Acquired => if ok then Go(s, g, EmittingSlot) else Release(Go(s, g, GaveUp), isSub)
    case EmittingSlot => if ok then Go(s, g, EmittingWork) else Release(Go(s, g, GaveUp), isSub)
    case EmittingWork => if ok then Go(s, g, Working(p.lines[g])) else Release(Go(s, g, GaveUp), isSub)
    case Working(left) => Go(s, g, if ok && left > 0 then Working(left - 1) else Releasing)
    case Releasing => Release(Go(s, g, AfterWork), isSub)
    case AfterWork => Go(s, g, if ok then EmittingDone else GaveUp)
    case EmittingDone => Go(s, g, if ok then Completing else GaveUp)
    case Completing =>
      var e := s.complete[g];
      Go(s, g, LastEmit).(pc := Wake(s.pc[g := LastEmit], Resumed(e)),
                          complete := s.complete[g := SetEv(e)], completed := s.completed + 1)
    case LastEmit => Go(s, g, Returned)
  }

  function Initial(p: Params): (s: State)
    requires Valid(p)
    ensures Shaped(p, s)
  {
    State(seq(Size(p), i => Fresh), Sem(p.maxJobs, Ev(false, [])), Sem(p.maxSubs, Ev(false, [])),
          seq(Size(p), i => Ev(false, [])), 0)
  }
}
