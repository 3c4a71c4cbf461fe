/** What every step of the coroutine simulator keeps. */
module TaskInv {
  import opened DepGraph
  import opened TaskModel

  /* ---- the invariant ---- */

  /** The goals of one kind that own a slot. */
  function Holders(p: Params, pc: seq<Pc>, isSub: bool): set<nat> {
    set g | 0 <= g < |pc| && g < |p.sub| && Holds(pc[g]) && p.sub[g] == isSub
  }

  /** Free slots and goals owning one add up to the capacity. */
  predicate SlotsOk(p: Params, pc: seq<Pc>, m: Sem, isSub: bool) {
    m.count + Count(Size(p), Holders(p, pc, isSub)) == Cap(p, isSub)
  }

  /** The waiters of a semaphore's event are the goals parked there; nobody is parked while a
      slot is free or the event is set. */
  predicate QueueOk(p: Params, pc: seq<Pc>, m: Sem, isSub: bool)
    requires |pc| == |p.sub|
  {
    && NoDup(m.ev.waiters)
    && (forall g | g in m.ev.waiters :: g < |pc|)
    && (forall g | 0 <= g < |pc| :: g in m.ev.waiters <==> pc[g].SlotParked? && p.sub[g] == isSub)
    && (m.count > 0 ==> m.ev.waiters == [])
    && (m.ev.isSet ==> m.ev.waiters == [])
  }

  /** The goal waits for goal `d`. */
  predicate WaitsFor(p: Params, c: Pc, g: nat, d: nat)
    requires g < |p.g.inputs|
  {
    c.DepParked? && c.k < |p.g.inputs[g]| && p.g.inputs[g][c.k] == d
  }

  predicate EventOk(p: Params, pc: seq<Pc>, e: Ev, d: nat)
    requires |pc| == |p.g.inputs| && d < |pc|
  {
    && NoDup(e.waiters)
    && (forall g | g in e.waiters :: g < |pc|)
    && (forall g | 0 <= g < |pc| :: g in e.waiters <==> WaitsFor(p, pc[g], g, d))
    && (e.isSet <==> pc[d].LastEmit? || pc[d].Returned?)
    && (e.isSet ==> e.waiters == [])
  }

  /** How many of its inputs a goal has seen complete. */
  function Seen(c: Pc, total: nat): nat {
    match c
    case Fresh => 0
    case Announcing => 0
    case AnnouncingWait => 0
    case GaveUp => 0
    case Deps(k) => k
    case DepParked(k) => k
    case _ => total
  }

  predicate SeenOk(p: Params, s: State, g: nat)
    requires Shaped(p, s) && g < Size(p)
  {
    && Seen(s.pc[g], |p.g.inputs[g]|) <= |p.g.inputs[g]|
    && (s.pc[g].DepParked? ==> s.pc[g].k < |p.g.inputs[g]|)
    && forall j | 0 <= j < Seen(s.pc[g], |p.g.inputs[g]|) ::
         p.g.inputs[g][j] < |s.complete| && s.complete[p.g.inputs[g][j]].isSet
  }

  ghost predicate Inv(p: Params, s: State) {
    && Valid(p) && Shaped(p, s)
    && (forall b: bool :: SlotsOk(p, s.pc, SemOf(s, b), b))
    && (forall b: bool :: QueueOk(p, s.pc, SemOf(s, b), b))
    && (forall d | 0 <= d < Size(p) :: EventOk(p, s.pc, s.complete[d], d))
    && (forall g | 0 <= g < Size(p) :: SeenOk(p, s, g))
  }

  lemma InitialOk(p: Params)
    requires Valid(p)
    ensures Inv(p, Initial(p))
  {
    var s := Initial(p);
    forall b: bool ensures SlotsOk(p, s.pc, SemOf(s, b), b) {
      SumZero(Ones(Size(p)), Holders(p, s.pc, b));
    }
  }

  /* ---- waking ---- */

  lemma {:induction false} WakeAt(pc: seq<Pc>, gs: seq<nat>, g: nat)
    requires NoDup(gs) && g < |pc|
    ensures Wake(pc, gs)[g] == if g in gs then Awake(pc[g]) else pc[g]
    decreases |gs|
  {
    if gs == [] {
    } else {
      var x := gs[0];
      assert gs == [x] + gs[1..];
      assert x !in gs[1..];
      WakeAt(if x < |pc| then pc[x := Awake(pc[x])] else pc, gs[1..], g);
    }
  }

  /* ---- parts that a step leaves alone ---- */

  predicate Passed(c: Pc) { c.LastEmit? || c.Returned? }

  lemma HoldersSame(p: Params, pc: seq<Pc>, pc': seq<Pc>, isSub: bool)
    requires |pc'| == |pc| && forall h | 0 <= h < |pc| :: Holds(pc'[h]) <==> Holds(pc[h])
    ensures Holders(p, pc', isSub) == Holders(p, pc, isSub)
  {
  }

  lemma HoldersMore(p: Params, pc: seq<Pc>, pc': seq<Pc>, g: nat, isSub: bool)
    requires Valid(p) && |pc'| == |pc| == Size(p) && g < |pc| && !Holds(pc[g]) && Holds(pc'[g])
    requires forall h | 0 <= h < |pc| && h != g :: Holds(pc'[h]) <==> Holds(pc[h])
    ensures Count(Size(p), Holders(p, pc', isSub))
         == Count(Size(p), Holders(p, pc, isSub)) + CountOf(p.sub[g] == isSub)
  {
    var before, after := Holders(p, pc, isSub), Holders(p, pc', isSub);
    if p.sub[g] == isSub {
      assert after == before + {g};
      SumAdd(Ones(Size(p)), before, g);
    } else {
      assert after == before;
    }
  }

  /** Who holds slots and the semaphores' counts are unchanged. */
  lemma SlotsSame(p: Params, s: State, s': State)
    requires Inv(p, s) && Shaped(p, s') && (forall b: bool :: SemOf(s', b).count == SemOf(s, b).count)
    requires forall h | 0 <= h < Size(p) :: Holds(s'.pc[h]) <==> Holds(s.pc[h])
    ensures forall b: bool :: SlotsOk(p, s'.pc, SemOf(s', b), b)
  {
    hide QueueOk, EventOk, SeenOk, Count;
    forall b: bool ensures SlotsOk(p, s'.pc, SemOf(s', b), b) {
      assert SlotsOk(p, s.pc, SemOf(s, b), b);
      HoldersSame(p, s.pc, s'.pc, b);
    }
  }

  /** Who is parked for a slot and the semaphores are unchanged. */
  lemma QueuesSame(p: Params, s: State, s': State)
    requires Inv(p, s) && Shaped(p, s') && (forall b: bool :: SemOf(s', b) == SemOf(s, b))
    requires forall h | 0 <= h < Size(p) :: s'.pc[h].SlotParked? <==> s.pc[h].SlotParked?
    ensures forall b: bool :: QueueOk(p, s'.pc, SemOf(s', b), b)
  {
    hide SlotsOk, EventOk, SeenOk;
    forall b: bool ensures QueueOk(p, s'.pc, SemOf(s', b), b) {
      assert QueueOk(p, s.pc, SemOf(s, b), b);
    }
  }

  /** Who waits for whom, and who is done, is unchanged. */
  lemma EventsSame(p: Params, s: State, s': State)
    requires Inv(p, s) && Shaped(p, s') && s'.complete == s.complete
    requires forall h | 0 <= h < Size(p) ::
      s'.pc[h] == s.pc[h]
      || (!s'.pc[h].DepParked? && !s.pc[h].DepParked? && (Passed(s'.pc[h]) <==> Passed(s.pc[h])))
    ensures forall d | 0 <= d < Size(p) :: EventOk(p, s'.pc, s'.complete[d], d)
  {
    hide SlotsOk, QueueOk, SeenOk;
    forall d | 0 <= d < Size(p) ensures EventOk(p, s'.pc, s'.complete[d], d) {
      assert EventOk(p, s.pc, s.complete[d], d);
    }
  }

  lemma ParkedInRange(p: Params, s: State)
    requires Inv(p, s)
    ensures forall h | 0 <= h < Size(p) :: s.pc[h].DepParked? ==> s.pc[h].k < |p.g.inputs[h]|
  {
    hide SlotsOk, QueueOk, EventOk;
    forall h | 0 <= h < Size(p) ensures s.pc[h].DepParked? ==> s.pc[h].k < |p.g.inputs[h]| {
      assert SeenOk(p, s, h);
    }
  }

  /** Nobody has seen more or less, and nothing became incomplete. */
  lemma SeenSame(p: Params, s: State, s': State)
    requires Inv(p, s) && Shaped(p, s')
    requires forall d | 0 <= d < Size(p) && s.complete[d].isSet :: s'.complete[d].isSet
    requires forall h | 0 <= h < Size(p) ::
      SeenOk(p, s', h)
      || (Seen(s'.pc[h], |p.g.inputs[h]|) <= Seen(s.pc[h], |p.g.inputs[h]|)
          && (s'.pc[h].DepParked? ==> s'.pc[h].k < |p.g.inputs[h]|))
    ensures forall g | 0 <= g < Size(p) :: SeenOk(p, s', g)
  {
    hide SlotsOk, QueueOk, EventOk;
    forall g | 0 <= g < Size(p) ensures SeenOk(p, s', g) {
      assert SeenOk(p, s, g);
    }
  }

  /* ---- a step that only moves one goal ---- */

  /** The goal saw one more input complete. */
  predicate SawNext(p: Params, s: State, g: nat, c: Pc)
    requires Valid(p) && Shaped(p, s) && g < Size(p)
  {
    var seen, ins := Seen(s.pc[g], |p.g.inputs[g]|), p.g.inputs[g];
    Seen(c, |ins|) == seen + 1 <= |ins| && ins[seen] < |s.complete| && s.complete[ins[seen]].isSet
  }

  /** A move that neither parks, wakes, takes or returns a slot, nor completes the goal. */
  lemma GoKeeps(p: Params, s: State, g: nat, c: Pc)
    requires Inv(p, s) && g < Size(p) && CanStep(s.pc[g]) && !Parked(c)
    requires (Holds(c) <==> Holds(s.pc[g])) && (Passed(c) <==> Passed(s.pc[g]))
    requires Seen(c, |p.g.inputs[g]|) <= Seen(s.pc[g], |p.g.inputs[g]|) || SawNext(p, s, g, c)
    ensures Inv(p, Go(s, g, c))
  {
    hide SlotsOk, QueueOk, EventOk, SeenOk, SawNext;
    var s' := Go(s, g, c);
    SlotsSame(p, s, s');
    QueuesSame(p, s, s');
    EventsSame(p, s, s');
    ParkedInRange(p, s);
    if Seen(c, |p.g.inputs[g]|) > Seen(s.pc[g], |p.g.inputs[g]|) {
      GoSees(p, s, g, c);
    }
    SeenSame(p, s, s');
  }

  lemma GoSees(p: Params, s: State, g: nat, c: Pc)
    requires Inv(p, s) && g < Size(p) && !Parked(c) && SawNext(p, s, g, c)
    ensures SeenOk(p, Go(s, g, c), g)
  {
    hide SlotsOk, QueueOk, EventOk;
    assert SeenOk(p, s, g);
  }

  /* ---- parking on another goal's completion ---- */

  lemma DepParkKeeps(p: Params, s: State, g: nat, k: nat)
    requires Inv(p, s) && g < Size(p) && s.pc[g] == Deps(k) && k < |p.g.inputs[g]|
    requires p.g.inputs[g][k] < Size(p) && !s.complete[p.g.inputs[g][k]].isSet
    ensures var d := p.g.inputs[g][k];
      Inv(p, Go(s.(complete := s.complete[d := Ev(false, [g] + s.complete[d].waiters)]), g, DepParked(k)))
  {
    hide SlotsOk, QueueOk, SeenOk;
    var d0 := p.g.inputs[g][k];
    var s' := Go(s.(complete := s.complete[d0 := Ev(false, [g] + s.complete[d0].waiters)]), g, DepParked(k));
    SlotsSame(p, s, s');
    QueuesSame(p, s, s');
    ParkedInRange(p, s);
    SeenSame(p, s, s');
    assert EventOk(p, s.pc, s.complete[d0], d0);
    assert g !in s.complete[d0].waiters;
    forall d | 0 <= d < Size(p) ensures EventOk(p, s'.pc, s'.complete[d], d) {
      assert EventOk(p, s.pc, s.complete[d], d);
    }
  }

  /* ---- taking a slot or parking for one ---- */

  lemma ResetKeeps(p: Params, s: State, isSub: bool)
    requires Inv(p, s)
    ensures Inv(p, Reset(s, isSub)) && Reset(s, isSub).pc == s.pc
  {
    var s' := Reset(s, isSub);
    hide EventOk, SeenOk;
    SlotsSame(p, s, s');
    EventsSame(p, s, s');
    ParkedInRange(p, s);
    SeenSame(p, s, s');
    forall b: bool ensures QueueOk(p, s'.pc, SemOf(s', b), b) {
      assert QueueOk(p, s.pc, SemOf(s, b), b);
    }
  }

  lemma AcquireSlots(p: Params, s: State, g: nat)
    requires Inv(p, s) && g < Size(p) && (s.pc[g].Acquiring? || s.pc[g].SlotWoken?)
    ensures forall b: bool :: SlotsOk(p, TryAcquire(s, g, p.sub[g]).pc, SemOf(TryAcquire(s, g, p.sub[g]), b), b)
  {
    hide QueueOk, EventOk, SeenOk, Count, Holders;
    var s', m := TryAcquire(s, g, p.sub[g]), SemOf(s, p.sub[g]);
    if m.count > 0 {
      forall b: bool ensures SlotsOk(p, s'.pc, SemOf(s', b), b) {
        assert SlotsOk(p, s.pc, SemOf(s, b), b);
        HoldersMore(p, s.pc, s'.pc, g, b);
      }
    } else {
      SlotsSame(p, s, s');
    }
  }

  lemma AcquireQueues(p: Params, s: State, g: nat, b: bool)
    requires Inv(p, s) && g < Size(p) && (s.pc[g].Acquiring? || s.pc[g].SlotWoken?)
    ensures QueueOk(p, TryAcquire(s, g, p.sub[g]).pc, SemOf(TryAcquire(s, g, p.sub[g]), b), b)
  {
    hide SlotsOk, EventOk, SeenOk;
    assert QueueOk(p, s.pc, SemOf(s, p.sub[g]), p.sub[g]);
    assert g !in SemOf(s, p.sub[g]).ev.waiters;
    assert QueueOk(p, s.pc, SemOf(s, b), b);
  }

  lemma AcquireKeeps(p: Params, s: State, g: nat)
    requires Inv(p, s) && g < Size(p) && (s.pc[g].Acquiring? || s.pc[g].SlotWoken?)
    ensures Inv(p, TryAcquire(s, g, p.sub[g]))
  {
    hide SlotsOk, QueueOk, EventOk, SeenOk;
    var s' := TryAcquire(s, g, p.sub[g]);
    AcquireSlots(p, s, g);
    AcquireQueues(p, s, g, false);
    AcquireQueues(p, s, g, true);
    EventsSame(p, s, s');
    ParkedInRange(p, s);
    SeenSame(p, s, s');
  }

  /* ---- returning a slot ---- */

  lemma ReleasedPcs(p: Params, s: State, g: nat, c: Pc, h: nat)
    requires Inv(p, s) && g < Size(p) && Holds(s.pc[g]) && (c.GaveUp? || c.AfterWork?) && h < Size(p)
    ensures Release(Go(s, g, c), p.sub[g]).pc[h]
         == if h in Resumed(SemOf(s, p.sub[g]).ev) then SlotWoken else if h == g then c else s.pc[h]
    ensures h in Resumed(SemOf(s, p.sub[g]).ev) <==> s.pc[h].SlotParked? && p.sub[h] == p.sub[g]
  {
    hide SlotsOk, EventOk, SeenOk;
    assert QueueOk(p, s.pc, SemOf(s, p.sub[g]), p.sub[g]);
    WakeAt(Go(s, g, c).pc, Resumed(SemOf(s, p.sub[g]).ev), h);
  }

  lemma ReleaseSlots(p: Params, s: State, g: nat, c: Pc, b: bool)
    requires Inv(p, s) && g < Size(p) && Holds(s.pc[g]) && (c.GaveUp? || c.AfterWork?)
    ensures SlotsOk(p, Release(Go(s, g, c), p.sub[g]).pc, SemOf(Release(Go(s, g, c), p.sub[g]), b), b)
  {
    hide QueueOk, EventOk, SeenOk, Count, Holders, Wake;
    var s' := Release(Go(s, g, c), p.sub[g]);
    forall h | 0 <= h < Size(p) ensures h != g ==> (Holds(s'.pc[h]) <==> Holds(s.pc[h])) {
      ReleasedPcs(p, s, g, c, h);
    }
    ReleasedPcs(p, s, g, c, g);
    assert SlotsOk(p, s.pc, SemOf(s, b), b);
    HoldersMore(p, s'.pc, s.pc, g, b);
  }

  lemma ReleaseQueues(p: Params, s: State, g: nat, c: Pc, b: bool)
    requires Inv(p, s) && g < Size(p) && Holds(s.pc[g]) && (c.GaveUp? || c.AfterWork?)
    ensures QueueOk(p, Release(Go(s, g, c), p.sub[g]).pc, SemOf(Release(Go(s, g, c), p.sub[g]), b), b)
  {
    hide SlotsOk, EventOk, SeenOk, Wake;
    var s' := Release(Go(s, g, c), p.sub[g]);
    assert QueueOk(p, s.pc, SemOf(s, b), b) && QueueOk(p, s.pc, SemOf(s, p.sub[g]), p.sub[g]);
    forall h | 0 <= h < Size(p)
      ensures h in SemOf(s', b).ev.waiters <==> s'.pc[h].SlotParked? && p.sub[h] == b
    {
      ReleasedPcs(p, s, g, c, h);
    }
  }

  lemma ReleaseKeeps(p: Params, s: State, g: nat, c: Pc)
    requires Inv(p, s) && g < Size(p) && Holds(s.pc[g]) && (c.GaveUp? || c.AfterWork?)
    ensures Inv(p, Release(Go(s, g, c), p.sub[g]))
  {
    hide SlotsOk, QueueOk, EventOk, SeenOk, Wake;
    var s' := Release(Go(s, g, c), p.sub[g]);
    ReleaseSlots(p, s, g, c, false);
    ReleaseSlots(p, s, g, c, true);
    ReleaseQueues(p, s, g, c, false);
    ReleaseQueues(p, s, g, c, true);
    forall h | 0 <= h < Size(p)
      ensures s'.pc[h] == s.pc[h]
        || (!s'.pc[h].DepParked? && !s.pc[h].DepParked? && (Passed(s'.pc[h]) <==> Passed(s.pc[h])))
      ensures Seen(s'.pc[h], |p.g.inputs[h]|) <= Seen(s.pc[h], |p.g.inputs[h]|)
        && (s'.pc[h].DepParked? ==> s'.pc[h] == s.pc[h])
    {
      ReleasedPcs(p, s, g, c, h);
    }
    EventsSame(p, s, s');
    ParkedInRange(p, s);
    SeenSame(p, s, s');
  }

  /* ---- completing ---- */

  lemma CompletedPcs(p: Params, s: State, g: nat, h: nat)
    requires Inv(p, s) && g < Size(p) && s.pc[g].Completing? && h < Size(p)
    ensures var s', woken := Next(p, s, g, true), Resumed(s.complete[g]);
      && !s.complete[g].isSet
      && (h in woken <==> WaitsFor(p, s.pc[h], h, g))
      && s'.pc[h] == (if h in woken then Deps(s.pc[h].k + 1) else if h == g then LastEmit else s.pc[h])
  {
    hide SlotsOk, QueueOk, SeenOk;
    assert EventOk(p, s.pc, s.complete[g], g);
    WakeAt(s.pc[g := LastEmit], Resumed(s.complete[g]), h);
  }

  lemma CompleteEvents(p: Params, s: State, g: nat, d: nat)
    requires Inv(p, s) && g < Size(p) && s.pc[g].Completing? && d < Size(p)
    ensures EventOk(p, Next(p, s, g, true).pc, Next(p, s, g, true).complete[d], d)
  {
    hide SlotsOk, QueueOk, SeenOk, Wake;
    var s' := Next(p, s, g, true);
    assert EventOk(p, s.pc, s.complete[d], d);
    CompletedPcs(p, s, g, d);
    forall h | 0 <= h < Size(p) ensures h in s'.complete[d].waiters <==> WaitsFor(p, s'.pc[h], h, d) {
      CompletedPcs(p, s, g, h);
    }
  }

  lemma CompleteSeen(p: Params, s: State, g: nat, h: nat)
    requires Inv(p, s) && g < Size(p) && s.pc[g].Completing? && h < Size(p)
    ensures SeenOk(p, Next(p, s, g, true), h)
  {
    hide SlotsOk, QueueOk, EventOk, Wake;
    CompletedPcs(p, s, g, h);
    assert SeenOk(p, s, h);
  }

  lemma CompleteKeeps(p: Params, s: State, g: nat)
    requires Inv(p, s) && g < Size(p) && s.pc[g].Completing?
    ensures Inv(p, Next(p, s, g, true))
  {
    hide SlotsOk, QueueOk, EventOk, SeenOk, Wake;
    var s' := Next(p, s, g, true);
    forall h | 0 <= h < Size(p)
      ensures Holds(s'.pc[h]) <==> Holds(s.pc[h])
      ensures s'.pc[h].SlotParked? <==> s.pc[h].SlotParked?
    {
      CompletedPcs(p, s, g, h);
    }
    SlotsSame(p, s, s');
    QueuesSame(p, s, s');
    forall d | 0 <= d < Size(p) ensures EventOk(p, s'.pc, s'.complete[d], d) && SeenOk(p, s', d) {
      CompleteEvents(p, s, g, d);
      CompleteSeen(p, s, g, d);
    }
  }

  /* ---- any step ---- */

  lemma DepsStepKeeps(p: Params, s: State, g: nat, ok: bool)
    requires Inv(p, s) && g < Size(p) && s.pc[g].Deps?
    ensures Inv(p, Next(p, s, g, ok))
  {
    hide SlotsOk, QueueOk, EventOk;
    var ins, k := p.g.inputs[g], s.pc[g].k;
    assert SeenOk(p, s, g);
    if ok && k < |ins| {
      assert ins[k] in ins;
      if s.complete[ins[k]].isSet {
        GoKeeps(p, s, g, Deps(k + 1));
      } else {
        DepParkKeeps(p, s, g, k);
      }
    } else {
      GoKeeps(p, s, g, if ok then BeforeSlot else GaveUp);
    }
  }

  /** Whatever goal runs next, and whatever its checks and deliveries yield, the invariant is kept. */
  lemma StepKeeps(p: Params, s: State, g: nat, ok: bool)
    requires Inv(p, s) && g < Size(p) && CanStep(s.pc[g])
    ensures Inv(p, Next(p, s, g, ok))
  {
    hide Inv, TryAcquire, Release, Reset, Wake;
    InvMeans(p, s);
    match s.pc[g] {
      case Deps(_) => DepsStepKeeps(p, s, g, ok);
      case Acquiring => AcquireKeeps(p, s, g);
      case SlotWoken =>
        ResetKeeps(p, s, p.sub[g]);
        AcquireKeeps(p, Reset(s, p.sub[g]), g);
      case Acquired => if ok { GoKeeps(p, s, g, EmittingSlot); } else { ReleaseKeeps(p, s, g, GaveUp); }
      case EmittingSlot => if ok { GoKeeps(p, s, g, EmittingWork); } else { ReleaseKeeps(p, s, g, GaveUp); }
      case EmittingWork => if ok { GoKeeps(p, s, g, Working(p.lines[g])); } else { ReleaseKeeps(p, s, g, GaveUp); }
      case Releasing => ReleaseKeeps(p, s, g, AfterWork);
      case Completing => CompleteKeeps(p, s, g);
      case Fresh => GoKeeps(p, s, g, if ok then Announcing else GaveUp);
      case Announcing =>
        GoKeeps(p, s, g, if !ok then GaveUp else if p.g.inputs[g] == [] then BeforeSlot else AnnouncingWait);
      case AnnouncingWait => GoKeeps(p, s, g, if ok then Deps(0) else GaveUp);
      case BeforeSlot => GoKeeps(p, s, g, if ok then Acquiring else GaveUp);
      case Working(left) => GoKeeps(p, s, g, if ok && left > 0 then Working(left - 1) else Releasing);
      case AfterWork => GoKeeps(p, s, g, if ok then EmittingDone else GaveUp);
      case EmittingDone => GoKeeps(p, s, g, if ok then Completing else GaveUp);
      case LastEmit => GoKeeps(p, s, g, Returned);
    }
  }

  lemma InvMeans(p: Params, s: State)
    requires Inv(p, s)
    ensures Valid(p) && Shaped(p, s)
  {
  }
}
