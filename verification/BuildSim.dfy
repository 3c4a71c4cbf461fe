/** The coroutine simulator with its objects: resettable events, the semaphore built on one,
    and the goals. */
module BuildSim {
  import opened DepGraph
  import opened TaskModel
  import opened TaskInv
  import opened TaskRuns

  /** A manually reset event. Waiters form a stack; setting the event hands them all back. */
  class Event {
    var isSet: bool
    var waiters: seq<nat>

    ghost predicate Valid()
      reads this
    {
      isSet ==> waiters == []
    }

    ghost function Contents(): Ev
      reads this
    {
      Ev(isSet, waiters)
    }

    constructor ()
      ensures Valid() && Contents() == Ev(false, [])
    {
      isSet, waiters := false, [];
    }

    method Set() returns (resumed: seq<nat>)
      requires Valid()
      modifies this
      ensures Valid() && Contents() == SetEv(old(Contents())) && resumed == Resumed(old(Contents()))
    {
      resumed := waiters;
      isSet, waiters := true, [];
    }

    method Reset()
      requires Valid()
      modifies this
      ensures Valid() && Contents() == if old(isSet) then Ev(false, []) else old(Contents())
    {
      if isSet {
        isSet := false;
      }
    }

    /** Goal `g` awaits the event: it goes on at once if the event is set, and is parked otherwise. */
    method Await(g: nat) returns (parked: bool)
      requires Valid()
      modifies this
      ensures Valid() && parked == !old(isSet)
      ensures Contents() == if parked then Ev(false, [g] + old(waiters)) else old(Contents())
    {
      parked := !isSet;
      if parked {
        waiters := [g] + waiters;
      }
    }
  }

  class Semaphore {
    var count: nat
    const event: Event

    ghost predicate Valid()
      reads this, event
    {
      event.Valid()
    }

    ghost function Contents(): Sem
      reads this, event
    {
      Sem(count, event.Contents())
    }

    constructor (n: nat)
      ensures Valid() && Contents() == Sem(n, Ev(false, [])) && fresh(event)
    {
      count := n;
      event := new Event();
    }

    /** The loop of `acquire`, entered from the start or, when `resumed`, after the wait inside it. */
    method Acquire(g: nat, resumed: bool) returns (taken: bool)
      requires Valid()
      modifies this, event
      ensures Valid() && taken == (old(count) > 0)
      ensures taken ==> count == old(count) - 1
      ensures taken ==> event.Contents() == if resumed && old(event.isSet) then Ev(false, []) else old(event.Contents())
      ensures !taken ==> Contents() == Sem(0, Ev(false, [g] + old(event.waiters)))
    {
      if resumed {
        event.Reset();
      }
      while count == 0
        invariant Valid() && count == old(count)
        invariant old(event.isSet) ==> event.waiters == old(event.waiters) == []
        invariant !old(event.isSet) ==> event.waiters == old(event.waiters) && !event.isSet
        invariant count > 0 ==>
          event.Contents() == if resumed && old(event.isSet) then Ev(false, []) else old(event.Contents())
        decreases event.isSet
      {
        var parked := event.Await(g);
        if parked {
          return false;
        }
        event.Reset();
      }
      count := count - 1;
      taken := true;
    }

    method Release() returns (resumed: seq<nat>)
      requires Valid()
      modifies this, event
      ensures Valid() && Contents() == Sem(old(count) + 1, SetEv(old(event.Contents())))
      ensures resumed == Resumed(old(event.Contents()))
    {
      count := count + 1;
      resumed := event.Set();
    }
  }

  ghost function EventsOf(es: seq<Event>): (r: seq<Ev>)
    reads es
    ensures |r| == |es| && forall g | 0 <= g < |es| :: r[g] == es[g].Contents()
  {
    if es == [] then [] else EventsOf(es[..|es| - 1]) + [es[|es| - 1].Contents()]
  }

  method MakeEvents(n: nat) returns (events: seq<Event>)
    ensures |events| == n && forall g | 0 <= g < n :: fresh(events[g]) && events[g].Contents() == Ev(false, [])
    ensures forall a, b | 0 <= a < b < n :: events[a] != events[b]
  {
    events := [];
    for i := 0 to n
      invariant |events| == i && forall g | 0 <= g < i :: fresh(events[g]) && events[g].Contents() == Ev(false, [])
      invariant forall a, b | 0 <= a < b < i :: events[a] != events[b]
    {
      var e := new Event();
      events := events + [e];
    }
  }

  class Simulator {
    const p: Params
    var pc: seq<Pc>
    const buildSlots: Semaphore
    const substSlots: Semaphore
    const goalComplete: seq<Event>
    var completedCount: nat

    ghost predicate Valid()
      reads this, buildSlots, substSlots, buildSlots.event, substSlots.event, goalComplete
    {
      && TaskModel.Valid(p) && |pc| == |goalComplete| == Size(p)
      && buildSlots != substSlots && buildSlots.event != substSlots.event
      && buildSlots.event !in goalComplete && substSlots.event !in goalComplete
      && (forall i, j | 0 <= i < j < |goalComplete| :: goalComplete[i] != goalComplete[j])
      && buildSlots.Valid() && substSlots.Valid() && forall g | 0 <= g < |goalComplete| :: goalComplete[g].Valid()
    }

    ghost function Contents(): State
      reads this, buildSlots, substSlots, buildSlots.event, substSlots.event, goalComplete
    {
      State(pc, buildSlots.Contents(), substSlots.Contents(), EventsOf(goalComplete), completedCount)
    }

    /** Everything reset, and one goal per node. */
    constructor (params: Params)
      requires TaskModel.Valid(params)
      ensures p == params && Valid() && Contents() == Initial(p)
      ensures fresh(buildSlots) && fresh(substSlots) && fresh(buildSlots.event) && fresh(substSlots.event)
      ensures forall g | 0 <= g < |goalComplete| :: fresh(goalComplete[g])
    {
      var build := new Semaphore(params.maxJobs);
      var subst := new Semaphore(params.maxSubs);
      var events := MakeEvents(Size(params));
      p, pc, completedCount := params, seq(Size(params), i => Fresh), 0;
      buildSlots, substSlots, goalComplete := build, subst, events;
    }

    /** Resume goals that were parked. */
    method Resume(gs: seq<nat>)
      modifies this`pc
      ensures pc == Wake(old(pc), gs)
    {
      for k := 0 to |gs|
        invariant |pc| == |old(pc)| && Wake(old(pc), gs) == Wake(pc, gs[k..])
      {
        assert gs[k..][1..] == gs[k + 1..];
        if gs[k] < |pc| {
          pc := pc[gs[k] := Awake(pc[gs[k]])];
        }
      }
    }

    method ReleaseSlot(isSub: bool)
      requires Valid()
      modifies this`pc, buildSlots, substSlots, buildSlots.event, substSlots.event
      ensures Valid() && Contents() == Release(old(Contents()), isSub)
    {
      hide EventsOf, Wake;
      var resumed;
      if isSub {
        resumed := substSlots.Release();
      } else {
        resumed := buildSlots.Release();
      }
      assert EventsOf(goalComplete) == old(EventsOf(goalComplete));
      Resume(resumed);
    }

    method AcquireSlot(g: nat, isSub: bool)
      requires Valid() && g < |pc| && (pc[g].Acquiring? || pc[g].SlotWoken?)
      modifies this`pc, buildSlots, substSlots, buildSlots.event, substSlots.event
      ensures Valid()
      ensures Contents() ==
        TryAcquire(if old(pc[g]).SlotWoken? then Reset(old(Contents()), isSub) else old(Contents()), g, isSub)
    {
      hide EventsOf;
      var resumed := pc[g].SlotWoken?;
      var taken;
      if isSub {
        taken := substSlots.Acquire(g, resumed);
      } else {
        taken := buildSlots.Acquire(g, resumed);
      }
      assert EventsOf(goalComplete) == old(EventsOf(goalComplete));
      pc := pc[g := if taken then Acquired else SlotParked];
    }

    method GiveUp(g: nat)
      requires g < |pc|
      modifies this`pc
      ensures pc == old(pc)[g := GaveUp]
    {
      pc := pc[g := GaveUp];
    }

    method AwaitInput(g: nat, k: nat)
      requires Valid() && g < |pc| && k < |p.g.inputs[g]|
      modifies this`pc, goalComplete
      ensures Valid()
      ensures p.g.inputs[g][k] < Size(p)
      ensures var s, d := old(Contents()), p.g.inputs[g][k];
        Contents() == if s.complete[d].isSet then Go(s, g, Deps(k + 1))
                      else Go(s.(complete := s.complete[d := Ev(false, [g] + s.complete[d].waiters)]), g, DepParked(k))
    {
      hide EventsOf;
      var d := p.g.inputs[g][k];
      assert d in p.g.inputs[g];
      ghost var before := EventsOf(goalComplete);
      var parked := goalComplete[d].Await(g);
      assert EventsOf(goalComplete) == before[d := goalComplete[d].Contents()];
      assert !parked ==> EventsOf(goalComplete) == before;
      pc := pc[g := if parked then DepParked(k) else Deps(k + 1)];
    }

    method Complete(g: nat)
      requires Valid() && g < |pc| && pc[g].Completing?
      modifies this`pc, this`completedCount, goalComplete
      ensures Valid() && Contents() == Next(p, old(Contents()), g, true)
    {
      hide EventsOf, Wake;
      ghost var before := EventsOf(goalComplete);
      completedCount := completedCount + 1;
      var resumed := goalComplete[g].Set();
      assert EventsOf(goalComplete) == before[g := goalComplete[g].Contents()];
      pc := pc[g := LastEmit];
      Resume(resumed);
    }

    /** Goal `g` runs on to its next check or suspension; `ok` is what the check yields. */
    method RunGoal(g: nat, ok: bool)
      requires Valid() && g < Size(p) && CanStep(pc[g])
      modifies this, buildSlots, substSlots, buildSlots.event, substSlots.event, goalComplete
      ensures Valid() && Contents() == Next(p, old(Contents()), g, ok)
    {
      hide EventsOf, Wake, TryAcquire, Reset, Release;
      if Holds(pc[g]) {
        RunHolding(g, ok);
        return;
      }
      match pc[g] {
        case Fresh => Check(g, ok, Announcing);
        case Announcing => Check(g, ok, if p.g.inputs[g] == [] then BeforeSlot else AnnouncingWait);
        case AnnouncingWait => Check(g, ok, Deps(0));
        case Deps(k) => WaitForInput(g, ok, k);
        case BeforeSlot => Check(g, ok, Acquiring);
        case Acquiring => AcquireSlot(g, p.sub[g]);
        case SlotWoken => AcquireSlot(g, p.sub[g]);
        case AfterWork => Check(g, ok, EmittingDone);
        case EmittingDone => Check(g, ok, Completing);
        case Completing => Complete(g);
        case LastEmit => pc := pc[g := Returned];
      }
    }

    /** While the goal owns a slot. */
    method RunHolding(g: nat, ok: bool)
      requires Valid() && g < Size(p) && Holds(pc[g])
      modifies this`pc, buildSlots, substSlots, buildSlots.event, substSlots.event
      ensures Valid() && Contents() == Next(p, old(Contents()), g, ok)
    {
      hide EventsOf, Wake, TryAcquire, Reset, Release;
      match pc[g] {
        case Acquired => CheckHolding(g, ok, EmittingSlot);
        case EmittingSlot => CheckHolding(g, ok, EmittingWork);
        case EmittingWork => CheckHolding(g, ok, Working(p.lines[g]));
        case Working(left) => pc := pc[g := if ok && left > 0 then Working(left - 1) else Releasing];
        case Releasing =>
          pc := pc[g := AfterWork];
          ReleaseSlot(p.sub[g]);
      }
    }

    /** The loop over the inputs, one turn. */
    method WaitForInput(g: nat, ok: bool, k: nat)
      requires Valid() && g < Size(p) && pc[g] == Deps(k)
      modifies this`pc, goalComplete
      ensures Valid() && Contents() == Next(p, old(Contents()), g, ok)
    {
      hide EventsOf;
      if ok && k < |p.g.inputs[g]| {
        AwaitInput(g, k);
      } else {
        Check(g, ok, BeforeSlot);
      }
    }

    method Check(g: nat, ok: bool, next: Pc)
      requires Valid() && g < |pc|
      modifies this`pc
      ensures Valid() && Contents() == Go(old(Contents()), g, if ok then next else GaveUp)
    {
      if ok {
        pc := pc[g := next];
      } else {
        GiveUp(g);
      }
    }

    /** A check while owning a slot: giving up returns it. */
    method CheckHolding(g: nat, ok: bool, next: Pc)
      requires Valid() && g < Size(p)
      modifies this`pc, buildSlots, substSlots, buildSlots.event, substSlots.event
      ensures Valid()
      ensures Contents() ==
        if ok then Go(old(Contents()), g, next) else Release(Go(old(Contents()), g, GaveUp), p.sub[g])
    {
      if ok {
        pc := pc[g := next];
      } else {
        GiveUp(g);
        ReleaseSlot(p.sub[g]);
      }
    }
  }

  /** All goals run in any order, with any outcomes of their checks, until none can run: every slot
      is returned. On an acyclic graph with a slot for every kind, a goal returned exactly if
      nothing it depends on gave up, and if all checks succeeded every goal completed. */
  method Build(p: Params) returns (s: Simulator, allOk: bool)
    requires TaskModel.Valid(p)
    ensures s.p == p && s.Valid() && Inv(p, s.Contents()) && Stuck(s.Contents())
    ensures s.buildSlots.count == p.maxJobs && s.substSlots.count == p.maxSubs
    ensures SlotsForAll(p) && Acyclic(p.g) ==> forall g | 0 <= g < Size(p) ::
      s.pc[g].Returned? <==> forall q: seq<nat> :: !Blames(p, s.Contents(), g, q)
    ensures SlotsForAll(p) && Acyclic(p.g) && allOk ==>
      s.completedCount == Size(p) && forall g | 0 <= g < Size(p) :: s.pc[g].Returned?
  {
    hide Inv, TaskModel.Valid, SlotsForAll, Acyclic, Next, CompletedOk, StepsLeft, WokenLeft, Blames, Initial;
    s := new Simulator(p);
    allOk := true;
    InitialOk(p);
    CompletedBegins(p);
    NobodyYet(p);
    while exists g | 0 <= g < |s.pc| :: CanStep(s.pc[g])
      invariant s.p == p && s.Valid() && |s.pc| == Size(p) && AllFresh(s)
      invariant Inv(p, s.Contents()) && CompletedOk(p, s.Contents()) && Shaped(p, s.Contents())
      invariant allOk ==> forall g | 0 <= g < Size(p) :: !s.pc[g].GaveUp?
      decreases StepsLeft(p, s.Contents()), WokenLeft(p, s.Contents())
    {
      var g :| 0 <= g < |s.pc| && CanStep(s.pc[g]);
      var ok: bool := *;
      ghost var c := s.Contents();
      StepKeeps(p, c, g, ok);
      StepDecreases(p, c, g, ok);
      CompletedKeeps(p, c, g, ok);
      allOk := allOk && ok;
      if allOk {
        NobodyGivesUp(p, c, g);
      }
      s.RunGoal(g, ok);
    }
    ghost var c := s.Contents();
    SlotsReturned(p, c, false);
    SlotsReturned(p, c, true);
    if SlotsForAll(p) && Acyclic(p.g) {
      forall g | 0 <= g < Size(p)
        ensures s.pc[g].Returned? <==> forall q: seq<nat> :: !Blames(p, c, g, q)
      {
        ReturnedIff(p, c, g);
      }
      if allOk {
        NotStuckUnlessDone(p, c);
        AllCompleted(p, c);
      }
    }
  }

  lemma NobodyYet(p: Params)
    requires TaskModel.Valid(p)
    ensures forall g | 0 <= g < Size(p) :: !Initial(p).pc[g].GaveUp?
  {
  }

  /** All of the simulator's objects are new. */
  twostate predicate AllFresh(new s: Simulator) {
    && fresh(s) && fresh(s.buildSlots) && fresh(s.substSlots) && fresh(s.buildSlots.event) && fresh(s.substSlots.event)
    && forall g | 0 <= g < |s.goalComplete| :: fresh(s.goalComplete[g])
  }
}
