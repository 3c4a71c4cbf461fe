/** Whole runs of the coroutine simulator: they end, they get stuck only behind goals that gave
    up, and otherwise every goal completes. */
module TaskRuns {
  import opened DepGraph
  import opened GraphPaths
  import opened TaskModel
  import opened TaskInv

  /** No goal can run. */
  predicate Stuck(s: State) {
    forall g | 0 <= g < |s.pc| :: !CanStep(s.pc[g])
  }

  predicate SlotsForAll(p: Params)
    requires Valid(p)
  {
    forall g | 0 <= g < Size(p) :: Cap(p, p.sub[g]) >= 1
  }

  /* ---- when nothing can run ---- */

  /** A parked goal means that all slots of its kind are taken, so a goal owning one can run. */
  lemma NobodyWaitsForSlots(p: Params, s: State, g: nat)
    requires Inv(p, s) && Stuck(s) && SlotsForAll(p) && g < Size(p)
    ensures !s.pc[g].SlotParked?
  {
    hide EventOk, SeenOk;
    var b := p.sub[g];
    assert SlotsOk(p, s.pc, SemOf(s, b), b) && QueueOk(p, s.pc, SemOf(s, b), b);
    forall h: nat ensures h !in Holders(p, s.pc, b) {
      assert h < |s.pc| ==> !CanStep(s.pc[h]);
    }
    SumZero(Ones(Size(p)), Holders(p, s.pc, b));
  }

  /** All slots are free again. */
  lemma SlotsReturned(p: Params, s: State, b: bool)
    requires Inv(p, s) && Stuck(s)
    ensures SemOf(s, b).count == Cap(p, b)
  {
    hide EventOk, SeenOk, QueueOk;
    assert SlotsOk(p, s.pc, SemOf(s, b), b);
    forall h: nat ensures h !in Holders(p, s.pc, b) {
      assert h < |s.pc| ==> !CanStep(s.pc[h]);
    }
    SumZero(Ones(Size(p)), Holders(p, s.pc, b));
  }

  /** A path down to a goal that gave up. */
  ghost predicate Blames(p: Params, s: State, g: nat, q: seq<nat>) {
    IsPath(p.g, q) && q[0] == g && q[|q| - 1] < |s.pc| && s.pc[q[|q| - 1]].GaveUp?
  }

  /** A goal that has not returned depends, through goals that have not returned, on one that gave up. */
  lemma {:induction false} BlameExists(p: Params, s: State, rank: seq<nat>, g: nat) returns (q: seq<nat>)
    requires Inv(p, s) && Stuck(s) && SlotsForAll(p) && IsRank(p.g, rank)
    requires g < Size(p) && !s.pc[g].Returned?
    ensures Blames(p, s, g, q)
    decreases rank[g]
  {
    assert !CanStep(s.pc[g]);
    NobodyWaitsForSlots(p, s, g);
    if s.pc[g].GaveUp? {
      q := [g];
    } else {
      assert SeenOk(p, s, g);
      var d := p.g.inputs[g][s.pc[g].k];
      assert d in p.g.inputs[g];
      assert EventOk(p, s.pc, s.complete[d], d);
      assert WaitsFor(p, s.pc[g], g, d);
      var rest := BlameExists(p, s, rank, d);
      PathCons(p.g, g, rest);
      q := [g] + rest;
    }
  }

  lemma InputReturned(p: Params, s: State, g: nat, d: nat)
    requires Inv(p, s) && Stuck(s) && g < Size(p) && s.pc[g].Returned? && d in p.g.inputs[g]
    ensures d < Size(p) && s.pc[d].Returned?
  {
    hide SlotsOk, QueueOk;
    assert SeenOk(p, s, g);
    var k :| 0 <= k < |p.g.inputs[g]| && p.g.inputs[g][k] == d;
    assert EventOk(p, s.pc, s.complete[d], d);
    assert !CanStep(s.pc[d]);
  }

  lemma {:induction false} PathReturned(p: Params, s: State, q: seq<nat>, k: nat)
    requires Inv(p, s) && Stuck(s) && IsPath(p.g, q) && s.pc[q[0]].Returned? && k < |q|
    ensures s.pc[q[k]].Returned?
    decreases k
  {
    if k == 0 {
    } else {
      PathReturned(p, s, q, k - 1);
      InputReturned(p, s, q[k - 1], q[k]);
    }
  }

  /** Once nothing can run, a goal has returned if and only if neither it nor anything it
      depends on gave up; the others are parked for good. */
  lemma ReturnedIff(p: Params, s: State, g: nat)
    requires Inv(p, s) && Stuck(s) && SlotsForAll(p) && Acyclic(p.g) && g < Size(p)
    ensures s.pc[g].Returned? <==> forall q: seq<nat> :: !Blames(p, s, g, q)
  {
    if s.pc[g].Returned? {
      forall q: seq<nat> ensures !Blames(p, s, g, q) {
        if IsPath(p.g, q) && q[0] == g {
          PathReturned(p, s, q, |q| - 1);
        }
      }
    } else {
      var rank :| IsRank(p.g, rank);
      var q := BlameExists(p, s, rank, g);
    }
  }

  /* ---- where a step moves the goals ---- */

  /** The step returns a slot. */
  predicate Returns(c: Pc, ok: bool) { c.Releasing? || (Holds(c) && !c.Working? && !ok) }

  /** Other goals stay where they are, except that a returned slot wakes those parked for it and a
      completed goal wakes those waiting for it. */
  lemma OthersMove(p: Params, s: State, g: nat, ok: bool, h: nat)
    requires Inv(p, s) && g < Size(p) && CanStep(s.pc[g]) && h < Size(p) && h != g
    ensures var pc' := Next(p, s, g, ok).pc;
      pc'[h] == if s.pc[h].SlotParked? && Returns(s.pc[g], ok) && p.sub[h] == p.sub[g] then SlotWoken
                else if s.pc[g].Completing? && WaitsFor(p, s.pc[h], h, g) then Deps(s.pc[h].k + 1)
                else s.pc[h]
  {
    hide Inv, Wake, Awake;
    InvMeans(p, s);
    if Returns(s.pc[g], ok) {
      ReleasedPcs(p, s, g, if s.pc[g].Releasing? then AfterWork else GaveUp, h);
    } else if s.pc[g].Completing? {
      CompletedPcs(p, s, g, h);
    }
  }

  /** What a goal that looks for an input or a slot depends on: the input has completed; fewer goals own a slot of
      its kind than there are. */
  predicate MayGoOn(p: Params, s: State, g: nat)
    requires Valid(p) && Shaped(p, s) && g < Size(p)
  {
    match s.pc[g]
    case Deps(k) => k < |p.g.inputs[g]| && p.g.inputs[g][k] < Size(p) && Passed(s.pc[p.g.inputs[g][k]])
    case Acquiring => Count(Size(p), Holders(p, s.pc, p.sub[g])) < Cap(p, p.sub[g])
    case SlotWoken => Count(Size(p), Holders(p, s.pc, p.sub[g])) < Cap(p, p.sub[g])
    case _ => false
  }

  lemma InputSeen(p: Params, s: State, g: nat, k: nat)
    requires Inv(p, s) && g < Size(p) && k < |p.g.inputs[g]|
    ensures p.g.inputs[g][k] < |s.complete| == Size(p) == |s.pc|
    ensures s.complete[p.g.inputs[g][k]].isSet <==> Passed(s.pc[p.g.inputs[g][k]])
  {
    hide SlotsOk, QueueOk, SeenOk;
    assert p.g.inputs[g][k] in p.g.inputs[g];
    assert EventOk(p, s.pc, s.complete[p.g.inputs[g][k]], p.g.inputs[g][k]);
  }

  lemma SlotFree(p: Params, s: State, b: bool)
    requires Inv(p, s)
    ensures SemOf(s, b).count > 0 <==> Count(Size(p), Holders(p, s.pc, b)) < Cap(p, b)
  {
    hide EventOk, QueueOk, SeenOk;
    assert SlotsOk(p, s.pc, SemOf(s, b), b);
  }

  /** Where the goal that runs goes itself. */
  lemma ItselfMoves(p: Params, s: State, g: nat, ok: bool)
    requires Inv(p, s) && g < Size(p) && CanStep(s.pc[g])
    ensures Moves(s.pc[g], Next(p, s, g, ok).pc[g], ok, p.lines[g], |p.g.inputs[g]|, MayGoOn(p, s, g))
  {
    hide Inv, Wake, Awake, Count, Holders;
    InvMeans(p, s);
    if Returns(s.pc[g], ok) {
      ReleasedPcs(p, s, g, if s.pc[g].Releasing? then AfterWork else GaveUp, g);
    } else if s.pc[g].Completing? {
      CompletedPcs(p, s, g, g);
    } else if s.pc[g].Deps? && s.pc[g].k < |p.g.inputs[g]| {
      InputSeen(p, s, g, s.pc[g].k);
    } else if s.pc[g].Acquiring? || s.pc[g].SlotWoken? {
      SlotFree(p, s, p.sub[g]);
    }
  }

  predicate Moves(c: Pc, c': Pc, ok: bool, lines: nat, deps: nat, goOn: bool) {
    match c
    case Fresh => c' == if ok then Announcing else GaveUp
    case Announcing => c' == if !ok then GaveUp else if deps == 0 then BeforeSlot else AnnouncingWait
    case AnnouncingWait => c' == if ok then Deps(0) else GaveUp
    case Deps(k) =>
      c' == if !ok then GaveUp else if k >= deps then BeforeSlot else if goOn then Deps(k + 1) else DepParked(k)
    case BeforeSlot => c' == if ok then Acquiring else GaveUp
    case Acquiring => c' == if goOn then Acquired else SlotParked
    case SlotWoken => c' == if goOn then Acquired else SlotParked
    case Acquired => c' == if ok then EmittingSlot else GaveUp
    case EmittingSlot => c' == if ok then EmittingWork else GaveUp
    case EmittingWork => c' == if ok then Working(lines) else GaveUp
    case Working(left) => c' == if ok && left > 0 then Working(left - 1) else Releasing
    case Releasing => c' == AfterWork
    case AfterWork => c' == if ok then EmittingDone else GaveUp
    case EmittingDone => c' == if ok then Completing else GaveUp
    case Completing => c' == LastEmit
    case LastEmit => c' == Returned
    case _ => false
  }

  /** Without shutdown or failed deliveries no goal gives up, so no reachable unfinished state is stuck. */
  lemma NotStuckUnlessDone(p: Params, s: State)
    requires Inv(p, s) && SlotsForAll(p) && Acyclic(p.g)
    requires forall g | 0 <= g < Size(p) :: !s.pc[g].GaveUp?
    ensures Stuck(s) ==> forall g | 0 <= g < Size(p) :: s.pc[g].Returned?
  {
    if Stuck(s) {
      forall g | 0 <= g < Size(p) ensures s.pc[g].Returned? {
        ReturnedIff(p, s, g);
        forall q: seq<nat> ensures !Blames(p, s, g, q) {
          if IsPath(p.g, q) {
            assert q[|q| - 1] < Size(p);
          }
        }
      }
    }
  }

  lemma NobodyGivesUp(p: Params, s: State, g: nat)
    requires Inv(p, s) && g < Size(p) && CanStep(s.pc[g])
    requires forall h | 0 <= h < Size(p) :: !s.pc[h].GaveUp?
    ensures forall h | 0 <= h < Size(p) :: !Next(p, s, g, true).pc[h].GaveUp?
  {
    hide Inv, Next;
    InvMeans(p, s);
    forall h | 0 <= h < Size(p) ensures !Next(p, s, g, true).pc[h].GaveUp? {
      if h == g {
        ItselfMoves(p, s, g, true);
      } else {
        OthersMove(p, s, g, true, h);
      }
    }
  }

  /** A goal that gave up never sets its event, and a goal parked on it stays parked. */
  lemma ParkedForGood(p: Params, s: State, g: nat, ok: bool, d: nat, h: nat)
    requires Inv(p, s) && g < Size(p) && CanStep(s.pc[g]) && d < Size(p) && h < Size(p)
    requires s.pc[d].GaveUp? && WaitsFor(p, s.pc[h], h, d)
    ensures Next(p, s, g, ok).pc[d] == s.pc[d] && Next(p, s, g, ok).pc[h] == s.pc[h]
  {
    hide Inv, Next;
    InvMeans(p, s);
    OthersMove(p, s, g, ok, d);
    OthersMove(p, s, g, ok, h);
  }

  /* ---- a goal owns a slot only after all its inputs completed ---- */

  lemma WorksAfterInputs(p: Params, s: State, g: nat)
    requires Inv(p, s) && g < Size(p) && Holds(s.pc[g])
    ensures forall j | 0 <= j < |p.g.inputs[g]| :: p.g.inputs[g][j] < Size(p) && Passed(s.pc[p.g.inputs[g][j]])
  {
    hide SlotsOk, QueueOk;
    assert SeenOk(p, s, g);
    forall j | 0 <= j < |p.g.inputs[g]| ensures p.g.inputs[g][j] < Size(p) && Passed(s.pc[p.g.inputs[g][j]]) {
      var d := p.g.inputs[g][j];
      assert EventOk(p, s.pc, s.complete[d], d);
    }
  }

  /* ---- every run ends ---- */

  /** How many more steps a goal needs at most, not counting looking again for a slot. */
  function Rem(c: Pc, lines: nat, deps: nat): nat {
    match c
    case Returned => 0
    case GaveUp => 0
    case LastEmit => 1
    case Completing => 2
    case EmittingDone => 3
    case AfterWork => 4
    case Releasing => 5
    case Working(left) => 6 + left
    case EmittingWork => 7 + lines
    case EmittingSlot => 8 + lines
    case Acquired => 9 + lines
    case SlotParked => 10 + lines
    case SlotWoken => 10 + lines
    case Acquiring => 11 + lines
    case BeforeSlot => 12 + lines
    case Deps(k) => 13 + lines + if k < deps then 2 * (deps - k) else 0
    case DepParked(k) => 12 + lines + if k < deps then 2 * (deps - k) else 0
    case AnnouncingWait => 14 + lines + 2 * deps
    case Announcing => 15 + lines + 2 * deps
    case Fresh => 16 + lines + 2 * deps
  }

  function Rems(p: Params, s: State): (w: seq<nat>)
    requires Valid(p) && Shaped(p, s)
    ensures |w| == Size(p) && forall g | 0 <= g < Size(p) :: w[g] == Rem(s.pc[g], p.lines[g], |p.g.inputs[g]|)
  {
    seq(Size(p), g requires 0 <= g < Size(p) => Rem(s.pc[g], p.lines[g], |p.g.inputs[g]|))
  }

  function StepsLeft(p: Params, s: State): nat
    requires Valid(p) && Shaped(p, s)
  {
    Sum(Rems(p, s), Numbers(Size(p)))
  }

  function WokenSet(s: State): set<nat> { set g | 0 <= g < |s.pc| && s.pc[g].SlotWoken? }

  function WokenLeft(p: Params, s: State): nat { Count(Size(p), WokenSet(s)) }

  lemma SumLess(w: seq<nat>, v: seq<nat>, i: nat)
    requires |w| == |v| && i < |w| && w[i] < v[i] && forall k | 0 <= k < |w| :: w[k] <= v[k]
    ensures Sum(w, Numbers(|w|)) < Sum(v, Numbers(|w|))
  {
    var all := Numbers(|w|);
    SumRemove(w, all, i);
    SumRemove(v, all, i);
    SumMono(w, v, all - {i}, all - {i});
  }

  lemma SeenInRange(p: Params, s: State, g: nat, ok: bool)
    requires Inv(p, s) && g < Size(p) && CanStep(s.pc[g])
    ensures s.pc[g].Deps? && !Next(p, s, g, ok).pc[g].GaveUp? && !Next(p, s, g, ok).pc[g].BeforeSlot?
      ==> s.pc[g].k < |p.g.inputs[g]|
  {
    hide Inv, Wake, TryAcquire, Release;
    InvMeans(p, s);
  }

  /** How a step moves the goals: the one that runs makes progress, others only wake up. */
  lemma StepProgress(p: Params, s: State, g: nat, ok: bool, h: nat)
    requires Inv(p, s) && g < Size(p) && CanStep(s.pc[g]) && h < Size(p)
    ensures var s', lines, deps := Next(p, s, g, ok), p.lines[h], |p.g.inputs[h]|;
      && Rem(s'.pc[h], lines, deps) <= Rem(s.pc[h], lines, deps)
      && (h == g && !(s.pc[g].SlotWoken? && s'.pc[g].SlotParked?) ==>
            Rem(s'.pc[h], lines, deps) < Rem(s.pc[h], lines, deps))
      && (s.pc[g].SlotWoken? && h != g ==> s'.pc[h] == s.pc[h])
  {
    hide Inv, Next;
    InvMeans(p, s);
    if h == g {
      SeenInRange(p, s, g, ok);
      ItselfMoves(p, s, g, ok);
    } else {
      OthersMove(p, s, g, ok, h);
    }
  }

  /** Every step makes the pair of measures smaller, so every run ends. */
  lemma StepDecreases(p: Params, s: State, g: nat, ok: bool)
    requires Inv(p, s) && g < Size(p) && CanStep(s.pc[g])
    ensures StepsLeft(p, Next(p, s, g, ok)) < StepsLeft(p, s)
      || (StepsLeft(p, Next(p, s, g, ok)) == StepsLeft(p, s) && WokenLeft(p, Next(p, s, g, ok)) < WokenLeft(p, s))
  {
    hide Inv, Next, Rem;
    InvMeans(p, s);
    var s' := Next(p, s, g, ok);
    var w, w' := Rems(p, s), Rems(p, s');
    forall h | 0 <= h < Size(p) ensures w'[h] <= w[h] { StepProgress(p, s, g, ok, h); }
    StepProgress(p, s, g, ok, g);
    if s.pc[g].SlotWoken? && s'.pc[g].SlotParked? {
      forall h | 0 <= h < Size(p) ensures h != g ==> s'.pc[h] == s.pc[h] { StepProgress(p, s, g, ok, h); }
      RemParked(p.lines[g], |p.g.inputs[g]|);
      assert w' == w;
      assert WokenSet(s') == WokenSet(s) - {g};
      SumRemove(Ones(Size(p)), WokenSet(s), g);
    } else {
      SumLess(w', w, g);
    }
  }

  lemma RemParked(lines: nat, deps: nat)
    ensures Rem(SlotParked, lines, deps) == Rem(SlotWoken, lines, deps)
  {
  }

  /* ---- the number of completed goals ---- */

  function PassedSet(s: State): set<nat> { set g | 0 <= g < |s.pc| && Passed(s.pc[g]) }

  predicate CompletedOk(p: Params, s: State) {
    s.completed == Count(Size(p), PassedSet(s))
  }

  lemma CompletedBegins(p: Params)
    requires Valid(p)
    ensures CompletedOk(p, Initial(p))
  {
    SumZero(Ones(Size(p)), PassedSet(Initial(p)));
  }

  lemma PassedStep(p: Params, s: State, g: nat, ok: bool, h: nat)
    requires Inv(p, s) && g < Size(p) && CanStep(s.pc[g]) && h < Size(p)
    ensures Passed(Next(p, s, g, ok).pc[h]) <==> Passed(s.pc[h]) || (h == g && s.pc[g].Completing?)
  {
    hide Inv, Next;
    InvMeans(p, s);
    if h == g {
      ItselfMoves(p, s, g, ok);
    } else {
      OthersMove(p, s, g, ok, h);
    }
  }

  lemma CompletedCount(p: Params, s: State, g: nat, ok: bool)
    requires Valid(p) && Shaped(p, s) && g < Size(p) && CanStep(s.pc[g])
    ensures Next(p, s, g, ok).completed == s.completed + CountOf(s.pc[g].Completing?)
  {
  }

  /** The counter always equals the number of goals whose event has been set. */
  lemma CompletedKeeps(p: Params, s: State, g: nat, ok: bool)
    requires Inv(p, s) && CompletedOk(p, s) && g < Size(p) && CanStep(s.pc[g])
    ensures CompletedOk(p, Next(p, s, g, ok))
  {
    hide Inv, Next;
    InvMeans(p, s);
    var s' := Next(p, s, g, ok);
    CompletedCount(p, s, g, ok);
    forall h | 0 <= h < Size(p)
      ensures Passed(s'.pc[h]) <==> Passed(s.pc[h]) || (h == g && s.pc[g].Completing?)
    {
      PassedStep(p, s, g, ok, h);
    }
    if s.pc[g].Completing? {
      assert PassedSet(s') == PassedSet(s) + {g};
      SumAdd(Ones(Size(p)), PassedSet(s), g);
    } else {
      assert PassedSet(s') == PassedSet(s);
    }
  }

  lemma AllCompleted(p: Params, s: State)
    requires Inv(p, s) && CompletedOk(p, s) && forall g | 0 <= g < Size(p) :: s.pc[g].Returned?
    ensures s.completed == Size(p)
  {
    assert forall g: nat | g < Size(p) :: g in PassedSet(s);
    CountAll(Size(p), PassedSet(s));
  }

  lemma {:induction false} CountAll(n: nat, s: set<nat>)
    requires forall g: nat | g < n :: g in s
    ensures Count(n, s) == n
  {
    if n == 0 {
    } else {
      CountAll(n - 1, s);
      assert Ones(n)[..n - 1] == Ones(n - 1);
    }
  }

  /* ---- runs ---- */

  /** Which goal ran, and what its check yielded. */
  datatype Choice = Choice(g: nat, ok: bool)

  predicate IsRun(p: Params, run: seq<State>, choices: seq<Choice>)
    requires Valid(p)
  {
    && |run| == |choices| + 1 && run[0] == Initial(p)
    && forall i | 0 <= i < |choices| ::
         && Shaped(p, run[i]) && choices[i].g < Size(p) && CanStep(run[i].pc[choices[i].g])
         && run[i + 1] == Next(p, run[i], choices[i].g, choices[i].ok)
  }

  lemma {:induction false} RunInv(p: Params, run: seq<State>, choices: seq<Choice>, i: nat)
    requires Valid(p) && IsRun(p, run, choices) && i < |run|
    ensures Inv(p, run[i])
  {
    hide Inv, Next, Initial;
    if i == 0 {
      InitialOk(p);
    } else {
      RunInv(p, run, choices, i - 1);
      StepKeeps(p, run[i - 1], choices[i - 1].g, choices[i - 1].ok);
    }
  }

  /** In every state of every run, free slots and goals owning one add up to the capacity,
      whatever ways out the goals have taken. */
  lemma SlotsConserved(p: Params, run: seq<State>, choices: seq<Choice>, i: nat, b: bool)
    requires Valid(p) && IsRun(p, run, choices) && i < |run|
    ensures SemOf(run[i], b).count + Count(Size(p), Holders(p, run[i].pc, b)) == Cap(p, b)
  {
    RunInv(p, run, choices, i);
    hide QueueOk, EventOk, SeenOk;
    assert SlotsOk(p, run[i].pc, SemOf(run[i], b), b);
  }

  /** A goal is parked for a slot only while none is free, and it is on the waiting list. */
  lemma ParkedMeansFull(p: Params, run: seq<State>, choices: seq<Choice>, i: nat, g: nat)
    requires Valid(p) && IsRun(p, run, choices) && i < |run| && g < |run[i].pc| && run[i].pc[g].SlotParked?
    ensures g < Size(p) && SemOf(run[i], p.sub[g]).count == 0 && g in SemOf(run[i], p.sub[g]).ev.waiters
  {
    RunInv(p, run, choices, i);
    hide SlotsOk, EventOk, SeenOk;
    assert QueueOk(p, run[i].pc, SemOf(run[i], p.sub[g]), p.sub[g]);
  }

  lemma {:induction false} RunGivesNotUp(p: Params, run: seq<State>, choices: seq<Choice>, i: nat)
    requires Valid(p) && IsRun(p, run, choices) && i < |run| && (forall k | 0 <= k < i :: choices[k].ok)
    ensures |run[i].pc| == Size(p) && forall g | 0 <= g < Size(p) :: !run[i].pc[g].GaveUp?
  {
    hide Inv, Next;
    if i == 0 {
    } else {
      RunInv(p, run, choices, i - 1);
      RunGivesNotUp(p, run, choices, i - 1);
      NobodyGivesUp(p, run[i - 1], choices[i - 1].g);
    }
  }

  /** Two goals, the second depending on the first. */
  const TWO_GOALS := Params(Graph([[], [0]], [[1], []]), 1, 1, [false, false], [0, 0])

  const UNSET := Ev(false, [])

  /** Both semaphores untouched; `first` is the first goal's event. */
  function TwoAt(pc: seq<Pc>, first: Ev): State {
    State(pc, Sem(1, UNSET), Sem(1, UNSET), [first, UNSET], 0)
  }

  lemma TwoGoalsSteps()
    ensures Valid(TWO_GOALS) && SlotsForAll(TWO_GOALS) && Acyclic(TWO_GOALS.g)
    ensures Initial(TWO_GOALS) == TwoAt([Fresh, Fresh], UNSET)
    ensures Next(TWO_GOALS, TwoAt([Fresh, Fresh], UNSET), 0, false) == TwoAt([GaveUp, Fresh], UNSET)
    ensures Next(TWO_GOALS, TwoAt([GaveUp, Fresh], UNSET), 1, true) == TwoAt([GaveUp, Announcing], UNSET)
    ensures Next(TWO_GOALS, TwoAt([GaveUp, Announcing], UNSET), 1, true) == TwoAt([GaveUp, AnnouncingWait], UNSET)
    ensures Next(TWO_GOALS, TwoAt([GaveUp, AnnouncingWait], UNSET), 1, true) == TwoAt([GaveUp, Deps(0)], UNSET)
    ensures Next(TWO_GOALS, TwoAt([GaveUp, Deps(0)], UNSET), 1, true) == TwoAt([GaveUp, DepParked(0)], Ev(false, [1]))
  {
    assert IsRank(TWO_GOALS.g, [0, 1]);
    assert [1] + UNSET.waiters == [1] && [UNSET, UNSET][0 := Ev(false, [1])] == [Ev(false, [1]), UNSET];
  }

  /** The first of two goals returns early, and the second, which depends on it, is parked for
      good: no goal can run, and one has not returned. */
  lemma EarlyReturnHangs() returns (run: seq<State>, choices: seq<Choice>)
    ensures Valid(TWO_GOALS) && SlotsForAll(TWO_GOALS) && Acyclic(TWO_GOALS.g) && IsRun(TWO_GOALS, run, choices)
    ensures Stuck(run[|choices|]) && run[|choices|].pc == [GaveUp, DepParked(0)]
  {
    hide Next, Initial, Valid, SlotsForAll, Acyclic;
    TwoGoalsSteps();
    var go := Choice(1, true);
    choices := [Choice(0, false), go, go, go, go];
    run := [TwoAt([Fresh, Fresh], UNSET), TwoAt([GaveUp, Fresh], UNSET), TwoAt([GaveUp, Announcing], UNSET),
            TwoAt([GaveUp, AnnouncingWait], UNSET), TwoAt([GaveUp, Deps(0)], UNSET),
            TwoAt([GaveUp, DepParked(0)], Ev(false, [1]))];
  }

  /** Without shutdown or failed deliveries no state of a run is stuck before every goal has
      returned, on an acyclic graph with a slot for every kind. */
  lemma NeverStuckEarly(p: Params, run: seq<State>, choices: seq<Choice>, i: nat)
    requires Valid(p) && IsRun(p, run, choices) && i < |run| && (forall k | 0 <= k < i :: choices[k].ok)
    requires SlotsForAll(p) && Acyclic(p.g)
    ensures |run[i].pc| == Size(p)
    ensures Stuck(run[i]) ==> forall g | 0 <= g < Size(p) :: run[i].pc[g].Returned?
  {
    hide Inv, Next;
    RunInv(p, run, choices, i);
    RunGivesNotUp(p, run, choices, i);
    NotStuckUnlessDone(p, run[i]);
  }
}
