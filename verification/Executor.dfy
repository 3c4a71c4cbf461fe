/** The evaluator's work queue: spawners, workers and shutdown, interleaved. */
module Executor {
  type ItemId = nat

  const RANDOM_LIMIT := 0x1_0000_0000_0000

  /** The queue key of a priority and a random number in 0..=2^48: the priority shifted left,
      or-ed with the random number, whose top value spills into the priority's low bit. */
  function KeyOf(prio: nat, random: nat): nat
    requires random <= RANDOM_LIMIT
  {
    if random < RANDOM_LIMIT then prio * RANDOM_LIMIT + random
    else (if prio % 2 == 0 then prio + 1 else prio) * RANDOM_LIMIT
  }

  /** Smaller priorities are never taken later, and are strictly earlier except when the
      random number of an even priority hits its top value and meets the next priority's least. */
  lemma KeyOrder(p: nat, r: nat, q: nat, z: nat)
    requires p < q && r <= RANDOM_LIMIT && z <= RANDOM_LIMIT
    ensures KeyOf(p, r) <= KeyOf(q, z)
    ensures KeyOf(p, r) == KeyOf(q, z) <==>
      r == RANDOM_LIMIT && p % 2 == 0 && q == p + 1 && (z == 0 || z == RANDOM_LIMIT)
  {
  }

  datatype Entry = Entry(key: nat, item: ItemId)

  /** `Parked` waits for `wakeup`. */
  datatype Worker = Idle | Working(item: ItemId) | Parked | Exited

  /** What a promise is given: that the work is done, the exception it threw, or an `Interrupted` exception. */
  datatype Given = Done | Threw | Interruption

  /** `settled` counts how often each promise was given a value or an exception, and `given` says which it
      was last; `late` are the items spawned when no worker was left. `ones` and `alls` are the calls of
      `notify_one` and `notify_all` that are due: they follow after the lock has been released. */
  datatype State = State(queue: seq<Entry>, workers: seq<Worker>, quit: bool,
                         spawned: set<ItemId>, settled: map<ItemId, nat>, late: set<ItemId>, ones: nat, alls: nat,
                         given: map<ItemId, Given>)

  datatype Action =
    | Spawn(entries: seq<Entry>)
    | Take(w: nat)
    | Drain(w: nat)
    | Succeed(w: nat)
    | Fail(w: nat)
    | Interrupted(w: nat)
    | Shutdown
    | Park(w: nat)
    | NotifyOne(w: nat)
    | NotifyNobody
    | NotifyAll
    | WakeUp(w: nat)

  /** How often promise `p` occurs among the entries. */
  function Queued(entries: seq<Entry>, p: ItemId): nat {
    if entries == [] then 0 else (if entries[0].item == p then 1 else 0) + Queued(entries[1..], p)
  }

  function HeldBy(w: Worker, p: ItemId): nat { if w == Working(p) then 1 else 0 }

  /** How many workers hold promise `p`. */
  function Held(workers: seq<Worker>, p: ItemId): nat {
    if workers == [] then 0 else HeldBy(workers[0], p) + Held(workers[1..], p)
  }

  function ItemSet(entries: seq<Entry>): set<ItemId> {
    set i | 0 <= i < |entries| :: entries[i].item
  }

  /** Multimap insertion: after every entry whose key is not larger. */
  function Insert(queue: seq<Entry>, e: Entry): seq<Entry> {
    if queue == [] || e.key < queue[0].key then [e] + queue else [queue[0]] + Insert(queue[1..], e)
  }

  function InsertAll(queue: seq<Entry>, entries: seq<Entry>): seq<Entry>
    decreases |entries|
  {
    if entries == [] then queue else InsertAll(Insert(queue, entries[0]), entries[1..])
  }

  predicate Sorted(queue: seq<Entry>) {
    forall i, j | 0 <= i < j < |queue| :: queue[i].key <= queue[j].key
  }

  predicate AllExited(workers: seq<Worker>) {
    forall w | 0 <= w < |workers| :: workers[w].Exited?
  }

  predicate NoneParked(workers: seq<Worker>) {
    forall w | 0 <= w < |workers| :: !workers[w].Parked?
  }

  function WakeAll(workers: seq<Worker>): (r: seq<Worker>)
    ensures |r| == |workers|
  {
    seq(|workers|, w requires 0 <= w < |workers| => if workers[w].Parked? then Idle else workers[w])
  }

  /** New promises are new objects. */
  predicate Fresh(entries: seq<Entry>, spawned: set<ItemId>) {
    && (forall i | 0 <= i < |entries| :: entries[i].item !in spawned)
    && (forall i, j | 0 <= i < j < |entries| :: entries[i].item != entries[j].item)
  }

  predicate Enabled(s: State, a: Action) {
    match a
    case Spawn(entries) => entries != [] && Fresh(entries, s.spawned)
    case Take(w) => w < |s.workers| && s.workers[w].Idle? && !s.quit && s.queue != []
    case Drain(w) => w < |s.workers| && s.workers[w].Idle? && s.quit
    case Succeed(w) => w < |s.workers| && s.workers[w].Working?
    case Fail(w) => w < |s.workers| && s.workers[w].Working?
    case Interrupted(w) => w < |s.workers| && s.workers[w].Working?
    case Shutdown => true
    case Park(w) => w < |s.workers| && s.workers[w].Idle? && !s.quit && s.queue == []
    case NotifyOne(w) => s.ones > 0 && w < |s.workers| && s.workers[w].Parked?
    case NotifyNobody => s.ones > 0 && NoneParked(s.workers)
    case NotifyAll => s.alls > 0
    case WakeUp(w) => w < |s.workers| && s.workers[w].Parked?
  }

  function Count(settled: map<ItemId, nat>, p: ItemId): nat {
    if p in settled then settled[p] else 0
  }

  /** The loop that gives every queued promise the `Interrupted` exception. */
  function SettleAll(settled: map<ItemId, nat>, queue: seq<Entry>): map<ItemId, nat>
    decreases |queue|
  {
    if queue == [] then settled
    else SettleAll(settled[queue[0].item := Count(settled, queue[0].item) + 1], queue[1..])
  }

  function GiveAll(given: map<ItemId, Given>, queue: seq<Entry>): map<ItemId, Given>
    decreases |queue|
  {
    if queue == [] then given else GiveAll(given[queue[0].item := Interruption], queue[1..])
  }

  /** The worker's promise is settled and the worker goes back for more. */
  function Settle(s: State, w: nat, g: Given): State
    requires w < |s.workers| && s.workers[w].Working?
  {
    var p := s.workers[w].item;
    s.(workers := s.workers[w := Idle], settled := s.settled[p := Count(s.settled, p) + 1], given := s.given[p := g])
  }

  function Step(s: State, a: Action): State
    requires Enabled(s, a)
  {
    match a
    case Spawn(entries) =>
      s.(queue := InsertAll(s.queue, entries), spawned := s.spawned + ItemSet(entries),
         late := if AllExited(s.workers) then s.late + ItemSet(entries) else s.late,
         ones := if |entries| == 1 then s.ones + 1 else s.ones,
         alls := if |entries| == 1 then s.alls else s.alls + 1)
    case Take(w) => s.(queue := s.queue[1..], workers := s.workers[w := Working(s.queue[0].item)])
    case Drain(w) =>
      s.(queue := [], workers := s.workers[w := Exited], settled := SettleAll(s.settled, s.queue),
         given := GiveAll(s.given, s.queue))
    case Succeed(w) => Settle(s, w, Done)
    case Fail(w) => Settle(s, w, Threw)
    case Interrupted(w) => Settle(s, w, Interruption).(quit := true)
    case Shutdown => s.(quit := true, alls := s.alls + 1)
    case Park(w) => s.(workers := s.workers[w := Parked])
    case NotifyOne(w) => s.(workers := s.workers[w := Idle], ones := s.ones - 1)
    case NotifyNobody => s.(ones := s.ones - 1)
    case NotifyAll => s.(workers := WakeAll(s.workers), alls := s.alls - 1)
    case WakeUp(w) => s.(workers := s.workers[w := Idle])
  }

  predicate Initial(s: State) {
    && s.queue == [] && !s.quit && s.spawned == {} && s.settled == map[] && s.late == {} && s.ones == s.alls == 0
    && s.given == map[]
    && forall w | 0 <= w < |s.workers| :: s.workers[w].Idle?
  }

  /** Conservation: every promise spawned is queued, held by a worker or settled, in one of
      these ways and once; nothing else is. */
  ghost predicate Conserved(s: State) {
    forall p :: Places(s, p) == if p in s.spawned then 1 else 0
  }

  function Places(s: State, p: ItemId): nat {
    Queued(s.queue, p) + Held(s.workers, p) + Count(s.settled, p)
  }

  /** How many workers are about to look at the queue. */
  function Idlers(workers: seq<Worker>): nat {
    if workers == [] then 0 else (if workers[0].Idle? then 1 else 0) + Idlers(workers[1..])
  }

  /** While a worker is parked, every queued item has a notification due or a worker about to look. */
  predicate Served(s: State) {
    NoneParked(s.workers) || s.alls > 0 || |s.queue| <= s.ones + Idlers(s.workers)
  }

  /** Late items stay in the queue, and nothing else is left there by the last worker. */
  ghost predicate LateOk(s: State) {
    && (AllExited(s.workers) ==> forall p | Queued(s.queue, p) > 0 :: p in s.late)
    && (forall p | p in s.late :: AllExited(s.workers) && Queued(s.queue, p) > 0)
  }

  ghost predicate Inv(s: State) {
    Conserved(s) && Sorted(s.queue) && LateOk(s)
  }

  /* ---- counting ---- */

  lemma {:induction false} HeldUpdate(workers: seq<Worker>, w: nat, x: Worker, p: ItemId)
    requires w < |workers|
    ensures Held(workers[w := x], p) + HeldBy(workers[w], p) == Held(workers, p) + HeldBy(x, p)
  {
    if w == 0 {
      assert workers[0 := x][1..] == workers[1..];
    } else {
      assert workers[w := x][1..] == workers[1..][w - 1 := x];
      HeldUpdate(workers[1..], w - 1, x, p);
    }
  }

  lemma {:induction false} HeldNone(workers: seq<Worker>, p: ItemId)
    requires forall w | 0 <= w < |workers| :: !workers[w].Working?
    ensures Held(workers, p) == 0
  {
    if workers == [] {
    } else {
      HeldNone(workers[1..], p);
    }
  }

  lemma {:induction false} InsertQueued(queue: seq<Entry>, e: Entry, p: ItemId)
    ensures Queued(Insert(queue, e), p) == Queued(queue, p) + if e.item == p then 1 else 0
  {
    if queue == [] || e.key < queue[0].key {
      assert ([e] + queue)[1..] == queue;
    } else {
      InsertQueued(queue[1..], e, p);
      assert ([queue[0]] + Insert(queue[1..], e))[1..] == Insert(queue[1..], e);
    }
  }

  lemma {:induction false} InsertMembers(queue: seq<Entry>, e: Entry)
    ensures forall k | 0 <= k < |Insert(queue, e)| :: Insert(queue, e)[k] == e || Insert(queue, e)[k] in queue
  {
    if queue == [] || e.key < queue[0].key {
    } else {
      InsertMembers(queue[1..], e);
    }
  }

  lemma {:induction false} InsertSorted(queue: seq<Entry>, e: Entry)
    requires Sorted(queue)
    ensures Sorted(Insert(queue, e))
  {
    if queue == [] || e.key < queue[0].key {
    } else {
      InsertSorted(queue[1..], e);
      InsertMembers(queue[1..], e);
    }
  }

  lemma {:induction false} InsertAllSorted(queue: seq<Entry>, entries: seq<Entry>)
    requires Sorted(queue)
    ensures Sorted(InsertAll(queue, entries))
    decreases |entries|
  {
    if entries == [] {
    } else {
      InsertSorted(queue, entries[0]);
      InsertAllSorted(Insert(queue, entries[0]), entries[1..]);
    }
  }

  lemma {:induction false} InsertAllQueued(queue: seq<Entry>, entries: seq<Entry>, p: ItemId)
    ensures Queued(InsertAll(queue, entries), p) == Queued(queue, p) + Queued(entries, p)
    decreases |entries|
  {
    if entries == [] {
    } else {
      InsertQueued(queue, entries[0], p);
      InsertAllQueued(Insert(queue, entries[0]), entries[1..], p);
    }
  }

  lemma {:induction false} SettleAllCount(settled: map<ItemId, nat>, queue: seq<Entry>, p: ItemId)
    ensures Count(SettleAll(settled, queue), p) == Count(settled, p) + Queued(queue, p)
    decreases |queue|
  {
    if queue == [] {
    } else {
      SettleAllCount(settled[queue[0].item := Count(settled, queue[0].item) + 1], queue[1..], p);
    }
  }

  lemma {:induction false} FreshOnce(entries: seq<Entry>, spawned: set<ItemId>, p: ItemId)
    requires Fresh(entries, spawned)
    ensures Queued(entries, p) == if p in ItemSet(entries) then 1 else 0
    ensures p in ItemSet(entries) ==> p !in spawned
  {
    if entries == [] {
    } else {
      var rest := entries[1..];
      FreshOnce(rest, spawned, p);
      assert forall k | 0 < k < |entries| :: entries[k] == rest[k - 1];
      assert p in ItemSet(entries) <==> p == entries[0].item || p in ItemSet(rest);
    }
  }

  /** Parking and waking move no promise. */
  lemma {:induction false} HeldSame(before: seq<Worker>, after: seq<Worker>, p: ItemId)
    requires |before| == |after|
    requires forall w | 0 <= w < |before| ::
      after[w] == before[w] || (!before[w].Working? && !after[w].Working?)
    ensures Held(after, p) == Held(before, p)
  {
    if before == [] {
    } else {
      HeldSame(before[1..], after[1..], p);
    }
  }

  lemma {:induction false} IdlersUpdate(workers: seq<Worker>, w: nat, x: Worker)
    requires w < |workers|
    ensures Idlers(workers[w := x]) + (if workers[w].Idle? then 1 else 0)
         == Idlers(workers) + (if x.Idle? then 1 else 0)
  {
    if w == 0 {
      assert workers[0 := x][1..] == workers[1..];
    } else {
      assert workers[w := x][1..] == workers[1..][w - 1 := x];
      IdlersUpdate(workers[1..], w - 1, x);
    }
  }

  lemma {:induction false} InsertLength(queue: seq<Entry>, e: Entry)
    ensures |Insert(queue, e)| == |queue| + 1
  {
    if queue == [] || e.key < queue[0].key {
    } else {
      InsertLength(queue[1..], e);
    }
  }

  /* ---- the invariant over all interleavings ---- */

  lemma InitialOk(s: State)
    requires Initial(s)
    ensures Inv(s)
  {
    forall p ensures Places(s, p) == 0 {
      HeldNone(s.workers, p);
    }
  }

  lemma StepKeepsInv(s: State, a: Action)
    requires Inv(s) && Enabled(s, a)
    ensures Inv(Step(s, a))
  {
    match a
    case Spawn(entries) => SpawnKeeps(s, entries);
    case Take(w) => TakeKeeps(s, w);
    case Drain(w) => DrainKeeps(s, w);
    case Succeed(w) => SettleKeeps(s, w, Done);
    case Fail(w) => SettleKeeps(s, w, Threw);
    case Interrupted(w) =>
      SettleKeeps(s, w, Interruption);
      QuitKeeps(Settle(s, w, Interruption));
    case Shutdown => QuitKeeps(s);
    case _ => WaitingKeeps(s, a);
  }

  predicate ForWaiting(a: Action) {
    a.Park? || a.NotifyOne? || a.NotifyNobody? || a.NotifyAll? || a.WakeUp?
  }

  lemma WaitingKeeps(s: State, a: Action)
    requires Inv(s) && Enabled(s, a) && ForWaiting(a)
    ensures Inv(Step(s, a))
  {
    var s' := Step(s, a);
    forall p ensures Places(s', p) == Places(s, p) {
      HeldSame(s.workers, s'.workers, p);
    }
    assert AllExited(s'.workers) <==> AllExited(s.workers) by {
      assert forall w | 0 <= w < |s.workers| :: s'.workers[w].Exited? <==> s.workers[w].Exited?;
    }
    forall p ensures Places(s', p) == if p in s'.spawned then 1 else 0 {
      assert Places(s, p) == if p in s.spawned then 1 else 0;
    }
  }

  lemma QuitKeeps(s: State)
    requires Inv(s)
    ensures Inv(s.(quit := true)) && Inv(s.(quit := true, alls := s.alls + 1))
  {
    forall p ensures Places(s.(quit := true), p) == Places(s, p) == Places(s.(quit := true, alls := s.alls + 1), p) {
    }
  }

  lemma SpawnKeeps(s: State, entries: seq<Entry>)
    requires Inv(s) && Enabled(s, Spawn(entries))
    ensures Inv(Step(s, Spawn(entries)))
  {
    var s' := Step(s, Spawn(entries));
    InsertAllSorted(s.queue, entries);
    forall p
      ensures Queued(s'.queue, p) == Queued(s.queue, p) + if p in ItemSet(entries) then 1 else 0
      ensures Places(s', p) == if p in s'.spawned then 1 else 0
    {
      InsertAllQueued(s.queue, entries, p);
      FreshOnce(entries, s.spawned, p);
      assert Places(s, p) == if p in s.spawned then 1 else 0;
    }
  }

  lemma TakeKeeps(s: State, w: nat)
    requires Inv(s) && Enabled(s, Take(w))
    ensures Inv(Step(s, Take(w)))
  {
    var s' := Step(s, Take(w));
    assert s'.workers[w].Working?;
    forall p ensures Places(s', p) == Places(s, p) {
      HeldUpdate(s.workers, w, Working(s.queue[0].item), p);
    }
    forall p ensures Places(s', p) == if p in s'.spawned then 1 else 0 {
      assert Places(s, p) == if p in s.spawned then 1 else 0;
    }
  }

  lemma DrainKeeps(s: State, w: nat)
    requires Inv(s) && Enabled(s, Drain(w))
    ensures Inv(Step(s, Drain(w)))
  {
    var s' := Step(s, Drain(w));
    forall p ensures Places(s', p) == Places(s, p) {
      HeldUpdate(s.workers, w, Exited, p);
      SettleAllCount(s.settled, s.queue, p);
    }
    forall p ensures Places(s', p) == if p in s'.spawned then 1 else 0 {
      assert Places(s, p) == if p in s.spawned then 1 else 0;
    }
  }

  lemma SettleKeeps(s: State, w: nat, g: Given)
    requires Inv(s) && w < |s.workers| && s.workers[w].Working?
    ensures Inv(Settle(s, w, g))
  {
    var s' := Settle(s, w, g);
    assert s'.workers[w] == Idle;
    forall p ensures Places(s', p) == Places(s, p) {
      HeldUpdate(s.workers, w, Idle, p);
    }
    forall p ensures Places(s', p) == if p in s'.spawned then 1 else 0 {
      assert Places(s, p) == if p in s.spawned then 1 else 0;
    }
  }

  lemma SpawnServed(s: State, entries: seq<Entry>)
    requires Served(s) && Enabled(s, Spawn(entries))
    ensures Served(Step(s, Spawn(entries)))
  {
    if |entries| == 1 {
      assert InsertAll(s.queue, entries) == Insert(s.queue, entries[0]);
      InsertLength(s.queue, entries[0]);
    }
  }

  /** No wakeup is lost. */
  lemma StepKeepsServed(s: State, a: Action)
    requires Served(s) && Enabled(s, a)
    ensures Served(Step(s, a))
  {
    var s' := Step(s, a);
    match a
    case Spawn(entries) => SpawnServed(s, entries);
    case Take(w) => IdlersUpdate(s.workers, w, Working(s.queue[0].item));
    case Drain(w) =>
    case Succeed(w) => IdlersUpdate(s.workers, w, Idle);
    case Fail(w) => IdlersUpdate(s.workers, w, Idle);
    case Interrupted(w) => IdlersUpdate(s.workers, w, Idle);
    case Shutdown =>
    case Park(w) =>
    case NotifyOne(w) => IdlersUpdate(s.workers, w, Idle);
    case NotifyNobody =>
    case NotifyAll =>
    case WakeUp(w) => IdlersUpdate(s.workers, w, Idle);
  }

  predicate IsRun(run: seq<State>, actions: seq<Action>) {
    && |run| == |actions| + 1 && Initial(run[0])
    && forall i | 0 <= i < |actions| :: Enabled(run[i], actions[i]) && run[i + 1] == Step(run[i], actions[i])
  }

  lemma {:induction false} RunInv(run: seq<State>, actions: seq<Action>, i: nat)
    requires IsRun(run, actions) && i < |run|
    ensures Inv(run[i]) && Served(run[i])
  {
    if i == 0 {
      InitialOk(run[0]);
    } else {
      RunInv(run, actions, i - 1);
      StepKeepsInv(run[i - 1], actions[i - 1]);
      StepKeepsServed(run[i - 1], actions[i - 1]);
    }
  }

  lemma {:induction false} NoIdlers(workers: seq<Worker>)
    requires forall w | 0 <= w < |workers| :: !workers[w].Idle?
    ensures Idlers(workers) == 0
  {
    if workers == [] {
    } else {
      NoIdlers(workers[1..]);
    }
  }

  /** No notification is due and no worker is doing anything. */
  predicate Standstill(s: State) {
    s.ones == s.alls == 0 && forall w | 0 <= w < |s.workers| :: s.workers[w].Parked? || s.workers[w].Exited?
  }

  /** Workers never sleep over work: while one is parked and items are queued, a notification is due or a
      worker is about to look at the queue, for each of the items. */
  lemma NoSleepOverWork(run: seq<State>, actions: seq<Action>, i: nat, w: nat)
    requires IsRun(run, actions) && i < |run| && w < |run[i].workers| && run[i].workers[w].Parked?
    ensures run[i].alls > 0 || |run[i].queue| <= run[i].ones + Idlers(run[i].workers)
    ensures run[i].queue != [] ==> !Standstill(run[i])
  {
    RunInv(run, actions, i);
    if Standstill(run[i]) {
      NoIdlers(run[i].workers);
    }
  }

  /** Once everything stands still, a promise has been settled, once, exactly if it was not late. */
  lemma SettledIff(run: seq<State>, actions: seq<Action>, i: nat, p: ItemId)
    requires IsRun(run, actions) && i < |run| && Standstill(run[i]) && p in run[i].spawned
    ensures Count(run[i].settled, p) == if p in run[i].late then 0 else 1
  {
    var s := run[i];
    RunInv(run, actions, i);
    EachPromiseOnce(run, actions, i, p);
    HeldNone(s.workers, p);
    if !NoneParked(s.workers) {
      NoIdlers(s.workers);
      assert s.queue == [];
    }
  }

  /** A late promise is never settled. */
  lemma LateNever(run: seq<State>, actions: seq<Action>, i: nat, p: ItemId)
    requires IsRun(run, actions) && i < |run| && p in run[i].late
    ensures AllExited(run[i].workers) && Count(run[i].settled, p) == 0
  {
    RunInv(run, actions, i);
    EachPromiseOnce(run, actions, i, p);
  }

  /** Over every interleaving, each spawned promise is queued, held or settled, in exactly one
      of these ways and exactly once; in particular it is settled at most once. */
  lemma EachPromiseOnce(run: seq<State>, actions: seq<Action>, i: nat, p: ItemId)
    requires IsRun(run, actions) && i < |run|
    ensures var s := run[i];
      Queued(s.queue, p) + Held(s.workers, p) + Count(s.settled, p) == if p in s.spawned then 1 else 0
  {
    RunInv(run, actions, i);
    assert Places(run[i], p) == if p in run[i].spawned then 1 else 0;
  }

  /** Once every worker has exited, every item spawned before that has been settled. */
  lemma NothingLeftBehind(run: seq<State>, actions: seq<Action>, i: nat, p: ItemId)
    requires IsRun(run, actions) && i < |run| && AllExited(run[i].workers)
    requires p in run[i].spawned && p !in run[i].late
    ensures Count(run[i].settled, p) == 1
  {
    RunInv(run, actions, i);
    EachPromiseOnce(run, actions, i, p);
    HeldNone(run[i].workers, p);
  }

  /** A worker always takes an item with the least key. */
  lemma TakesLeast(run: seq<State>, actions: seq<Action>, i: nat, k: nat)
    requires IsRun(run, actions) && i < |actions| && actions[i].Take? && k < |run[i].queue|
    ensures run[i + 1].workers[actions[i].w] == Working(run[i].queue[0].item)
    ensures run[i].queue[0].key <= run[i].queue[k].key
  {
    RunInv(run, actions, i);
  }

  /* ---- when the executor quits, and who settles a promise ---- */

  /** The executor has been told to quit exactly if it was shut down or some work was interrupted; an ordinary
      exception is no reason. From then on nothing is taken from the queue. */
  lemma {:induction false} QuitIff(run: seq<State>, actions: seq<Action>, i: nat)
    requires IsRun(run, actions) && i < |run|
    ensures run[i].quit <==> exists k | 0 <= k < i :: actions[k].Shutdown? || actions[k].Interrupted?
    ensures run[i].quit && i < |actions| ==> !actions[i].Take?
    ensures !run[i].quit && i < |actions| ==> !actions[i].Drain?
  {
    if i == 0 {
    } else {
      QuitIff(run, actions, i - 1);
      assert run[i] == Step(run[i - 1], actions[i - 1]);
    }
  }

  /** The step settles promise `p` with `g`. */
  predicate Settles(s: State, a: Action, p: ItemId, g: Given) {
    match a
    case Succeed(w) => w < |s.workers| && s.workers[w] == Working(p) && g == Done
    case Fail(w) => w < |s.workers| && s.workers[w] == Working(p) && g == Threw
    case Interrupted(w) => w < |s.workers| && s.workers[w] == Working(p) && g == Interruption
    case Drain(_) => Queued(s.queue, p) > 0 && g == Interruption
    case _ => false
  }

  lemma {:induction false} GiveAllGives(given: map<ItemId, Given>, queue: seq<Entry>, p: ItemId)
    ensures var all := GiveAll(given, queue);
      if Queued(queue, p) > 0 then p in all && all[p] == Interruption
      else (p in all <==> p in given) && (p in given ==> all[p] == given[p])
    decreases |queue|
  {
    if queue == [] {
    } else {
      GiveAllGives(given[queue[0].item := Interruption], queue[1..], p);
    }
  }

  lemma {:induction false} HeldBySomeone(workers: seq<Worker>, w: nat, p: ItemId)
    requires w < |workers| && workers[w] == Working(p)
    ensures Held(workers, p) > 0
  {
    if w == 0 {
    } else {
      HeldBySomeone(workers[1..], w - 1, p);
    }
  }

  lemma StepSettles(s: State, a: Action, p: ItemId)
    requires Inv(s) && Enabled(s, a) && Count(Step(s, a).settled, p) > 0
    requires Count(s.settled, p) > 0 ==> p in s.given
    ensures p in Step(s, a).given
    ensures if Count(s.settled, p) == 0 then Settles(s, a, p, Step(s, a).given[p])
      else Step(s, a).given[p] == s.given[p]
  {
    assert Places(s, p) == if p in s.spawned then 1 else 0;
    match a
    case Drain(w) =>
      SettleAllCount(s.settled, s.queue, p);
      GiveAllGives(s.given, s.queue, p);
    case Succeed(w) => if s.workers[w] == Working(p) { HeldBySomeone(s.workers, w, p); }
    case Fail(w) => if s.workers[w] == Working(p) { HeldBySomeone(s.workers, w, p); }
    case Interrupted(w) => if s.workers[w] == Working(p) { HeldBySomeone(s.workers, w, p); }
    case _ =>
  }

  /** A settled promise was given what it has by one step: by the worker holding it, when its work was done, threw
      or was interrupted, or by a worker that quit, while it was queued. */
  lemma {:induction false} SettledBy(run: seq<State>, actions: seq<Action>, i: nat, p: ItemId) returns (k: nat)
    requires IsRun(run, actions) && i < |run| && Count(run[i].settled, p) > 0
    ensures p in run[i].given && k < i && Settles(run[k], actions[k], p, run[i].given[p])
  {
    hide Inv, Enabled, Step, Settles;
    assert i > 0;
    RunInv(run, actions, i - 1);
    if Count(run[i - 1].settled, p) > 0 {
      k := SettledBy(run, actions, i - 1, p);
    } else {
      k := i - 1;
    }
    StepSettles(run[i - 1], actions[i - 1], p);
  }

  /** A worker works on what it took from the front of the queue. */
  lemma {:induction false} TakenBy(run: seq<State>, actions: seq<Action>, k: nat, w: nat, p: ItemId) returns (m: nat)
    requires IsRun(run, actions) && k < |run| && w < |run[k].workers| && run[k].workers[w] == Working(p)
    ensures m < k && actions[m] == Take(w) && run[m].queue != [] && run[m].queue[0].item == p
    ensures forall j | m < j <= k :: w < |run[j].workers| && run[j].workers[w] == Working(p)
  {
    assert k > 0;
    assert run[k] == Step(run[k - 1], actions[k - 1]) && Enabled(run[k - 1], actions[k - 1]);
    if w < |run[k - 1].workers| && run[k - 1].workers[w] == Working(p) {
      m := TakenBy(run, actions, k - 1, w, p);
    } else {
      m := k - 1;
    }
  }

  /** Unless the executor is told to quit, every promise settled was settled by the worker that had taken the
      item, with what the work came to; and once everything stands still that goes for all that was not late. */
  lemma WorkedUnlessQuit(run: seq<State>, actions: seq<Action>, i: nat, p: ItemId) returns (m: nat, k: nat, w: nat)
    requires IsRun(run, actions) && i < |run| && !run[i].quit
    requires Count(run[i].settled, p) > 0 || (Standstill(run[i]) && p in run[i].spawned && p !in run[i].late)
    ensures m < k < i && actions[m] == Take(w) && run[m].queue != [] && run[m].queue[0].item == p
    ensures p in run[i].given
    ensures (actions[k] == Succeed(w) && run[i].given[p] == Done) || (actions[k] == Fail(w) && run[i].given[p] == Threw)
    ensures forall j | m < j <= k :: w < |run[j].workers| && run[j].workers[w] == Working(p)
  {
    QuitIff(run, actions, i);
    if Standstill(run[i]) && p in run[i].spawned && p !in run[i].late {
      SettledIff(run, actions, i, p);
    }
    k := SettledBy(run, actions, i, p);
    QuitIff(run, actions, k);
    assert !actions[k].Interrupted? && !actions[k].Drain?;
    w := actions[k].w;
    m := TakenBy(run, actions, k, w, p);
  }

  /* ---- items with the same key ---- */

  /** The items with a given key, in the order in which they stand. */
  function OfKey(queue: seq<Entry>, key: nat): seq<ItemId> {
    if queue == [] then []
    else (if queue[0].key == key then [queue[0].item] else []) + OfKey(queue[1..], key)
  }

  lemma {:induction false} NoSmallerKey(queue: seq<Entry>, key: nat)
    requires Sorted(queue) && (queue == [] || key < queue[0].key)
    ensures OfKey(queue, key) == []
  {
    if queue == [] {
    } else {
      NoSmallerKey(queue[1..], key);
    }
  }

  lemma {:induction false} InsertOfKey(queue: seq<Entry>, e: Entry, key: nat)
    requires Sorted(queue)
    ensures OfKey(Insert(queue, e), key) == OfKey(queue, key) + if e.key == key then [e.item] else []
  {
    if queue == [] || e.key < queue[0].key {
      assert ([e] + queue)[1..] == queue;
      if e.key == key {
        NoSmallerKey(queue, key);
      }
    } else {
      InsertOfKey(queue[1..], e, key);
      assert ([queue[0]] + Insert(queue[1..], e))[1..] == Insert(queue[1..], e);
    }
  }

  /** Items with the same key are queued, and so taken, in the order in which they were spawned. */
  lemma {:induction false} SpawnedInOrder(queue: seq<Entry>, entries: seq<Entry>, key: nat)
    requires Sorted(queue)
    ensures OfKey(InsertAll(queue, entries), key) == OfKey(queue, key) + OfKey(entries, key)
    decreases |entries|
  {
    hide Insert, Sorted;
    if entries == [] {
    } else {
      InsertOfKey(queue, entries[0], key);
      InsertSorted(queue, entries[0]);
      SpawnedInOrder(Insert(queue, entries[0]), entries[1..], key);
      var first := if entries[0].key == key then [entries[0].item] else [];
      AppendThree(OfKey(queue, key), first, OfKey(entries[1..], key));
    }
  }

  lemma AppendThree(a: seq<ItemId>, b: seq<ItemId>, c: seq<ItemId>)
    ensures (a + b) + c == a + (b + c)
  {
  }
}
