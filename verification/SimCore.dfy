/** The simulation state, its steps as functions, and the invariant that ties it to the
    history of emitted events. */
module SimCore {
  import opened DepGraph
  import opened SimTrace

  datatype NodeState = Waiting | Ready | Running | Done

  /** An entry of the timeline: a node's finish, or its next progress report. */
  datatype Ev = Ev(time: nat, node: nat, finish: bool)

  datatype Core = Core(st: seq<NodeState>, pending: seq<nat>, ready: seq<nat>, builds: nat, subs: nat,
                       now: nat, start: seq<nat>, timeline: multiset<Ev>)

  predicate Sized(p: Params, c: Core) {
    && |c.st| == |c.pending| == |c.start| == Size(p)
    && forall k | 0 <= k < |c.ready| :: c.ready[k] < Size(p)
  }

  /* ---- steps ---- */

  predicate HasRoom(p: Params, c: Core, i: nat)
    requires i < |p.sub|
  {
    if p.sub[i] then c.subs < p.maxSubs else c.builds < p.maxJobs
  }

  predicate Ticks(p: Params, c: Core, i: nat)
    requires i < |p.dur|
  {
    p.emitProgress && p.interval > 0 && c.now + p.interval < c.now + p.dur[i]
  }

  /** Start the node at the head of the ready queue. */
  function Launch(p: Params, c: Core): Core
    requires Valid(p) && Sized(p, c) && c.ready != []
  {
    var i := c.ready[0];
    c.(ready := c.ready[1..],
       builds := if p.sub[i] then c.builds else c.builds + 1,
       subs := if p.sub[i] then c.subs + 1 else c.subs,
       st := c.st[i := Running],
       start := c.start[i := c.now],
       timeline := c.timeline + multiset{Ev(c.now + p.dur[i], i, true)}
         + if Ticks(p, c, i) then multiset{Ev(c.now + p.interval, i, false)} else multiset{})
  }

  /** Start from the head of the queue while its head has a free slot; a full slot class
      blocks everything behind it. */
  function StartWork(p: Params, c: Core): (r: (Core, seq<nat>))
    requires Valid(p) && Sized(p, c)
    ensures Sized(p, r.0)
    decreases |c.ready|
  {
    if c.ready == [] || !HasRoom(p, c, c.ready[0]) then (c, [])
    else
      var (c', started) := StartWork(p, Launch(p, c));
      (c', [c.ready[0]] + started)
  }

  /** The events `start_work`'s callers emit. */
  function Starts(t: nat, nodes: seq<nat>): seq<Emitted> {
    if nodes == [] then [] else [Started(t, nodes[0])] + Starts(t, nodes[1..])
  }

  function WakeOne(c: Core, j: nat): Core
    requires j < |c.pending| == |c.st| && c.pending[j] > 0
  {
    var left := c.pending[j] - 1;
    var c' := c.(pending := c.pending[j := left]);
    if left == 0 && c.st[j].Waiting? then c'.(st := c.st[j := Ready], ready := c.ready + [j]) else c'
  }

  /** A finish event has been popped: the node is done and its slot is free. */
  function Retire(p: Params, c: Core, e: Ev): Core
    requires Valid(p) && Sized(p, c) && e.node < Size(p)
    requires if p.sub[e.node] then c.subs > 0 else c.builds > 0
  {
    c.(timeline := c.timeline - multiset{e}, now := e.time, st := c.st[e.node := Done],
       subs := if p.sub[e.node] then c.subs - 1 else c.subs,
       builds := if p.sub[e.node] then c.builds else c.builds - 1)
  }

  /** A progress event has been popped; the next one is queued if it precedes the finish. */
  function Tick(p: Params, c: Core, e: Ev): Core
    requires Valid(p) && Sized(p, c) && e.node < Size(p)
  {
    var popped := c.(timeline := c.timeline - multiset{e}, now := e.time);
    if c.st[e.node].Running? && e.time + p.interval < c.start[e.node] + p.dur[e.node] then
      popped.(timeline := popped.timeline + multiset{Ev(e.time + p.interval, e.node, false)})
    else popped
  }

  /** Top of the priority queue: no earlier event, and at equal times a finish if there is one. */
  predicate IsTop(timeline: multiset<Ev>, e: Ev) {
    e in timeline && forall o | o in timeline :: e.time < o.time || (e.time == o.time && (e.finish || !o.finish))
  }

  /* ---- the invariant ---- */

  /** How often an event belongs in the timeline; `ticks` are the pending progress reports. */
  function Expected(p: Params, h: Hist, ticks: map<nat, nat>, e: Ev): nat {
    if e.finish then CountOf(Flying(h, e.node) && e.node < |p.dur| && e.time == h.start[e.node] + p.dur[e.node])
    else CountOf(e.node in ticks && ticks[e.node] == e.time)
  }

  predicate NodeOk(p: Params, c: Core, h: Hist, rest: seq<nat>, i: nat)
    requires Valid(p) && Sized(p, c) && i < Size(p)
  {
    && (c.st[i].Running? <==> Flying(h, i))
    && (c.st[i].Done? <==> i in h.finish)
    && (Flying(h, i) ==> c.start[i] == h.start[i])
    && (c.st[i].Ready? <==> i in c.ready)
    && c.pending[i] == Undone(p.g.inputs[i], h.finish.Keys) + CountOf(i in rest)
    && (c.st[i].Ready? ==> c.pending[i] == 0)
    && (c.st[i].Waiting? ==> c.pending[i] > 0)
    && (i in rest ==> c.st[i].Waiting?)
  }

  ghost predicate NodesOk(p: Params, c: Core, h: Hist, rest: seq<nat>)
    requires Valid(p) && Sized(p, c)
  {
    forall i | 0 <= i < Size(p) :: NodeOk(p, c, h, rest, i)
  }

  predicate SlotsOk(p: Params, c: Core, h: Hist) {
    c.builds == Count(Size(p), InFlight(p, h, false)) && c.subs == Count(Size(p), InFlight(p, h, true))
  }

  /** Progress is pending only for running nodes, before their finish. */
  predicate TicksOk(p: Params, now: nat, h: Hist, ticks: map<nat, nat>) {
    forall i | i in ticks ::
      i < |p.dur| && Flying(h, i) && now <= ticks[i] < h.start[i] + p.dur[i] && p.interval > 0 && p.emitProgress
  }

  ghost predicate TimelineOk(p: Params, timeline: multiset<Ev>, h: Hist, ticks: map<nat, nat>) {
    forall e: Ev :: timeline[e] == Expected(p, h, ticks, e)
  }

  /** Nothing in flight is overdue. */
  ghost predicate DueOk(p: Params, now: nat, h: Hist) {
    forall i: nat | Flying(h, i) :: i < |p.dur| && now <= h.start[i] + p.dur[i]
  }

  /** `rest` are dependents of the node just finished that have not been told yet. */
  ghost predicate Inv(p: Params, c: Core, h: Hist, ticks: map<nat, nat>, rest: seq<nat>)
  {
    && Valid(p) && Sized(p, c) && HistOk(p, h)
    && h.now == c.now
    && NodesOk(p, c, h, rest)
    && NoDup(c.ready)
    && SlotsOk(p, c, h)
    && TicksOk(p, c.now, h, ticks)
    && TimelineOk(p, c.timeline, h, ticks)
    && DueOk(p, c.now, h)
  }
}
