/** The untimed generator: the same scheduler without timestamps and progress reports. */
module SimUntimed {
  import opened DepGraph
  import opened SimTrace
  import opened SimCore
  import opened SimSteps
  import opened SimRun

  /** What the untimed generator yields. */
  datatype Note = Began(node: nat) | Line(node: nat) | Ended(node: nat)

  /** A completion time and the node it belongs to. */
  datatype Due = Due(time: nat, node: nat)

  datatype Plain = Plain(st: seq<NodeState>, pending: seq<nat>, ready: seq<nat>, builds: nat, subs: nat,
                         now: nat, timeline: multiset<Due>)

  predicate Fits(p: Params, u: Plain) {
    && |u.st| == |u.pending| == Size(p)
    && forall k | 0 <= k < |u.ready| :: u.ready[k] < Size(p)
  }

  predicate Room(p: Params, u: Plain, i: nat)
    requires i < |p.sub|
  {
    if p.sub[i] then u.subs < p.maxSubs else u.builds < p.maxJobs
  }

  function Take(p: Params, u: Plain): Plain
    requires Valid(p) && Fits(p, u) && u.ready != []
  {
    var i := u.ready[0];
    u.(ready := u.ready[1..],
       builds := if p.sub[i] then u.builds else u.builds + 1,
       subs := if p.sub[i] then u.subs + 1 else u.subs,
       st := u.st[i := Running],
       timeline := u.timeline + multiset{Due(u.now + p.dur[i], i)})
  }

  function TakeAll(p: Params, u: Plain): (r: (Plain, seq<nat>))
    requires Valid(p) && Fits(p, u)
    ensures Fits(p, r.0)
    decreases |u.ready|
  {
    if u.ready == [] || !Room(p, u, u.ready[0]) then (u, [])
    else
      var (u', started) := TakeAll(p, Take(p, u));
      (u', [u.ready[0]] + started)
  }

  function Tell(u: Plain, j: nat): Plain
    requires j < |u.pending| == |u.st| && u.pending[j] > 0
  {
    var left := u.pending[j] - 1;
    var u' := u.(pending := u.pending[j := left]);
    if left == 0 && u.st[j].Waiting? then u'.(st := u.st[j := Ready], ready := u.ready + [j]) else u'
  }

  function TellAll(p: Params, u: Plain, rest: seq<nat>): (r: Plain)
    requires Fits(p, u) && (forall k | 0 <= k < |rest| :: rest[k] < Size(p))
    ensures Fits(p, r)
    decreases |rest|
  {
    if rest == [] || u.pending[rest[0]] == 0 then u else TellAll(p, Tell(u, rest[0]), rest[1..])
  }

  function Begans(nodes: seq<nat>): seq<Note> {
    if nodes == [] then [] else [Began(nodes[0])] + Begans(nodes[1..])
  }

  function Lines(i: nat, n: nat): seq<Note> {
    if n == 0 then [] else Lines(i, n - 1) + [Line(i)]
  }

  /** A completion may be popped if none is due earlier; ties are free. */
  predicate IsNext(p: Params, u: Plain, d: Due)
    requires Valid(p)
  {
    && d in u.timeline && (forall o | o in u.timeline :: d.time <= o.time)
    && d.node < Size(p) && if p.sub[d.node] then u.subs > 0 else u.builds > 0
  }

  function Settle(p: Params, u: Plain, d: Due): (r: Plain)
    requires Valid(p) && Fits(p, u) && IsNext(p, u, d)
    ensures Fits(p, r)
  {
    u.(timeline := u.timeline - multiset{d}, now := d.time, st := u.st[d.node := Done],
       subs := if p.sub[d.node] then u.subs - 1 else u.subs,
       builds := if p.sub[d.node] then u.builds else u.builds - 1)
  }

  datatype Told = Told(plain: Plain, notes: seq<Note>)

  lemma OutputsInRange(p: Params, i: nat)
    requires Valid(p) && i < Size(p)
    ensures forall k | 0 <= k < |p.g.outputs[i]| :: p.g.outputs[i][k] < Size(p)
  {
    assert forall k | 0 <= k < |p.g.outputs[i]| :: p.g.outputs[i][k] in p.g.outputs[i];
  }

  function PlainStep(p: Params, o: Told, d: Due): (r: Told)
    requires Valid(p) && Fits(p, o.plain) && IsNext(p, o.plain, d)
    ensures Fits(p, r.plain)
  {
    OutputsInRange(p, d.node);
    var (u, started) := TakeAll(p, TellAll(p, Settle(p, o.plain, d), p.g.outputs[d.node]));
    Told(u, o.notes + Lines(d.node, p.lines) + [Ended(d.node)] + Begans(started))
  }

  function Fresh(p: Params): (u: Plain)
    requires Valid(p)
    ensures Fits(p, u)
  {
    Plain(Seeded(p).st, Seeded(p).pending, Seeded(p).ready, 0, 0, 0, multiset{})
  }

  function Open(p: Params): (r: Told)
    requires Valid(p)
    ensures Fits(p, r.plain)
  {
    var (u, started) := TakeAll(p, Fresh(p));
    Told(u, Begans(started))
  }

  /** The completions popped, one after the other, each with none due earlier. */
  predicate IsPlainRun(p: Params, dues: seq<Due>)
    requires Valid(p)
    decreases |dues|, 0
  {
    dues == [] ||
    (IsPlainRun(p, dues[..|dues| - 1]) && IsNext(p, Tale(p, dues[..|dues| - 1]).plain, dues[|dues| - 1]))
  }

  function Tale(p: Params, dues: seq<Due>): (r: Told)
    requires Valid(p) && IsPlainRun(p, dues)
    ensures Fits(p, r.plain)
    decreases |dues|, 1
  {
    if dues == [] then Open(p) else PlainStep(p, Tale(p, dues[..|dues| - 1]), dues[|dues| - 1])
  }
}
