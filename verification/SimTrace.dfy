/** What a simulated build may emit, event by event, and what follows about its length. */
module SimTrace {
  import opened DepGraph

  /** The configuration together with the choices made up front for each node. */
  datatype Params = Params(g: Graph, maxJobs: nat, maxSubs: nat, emitProgress: bool, interval: nat,
                           lines: nat, sub: seq<bool>, dur: seq<nat>)

  predicate Valid(p: Params) {
    Wired(p.g) && |p.sub| == |p.g.inputs| && |p.dur| == |p.g.inputs|
  }

  function Size(p: Params): nat { |p.g.inputs| }

  function Cap(p: Params, isSub: bool): nat { if isSub then p.maxSubs else p.maxJobs }

  /** An emitted event with its virtual time. */
  datatype Emitted =
    | Started(time: nat, node: nat)
    | Progress(time: nat, node: nat, done: nat, total: nat)
    | LogLine(time: nat, node: nat)
    | Finished(time: nat, node: nat)

  /** What has happened so far: when nodes started and finished, the time, and when something
      last finished (0 before that). */
  datatype Hist = Hist(start: map<nat, nat>, finish: map<nat, nat>, now: nat, lastFinish: nat)

  const NOTHING := Hist(map[], map[], 0, 0)

  function Record(h: Hist, e: Emitted): Hist {
    match e
    case Started(t, i) => h.(start := h.start[i := t], now := t)
    case Progress(t, _, _, _) => h.(now := t)
    case LogLine(t, _) => h.(now := t)
    case Finished(t, i) => h.(finish := h.finish[i := t], now := t, lastFinish := t)
  }

  function Summary(trace: seq<Emitted>): Hist {
    if trace == [] then NOTHING else Record(Summary(trace[..|trace| - 1]), trace[|trace| - 1])
  }

  /** The nodes of one kind that have started and not finished. */
  function InFlight(p: Params, h: Hist, isSub: bool): set<nat> {
    set i | i in h.start && i !in h.finish && i < |p.sub| && p.sub[i] == isSub
  }

  predicate Flying(h: Hist, i: nat) {
    i in h.start && i !in h.finish
  }

  /** The rules of a schedule: time never runs backwards; a node starts once, after all its
      inputs have finished, into a free slot, and only at time 0 or when something finishes;
      it finishes once, exactly its duration later; progress is reported only in between, and log lines only at
      the moment of finishing. */
  predicate May(p: Params, h: Hist, e: Emitted) {
    && e.time >= h.now
    && match e
       case Started(t, i) =>
         && i < Size(p) && i < |p.sub| && i !in h.start
         && (forall j | j in p.g.inputs[i] :: j in h.finish)
         && Count(Size(p), InFlight(p, h, p.sub[i])) < Cap(p, p.sub[i])
         && t == h.lastFinish
       case Progress(t, i, done, total) =>
         Flying(h, i) && i < |p.dur| && total == p.dur[i] && done == t - h.start[i] && done <= total
       case LogLine(t, i) => Flying(h, i) && i < |p.dur| && t == h.start[i] + p.dur[i]
       case Finished(t, i) => Flying(h, i) && i < |p.dur| && t == h.start[i] + p.dur[i]
  }

  predicate Legal(p: Params, trace: seq<Emitted>) {
    trace == [] ||
    (Legal(p, trace[..|trace| - 1]) && May(p, Summary(trace[..|trace| - 1]), trace[|trace| - 1]))
  }

  /** Every node was started and finished. */
  predicate Complete(p: Params, trace: seq<Emitted>) {
    forall i | 0 <= i < Size(p) :: i in Summary(trace).start && i in Summary(trace).finish
  }

  lemma Snoc(p: Params, trace: seq<Emitted>, e: Emitted)
    ensures Summary(trace + [e]) == Record(Summary(trace), e)
    ensures Legal(p, trace + [e]) <==> Legal(p, trace) && May(p, Summary(trace), e)
  {
    assert (trace + [e])[..|trace|] == trace;
  }

  /* ---- facts about the history of a legal trace ---- */

  predicate HistOk(p: Params, h: Hist) {
    && (forall i | i in h.finish :: i in h.start)
    && (forall i | i in h.start :: i < Size(p) && h.start[i] <= h.lastFinish)
    && (forall i | i in h.finish :: i < |p.dur| && h.finish[i] == h.start[i] + p.dur[i] && h.finish[i] <= h.lastFinish)
    && (forall i | i in h.start :: forall j | j in p.g.inputs[i] :: j in h.finish && h.finish[j] <= h.start[i])
    && h.lastFinish <= h.now
  }

  lemma RecordHistOk(p: Params, h: Hist, e: Emitted)
    requires Valid(p) && HistOk(p, h) && May(p, h, e)
    ensures HistOk(p, Record(h, e))
  {
    if e.Started? {
      assert forall j | j in p.g.inputs[e.node] :: h.finish[j] <= h.lastFinish;
    }
  }

  lemma {:induction false} LegalHist(p: Params, trace: seq<Emitted>)
    requires Valid(p) && Legal(p, trace)
    ensures HistOk(p, Summary(trace))
  {
    if trace == [] {
    } else {
      LegalHist(p, trace[..|trace| - 1]);
      RecordHistOk(p, Summary(trace[..|trace| - 1]), trace[|trace| - 1]);
    }
  }

  /* ---- lengths ---- */

  /** A dependency chain: each node is an input of the next. */
  predicate IsChain(p: Params, chain: seq<nat>) {
    && chain != []
    && (forall k | 0 <= k < |chain| :: chain[k] < Size(p))
    && forall k | 0 <= k < |chain| - 1 :: chain[k] in p.g.inputs[chain[k + 1]]
  }

  function ChainTime(p: Params, chain: seq<nat>): nat
    requires forall k | 0 <= k < |chain| :: chain[k] < |p.dur|
  {
    if chain == [] then 0
    else
      var last := chain[|chain| - 1];
      ChainTime(p, chain[..|chain| - 1]) + p.dur[last]
  }

  lemma {:induction false} ChainFinishes(p: Params, h: Hist, chain: seq<nat>)
    requires Valid(p) && HistOk(p, h) && IsChain(p, chain)
    requires chain[|chain| - 1] in h.finish
    ensures ChainTime(p, chain) <= h.finish[chain[|chain| - 1]]
    decreases |chain|
  {
    var n := |chain| - 1;
    if n > 0 {
      assert chain[n - 1] in p.g.inputs[chain[n]];
      assert chain[..n][n - 1] == chain[n - 1];
      ChainFinishes(p, h, chain[..n]);
    } else {
      assert chain[..n] == [];
    }
  }

  lemma CompleteEnds(p: Params, trace: seq<Emitted>)
    requires Valid(p) && Legal(p, trace) && Complete(p, trace)
    ensures Summary(trace).now == Summary(trace).lastFinish
  {
    if trace != [] {
      var before, e := Summary(trace[..|trace| - 1]), trace[|trace| - 1];
      LegalHist(p, trace[..|trace| - 1]);
      assert e.node < Size(p);
      assert e.node in Summary(trace).finish;
    }
  }

  /** The whole run takes at least as long as any dependency chain. */
  lemma MakespanAtLeastChains(p: Params, trace: seq<Emitted>, chain: seq<nat>)
    requires Valid(p) && Legal(p, trace) && Complete(p, trace) && IsChain(p, chain)
    ensures ChainTime(p, chain) <= Summary(trace).now
  {
    LegalHist(p, trace);
    ChainFinishes(p, Summary(trace), chain);
  }

  lemma {:induction false} FinishBySum(p: Params, trace: seq<Emitted>)
    requires Valid(p) && Legal(p, trace)
    ensures Summary(trace).lastFinish <= Sum(p.dur, Summary(trace).finish.Keys)
  {
    if trace == [] {
    } else {
      var init, e := trace[..|trace| - 1], trace[|trace| - 1];
      FinishBySum(p, init);
      LegalHist(p, init);
      var h := Summary(init);
      if e.Finished? {
        SumAdd(p.dur, h.finish.Keys, e.node);
        assert Record(h, e).finish.Keys == h.finish.Keys + {e.node};
      }
    }
  }

  function All(p: Params): set<nat> { Kind(p, true) + Kind(p, false) }

  /** And no longer than doing everything one after the other: nothing ever idles. */
  lemma MakespanAtMostTotal(p: Params, trace: seq<Emitted>)
    requires Valid(p) && Legal(p, trace) && Complete(p, trace)
    ensures Summary(trace).now <= Sum(p.dur, All(p))
  {
    CompleteEnds(p, trace);
    FinishBySum(p, trace);
    LegalHist(p, trace);
    SumMono(p.dur, p.dur, Summary(trace).finish.Keys, All(p));
  }

  /* ---- work done never exceeds slots times time ---- */

  function DoneOf(p: Params, h: Hist, isSub: bool): set<nat> {
    set i | i in h.finish && i < |p.sub| && p.sub[i] == isSub
  }

  /** How long each node has been running at time `t`. */
  function Elapsed(p: Params, h: Hist, t: nat): (w: seq<nat>)
    ensures |w| == Size(p)
    ensures forall i | 0 <= i < Size(p) :: w[i] == if i in h.start && h.start[i] <= t then t - h.start[i] else 0
  {
    seq(Size(p), i => if i in h.start && h.start[i] <= t then t - h.start[i] else 0)
  }

  lemma SlotsStep(p: Params, h: Hist, e: Emitted, isSub: bool)
    requires Valid(p) && HistOk(p, h) && May(p, h, e)
    requires Count(Size(p), InFlight(p, h, isSub)) <= Cap(p, isSub)
    ensures Count(Size(p), InFlight(p, Record(h, e), isSub)) <= Cap(p, isSub)
  {
    var before, after := InFlight(p, h, isSub), InFlight(p, Record(h, e), isSub);
    if e.Started? && p.sub[e.node] == isSub {
      assert after == before + {e.node};
      SumAdd(Ones(Size(p)), before, e.node);
    } else if e.Finished? && p.sub[e.node] == isSub {
      assert after == before - {e.node};
      SumRemove(Ones(Size(p)), before, e.node);
    } else {
      assert after == before;
    }
  }

  lemma {:induction false} SlotsRespected(p: Params, trace: seq<Emitted>, isSub: bool)
    requires Valid(p) && Legal(p, trace)
    ensures Count(Size(p), InFlight(p, Summary(trace), isSub)) <= Cap(p, isSub)
  {
    if trace == [] {
      SumZero(Ones(Size(p)), InFlight(p, NOTHING, isSub));
    } else {
      var init := trace[..|trace| - 1];
      SlotsRespected(p, init, isSub);
      LegalHist(p, init);
      SlotsStep(p, Summary(init), trace[|trace| - 1], isSub);
    }
  }

  lemma {:induction false} PrefixLegal(p: Params, trace: seq<Emitted>, n: nat)
    requires Legal(p, trace) && n <= |trace|
    ensures Legal(p, trace[..n])
    decreases |trace|
  {
    if n == |trace| {
      assert trace[..n] == trace;
    } else {
      PrefixLegal(p, trace[..|trace| - 1], n);
      assert trace[..|trace| - 1][..n] == trace[..n];
    }
  }

  lemma PrefixStep(p: Params, trace: seq<Emitted>, m: nat)
    requires Valid(p) && Legal(p, trace) && m < |trace|
    ensures Legal(p, trace[..m + 1]) && May(p, Summary(trace[..m]), trace[m])
    ensures Summary(trace[..m + 1]).now == trace[m].time
  {
    PrefixLegal(p, trace, m + 1);
    assert trace[..m + 1][..m] == trace[..m];
    hide May;
  }

  /** Safety at every point of the stream: each event obeys the rules given what came before,
      the slots are respected, and no timestamp is smaller than an earlier one. */
  lemma {:induction false} ScheduleSafety(p: Params, trace: seq<Emitted>, n: nat, m: nat)
    requires Valid(p) && Legal(p, trace) && n <= m < |trace|
    ensures May(p, Summary(trace[..m]), trace[m])
    ensures forall isSub: bool :: Count(Size(p), InFlight(p, Summary(trace[..m + 1]), isSub)) <= Cap(p, isSub)
    ensures trace[n].time <= trace[m].time
    decreases m
  {
    hide Legal, Summary, Count, InFlight, Valid;
    PrefixStep(p, trace, m);
    forall isSub: bool ensures Count(Size(p), InFlight(p, Summary(trace[..m + 1]), isSub)) <= Cap(p, isSub) {
      SlotsRespected(p, trace[..m + 1], isSub);
    }
    if n == m {
    } else {
      ScheduleSafety(p, trace, n, m - 1);
      PrefixStep(p, trace, m - 1);
    }
  }

  /** Work finished plus work in progress at time `t`. */
  function Work(p: Params, h: Hist, isSub: bool, t: nat): nat
    requires Valid(p)
  {
    Sum(p.dur, DoneOf(p, h, isSub)) + Sum(Elapsed(p, h, t), InFlight(p, h, isSub))
  }

  lemma SlotsTimesTime(work: nat, cap: nat, count: nat, now: nat, d: nat)
    requires count <= cap && work <= cap * now
    ensures work + d * count <= cap * (now + d)
  {
    assert d * count <= d * cap;
    assert cap * (now + d) == cap * now + d * cap;
  }

  lemma WorkGrows(p: Params, h: Hist, isSub: bool, t: nat)
    requires Valid(p) && HistOk(p, h) && h.now <= t
    requires Count(Size(p), InFlight(p, h, isSub)) <= Cap(p, isSub)
    requires Work(p, h, isSub, h.now) <= Cap(p, isSub) * h.now
    ensures Work(p, h, isSub, t) <= Cap(p, isSub) * t
  {
    var flying, d := InFlight(p, h, isSub), t - h.now;
    SumShift(Elapsed(p, h, h.now), Elapsed(p, h, t), flying, d);
    SlotsTimesTime(Work(p, h, isSub, h.now), Cap(p, isSub), Count(Size(p), flying), h.now, d);
    hide Sum, Elapsed, InFlight, DoneOf, Count;
  }

  lemma StartWorkStep(p: Params, h: Hist, isSub: bool, e: Emitted)
    requires Valid(p) && HistOk(p, h) && May(p, h, e) && e.Started?
    ensures Work(p, Record(h, e), isSub, e.time) == Work(p, h, isSub, e.time)
  {
    var h', i, t := Record(h, e), e.node, e.time;
    var before, after := InFlight(p, h, isSub), InFlight(p, h', isSub);
    var w, w' := Elapsed(p, h, t), Elapsed(p, h', t);
    assert DoneOf(p, h', isSub) == DoneOf(p, h, isSub);
    assert i !in before;
    SumSame(w', w, before, before);
    if p.sub[i] == isSub {
      assert after == before + {i};
      SumAdd(w', before, i);
    } else {
      assert after == before;
    }
  }

  lemma FinishWorkStep(p: Params, h: Hist, isSub: bool, e: Emitted)
    requires Valid(p) && HistOk(p, h) && May(p, h, e) && e.Finished?
    ensures Work(p, Record(h, e), isSub, e.time) == Work(p, h, isSub, e.time)
  {
    var h', i, t := Record(h, e), e.node, e.time;
    var before, after := InFlight(p, h, isSub), InFlight(p, h', isSub);
    var done, done' := DoneOf(p, h, isSub), DoneOf(p, h', isSub);
    var w := Elapsed(p, h, t);
    assert Elapsed(p, h', t) == w;
    if p.sub[i] == isSub {
      assert after == before - {i} && done' == done + {i};
      SumRemove(w, before, i);
      SumAdd(p.dur, done, i);
    } else {
      assert after == before && done' == done;
    }
  }

  lemma WorkStep(p: Params, h: Hist, isSub: bool, e: Emitted)
    requires Valid(p) && HistOk(p, h) && May(p, h, e)
    ensures Work(p, Record(h, e), isSub, e.time) == Work(p, h, isSub, e.time)
  {
    if e.Started? {
      StartWorkStep(p, h, isSub, e);
    } else if e.Finished? {
      FinishWorkStep(p, h, isSub, e);
    } else {
      var h' := Record(h, e);
      assert InFlight(p, h', isSub) == InFlight(p, h, isSub) && DoneOf(p, h', isSub) == DoneOf(p, h, isSub);
      assert Elapsed(p, h', e.time) == Elapsed(p, h, e.time);
    }
  }

  lemma {:induction false} WorkBound(p: Params, trace: seq<Emitted>, isSub: bool)
    requires Valid(p) && Legal(p, trace)
    ensures Work(p, Summary(trace), isSub, Summary(trace).now) <= Cap(p, isSub) * Summary(trace).now
  {
    if trace == [] {
      SumZero(p.dur, DoneOf(p, NOTHING, isSub));
      SumZero(Elapsed(p, NOTHING, 0), InFlight(p, NOTHING, isSub));
    } else {
      var init, e := trace[..|trace| - 1], trace[|trace| - 1];
      var h := Summary(init);
      WorkBound(p, init, isSub);
      LegalHist(p, init);
      SlotsRespected(p, init, isSub);
      WorkGrows(p, h, isSub, e.time);
      WorkStep(p, h, isSub, e);
      assert Summary(trace) == Record(h, e) && Record(h, e).now == e.time;
    }
  }

  function Kind(p: Params, isSub: bool): set<nat> {
    set i | 0 <= i < Size(p) && i < |p.sub| && p.sub[i] == isSub
  }

  /** The total duration of each kind fits into its slots over the length of the run. */
  lemma MakespanAtLeastWork(p: Params, trace: seq<Emitted>, isSub: bool)
    requires Valid(p) && Legal(p, trace) && Complete(p, trace)
    ensures Sum(p.dur, Kind(p, isSub)) <= Cap(p, isSub) * Summary(trace).now
  {
    WorkBound(p, trace, isSub);
    var h := Summary(trace);
    SumMono(p.dur, p.dur, Kind(p, isSub), DoneOf(p, h, isSub));
  }
}
