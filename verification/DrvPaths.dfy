/** Reported attribute paths lead back to what was reported, nothing is reported twice, and
    everything the rules meet is reported, in order. */
module DrvPaths {
  import opened Optional
  import opened AttrPath
  import opened AttrText
  import opened DrvValues
  import opened GetDrvs
  import opened DrvRules

  /* ---- following a path ---- */

  /** `attr` selects `w`: by index if it is a number, and by name otherwise, which must not be empty. */
  ghost predicate Selects(v: Val, attr: string, w: Val) {
    || (exists n: nat :: IsNumber(attr, n) && v.List? && n < |v.items| && w == v.items[n])
    || ((forall n: nat :: !IsNumber(attr, n)) && attr != "" && HasMember(v, attr, w))
  }

  lemma SelectMeans(v: Val, attr: string, w: Val)
    requires WellFormed(v)
    ensures Select(v, attr) == Some(w) <==> Selects(v, attr, w)
  {
    forall n: nat ensures IsNumber(attr, n) <==> ParseIndex(attr) == Some(n) {
      IndexMeans(attr, n);
    }
    hide IsNumber, ParseIndex, HasMember;
    if v.Attrs? {
      FindMember(v, attr);
    }
  }

  /** Each value on the way is called, and the next component selects the next one. */
  ghost predicate FollowsBy(ts: seq<string>, vs: seq<Val>) {
    && |vs| == |ts| + 1
    && forall k | 0 <= k < |ts| :: AutoCall(vs[k]).Some? && Selects(AutoCall(vs[k]).value, ts[k], vs[k + 1])
  }

  ghost predicate FollowsTo(v: Val, ts: seq<string>, w: Val) {
    exists vs :: FollowsBy(ts, vs) && vs[0] == v && vs[|ts|] == w
  }

  lemma SelectWellFormed(v: Val, attr: string)
    requires WellFormed(v) && Select(v, attr).Some?
    ensures WellFormed(Select(v, attr).value)
  {
  }

  /** Following a path leads to a value exactly if it does so step by step. */
  lemma FollowMeans(v: Val, ts: seq<string>, w: Val)
    requires WellFormed(v)
    ensures Follow(v, ts) == Some(w) <==> FollowsTo(v, ts, w)
  {
    if Follow(v, ts) == Some(w) {
      FollowIsBy(v, ts, w);
    }
    if FollowsTo(v, ts, w) {
      var vs :| FollowsBy(ts, vs) && vs[0] == v && vs[|ts|] == w;
      ByIsFollow(ts, vs);
    }
  }

  lemma {:induction false} FollowIsBy(v: Val, ts: seq<string>, w: Val)
    requires WellFormed(v) && Follow(v, ts) == Some(w)
    ensures FollowsTo(v, ts, w)
    decreases |ts|
  {
    hide Select, Selects;
    if ts == [] {
      assert FollowsBy(ts, [v]);
    } else {
      var called := AutoCall(v).value;
      AutoCallWellFormed(v);
      var next := Select(called, ts[0]).value;
      SelectMeans(called, ts[0], next);
      SelectWellFormed(called, ts[0]);
      FollowIsBy(next, ts[1..], w);
      var rest :| FollowsBy(ts[1..], rest) && rest[0] == next && rest[|ts| - 1] == w;
      var vs := [v] + rest;
      forall k | 0 <= k < |ts| ensures AutoCall(vs[k]).Some? && Selects(AutoCall(vs[k]).value, ts[k], vs[k + 1]) {
        if k > 0 {
          assert ts[1..][k - 1] == ts[k];
        }
      }
      assert FollowsBy(ts, vs);
    }
  }

  lemma {:induction false} ByIsFollow(ts: seq<string>, vs: seq<Val>)
    requires FollowsBy(ts, vs) && WellFormed(vs[0])
    ensures Follow(vs[0], ts) == Some(vs[|ts|])
    decreases |ts|
  {
    hide Select, Selects;
    if ts == [] {
    } else {
      var called := AutoCall(vs[0]).value;
      AutoCallWellFormed(vs[0]);
      SelectMeans(called, ts[0], vs[1]);
      SelectWellFormed(called, ts[0]);
      forall k | 0 <= k < |ts[1..]|
        ensures AutoCall(vs[1..][k]).Some? && Selects(AutoCall(vs[1..][k]).value, ts[1..][k], vs[1..][k + 1])
      {
        assert vs[1..][k] == vs[k + 1] && ts[1..][k] == ts[k + 1] && vs[1..][k + 1] == vs[k + 2];
      }
      ByIsFollow(ts[1..], vs[1..]);
    }
  }

  /* ---- paths lead back ---- */

  /** Every index in the path can be read back. */
  predicate Readable(steps: seq<Step>) {
    forall k | 0 <= k < |steps| :: steps[k].Index? ==> steps[k].index < UINT_LIMIT
  }

  /** `w` is the derivation, or becomes it when called. */
  predicate LeadsTo(w: Val, id: nat) {
    (IsDrv(w) && w.id == id) || (AutoCall(w).Some? && IsDrv(AutoCall(w).value) && AutoCall(w).value.id == id)
  }

  lemma ReadableCons(s: Step, rest: seq<Step>)
    ensures Readable([s] + rest) <==> Readable(rest) && (s.Index? ==> s.index < UINT_LIMIT)
  {
    var steps := [s] + rest;
    if Readable(steps) {
      assert steps[0] == s;
      forall k | 0 <= k < |rest| ensures rest[k].Index? ==> rest[k].index < UINT_LIMIT {
        assert steps[k + 1] == rest[k];
      }
    }
  }

  lemma TextsCons(s: Step, rest: seq<Step>)
    ensures Texts([s] + rest)[0] == Text(s) && Texts([s] + rest)[1..] == Texts(rest)
  {
  }

  /** Selecting what was entered. */
  lemma SelectEntered(v: Val, s: Step, rest: seq<Step>, x: Thing, ignore: bool) returns (w: Val)
    requires WellFormed(v) && MeetsIn(v, s, rest, x, ignore) && x.Drv?
    ensures WellFormed(w)
    ensures s.Index? && s.index >= UINT_LIMIT ==> Select(v, Text(s)).None?
    ensures !(s.Index? && s.index >= UINT_LIMIT) ==> Select(v, Text(s)) == Some(w)
    ensures Meets(w, rest, x, ignore) || (rest == [] && IsThing(w, x, ignore))
    ensures Plain(Text(s))
  {
    hide Meets, IsThing;
    match s {
      case Name(n) =>
        var k :| 0 <= k < |v.members| && v.members[k].name == n && MeetsMember(v, k, rest, x, ignore);
        ComponentPlain(n);
        FindUnique(v.members, n, k);
        w := v.members[k].value;
      case Index(k) =>
        IndexRoundTrip(k);
        w := v.items[k];
    }
  }

  lemma {:induction false} FollowMet(vIn: Val, steps: seq<Step>, x: Thing, ignore: bool)
    requires WellFormed(vIn) && Meets(vIn, steps, x, ignore) && x.Drv?
    ensures Readable(steps) ==> Follow(vIn, Texts(steps)).Some? && LeadsTo(Follow(vIn, Texts(steps)).value, x.id)
    ensures !Readable(steps) ==> Follow(vIn, Texts(steps)).None?
    decreases |steps|
  {
    if steps == [] {
    } else {
      var v := AutoCall(vIn).value;
      AutoCallWellFormed(vIn);
      var s, rest := steps[0], steps[1..];
      assert steps == [s] + rest;
      var w := SelectEntered(v, s, rest, x, ignore);
      ReadableCons(s, rest);
      TextsCons(s, rest);
      hide Readable, Texts, Select, Look, MeetsIn, Text, AutoCall;
      if Meets(w, rest, x, ignore) {
        FollowMet(w, rest, x, ignore);
      }
    }
  }

  lemma {:induction false} StepsPlain(vIn: Val, steps: seq<Step>, x: Thing, ignore: bool)
    requires WellFormed(vIn) && Meets(vIn, steps, x, ignore) && x.Drv?
    ensures forall k | 0 <= k < |steps| :: Plain(Text(steps[k]))
    decreases |steps|
  {
    if steps == [] {
    } else {
      AutoCallWellFormed(vIn);
      var rest := steps[1..];
      var w := SelectEntered(AutoCall(vIn).value, steps[0], rest, x, ignore);
      if Meets(w, rest, x, ignore) {
        StepsPlain(w, rest, x, ignore);
      }
      hide Plain, Text, Meets;
      forall k | 0 <= k < |steps| ensures Plain(Text(steps[k])) {
        if k > 0 {
          assert rest[k - 1] == steps[k];
        }
      }
    }
  }

  /** Parsing a printed path and following it back selects the derivation (up to a final call),
      exactly if every list index on it fits into 32 bits. */
  lemma PathLeadsBack(vIn: Val, steps: seq<Step>, x: Thing, ignore: bool)
    requires WellFormed(vIn) && Meets(vIn, steps, x, ignore) && x.Drv?
    ensures Parse(PathOf(steps)) == Some(Texts(steps))
    ensures Readable(steps) <==> Follow(vIn, Texts(steps)).Some?
    ensures Readable(steps) ==> LeadsTo(Follow(vIn, Texts(steps)).value, x.id)
  {
    StepsPlain(vIn, steps, x, ignore);
    RoundTrip(Texts(steps));
    FollowMet(vIn, steps, x, ignore);
  }

  /** A list with a derivation at index 2^32: the rules meet it, but its path does not lead to it. */
  lemma PathLost(ignore: bool) returns (v: Val, steps: seq<Step>)
    ensures WellFormed(v) && Meets(v, steps, Drv(4294967296, NameFails), ignore)
    ensures Parse(PathOf(steps)) == Some(Texts(steps)) && Follow(v, Texts(steps)).None?
  {
    var kind := [Member("type", Str("derivation"))];
    v := List(seq(UINT_LIMIT + 1, k requires 0 <= k <= UINT_LIMIT => Attrs(k, kind, NotCallable)));
    steps := [Index(UINT_LIMIT)];
    var x := Drv(UINT_LIMIT, NameFails);
    assert IsThing(v.items[UINT_LIMIT], x, ignore);
    assert MeetsItem(v, UINT_LIMIT, [], x, ignore);
    assert MeetsIn(v, steps[0], steps[1..], x, ignore);
    PathLeadsBack(v, steps, x, ignore);
    assert !Readable(steps);
  }

  /** The place reported for a package: the rules meet it there, its path parses, and the path can
      be followed, to the package's set, exactly if its indices can be read. */
  ghost predicate LeadsBack(v: Val, d: Package, steps: seq<Step>, ignore: bool) {
    && d.attrPath == PathOf(steps) && Meets(v, steps, Drv(d.id, Named), ignore)
    && Parse(d.attrPath) == Some(Texts(steps))
    && (Readable(steps) <==> Follow(v, Texts(steps)).Some?)
    && (Readable(steps) ==> LeadsTo(Follow(v, Texts(steps)).value, d.id))
  }

  /* ---- the report ---- */

  /** Packages are distinct, all of them come from occurrences, and all sets seen are done. */
  ghost predicate ReportOk(r: Report, occs: seq<Occ>) {
    && (forall i, j | 0 <= i < j < |r.drvs| :: r.drvs[i].id != r.drvs[j].id)
    && (forall i | 0 <= i < |r.drvs| :: r.drvs[i].id in r.done && FromOcc(r.drvs[i], occs))
    && (forall k | 0 <= k < |occs| :: occs[k].id in r.done)
    && (forall k | 0 <= k < |occs| && FirstOf(occs, k) && occs[k].name.Named? :: Lists(r, occs[k]))
  }

  ghost predicate FromOcc(d: Package, occs: seq<Occ>) {
    exists k :: 0 <= k < |occs| && FirstOf(occs, k) && d == Package(PathOf(occs[k].steps), occs[k].id)
  }

  /** The occurrence is the first of its set. */
  predicate FirstOf(occs: seq<Occ>, k: nat)
    requires k < |occs|
  {
    forall j | 0 <= j < k :: occs[j].id != occs[k].id
  }

  ghost predicate Lists(r: Report, o: Occ) {
    Package(PathOf(o.steps), o.id) in r.drvs
  }

  /** Every set noted is that of an occurrence. */
  ghost predicate DoneFrom(r: Report, occs: seq<Occ>) {
    forall id | id in r.done :: exists k :: 0 <= k < |occs| && occs[k].id == id
  }

  lemma DoneMore(r: Report, init: seq<Occ>, o: Occ, ignore: bool)
    requires DoneFrom(r, init) && Note(r, o, ignore).Some?
    ensures DoneFrom(Note(r, o, ignore).value, init + [o])
  {
    var occs := init + [o];
    forall id | id in Note(r, o, ignore).value.done ensures exists k :: 0 <= k < |occs| && occs[k].id == id {
      if id in r.done {
        var k :| 0 <= k < |init| && init[k].id == id;
        assert occs[k].id == id;
      } else {
        assert occs[|init|].id == id;
      }
    }
  }

  lemma {:induction false} CollectOk(occs: seq<Occ>, ignore: bool)
    requires Collect(Report([], {}), occs, ignore).Some?
    ensures ReportOk(Collect(Report([], {}), occs, ignore).value, occs)
    ensures DoneFrom(Collect(Report([], {}), occs, ignore).value, occs)
  {
    hide Note, FromOcc, FirstOf, Lists;
    if occs == [] {
    } else {
      var init, o := occs[..|occs| - 1], occs[|occs| - 1];
      CollectOk(init, ignore);
      var r := Collect(Report([], {}), init, ignore).value;
      NoteOk(r, init, o, ignore);
      DoneMore(r, init, o, ignore);
      assert init + [o] == occs;
    }
  }

  lemma FromMore(d: Package, init: seq<Occ>, o: Occ)
    requires FromOcc(d, init)
    ensures FromOcc(d, init + [o])
  {
    var k :| 0 <= k < |init| && FirstOf(init, k) && d == Package(PathOf(init[k].steps), init[k].id);
    FirstFewer(init, o, k);
    assert (init + [o])[k] == init[k];
  }

  lemma FirstFewer(init: seq<Occ>, o: Occ, k: nat)
    requires k < |init|
    ensures FirstOf(init + [o], k) <==> FirstOf(init, k)
  {
    assert forall j | 0 <= j <= k :: (init + [o])[j] == init[j];
  }

  lemma NoteLists(r: Report, init: seq<Occ>, o: Occ, ignore: bool, k: nat)
    requires ReportOk(r, init) && Note(r, o, ignore).Some?
    requires DoneFrom(r, init)
    requires k <= |init| && FirstOf(init + [o], k) && (init + [o])[k].name.Named?
    ensures Lists(Note(r, o, ignore).value, (init + [o])[k])
  {
    var occs := init + [o];
    if k < |init| {
      FirstFewer(init, o, k);
      assert Lists(r, init[k]);
    } else {
      forall j | 0 <= j < |init| ensures init[j].id != o.id {
        assert occs[j] == init[j];
      }
    }
  }

  lemma NoteOk(r: Report, init: seq<Occ>, o: Occ, ignore: bool)
    requires ReportOk(r, init) && Note(r, o, ignore).Some?
    requires DoneFrom(r, init)
    ensures ReportOk(Note(r, o, ignore).value, init + [o])
  {
    var r', occs := Note(r, o, ignore).value, init + [o];
    forall i | 0 <= i < |r'.drvs| ensures r'.drvs[i].id in r'.done && FromOcc(r'.drvs[i], occs) {
      if i < |r.drvs| {
        FromMore(r.drvs[i], init, o);
      } else {
        forall j | 0 <= j < |init| ensures occs[j].id != o.id {
          assert init[j].id in r.done;
        }
        assert FirstOf(occs, |init|) && occs[|init|] == o;
      }
    }
    hide FromOcc, FirstOf, Lists;
    forall k | 0 <= k < |occs| && FirstOf(occs, k) && occs[k].name.Named? ensures Lists(r', occs[k]) {
      NoteLists(r, init, o, ignore, k);
    }
  }

  /** The first occurrences with a name, in order. */
  function FirstNamed(occs: seq<Occ>): seq<Package> {
    if occs == [] then []
    else
      var k := |occs| - 1;
      FirstNamed(occs[..k]) +
        if FirstOf(occs, k) && occs[k].name.Named? then [Package(PathOf(occs[k].steps), occs[k].id)] else []
  }

  /** The name of some first occurrence cannot be had. */
  ghost predicate BadName(occs: seq<Occ>, ignore: bool) {
    exists k :: 0 <= k < |occs| && IsBad(occs, k, ignore)
  }

  predicate IsBad(occs: seq<Occ>, k: nat, ignore: bool)
    requires k < |occs|
  {
    FirstOf(occs, k) && (occs[k].name.NameFails? || (occs[k].name.NameAsserts? && !ignore))
  }

  function Ids(occs: seq<Occ>): set<nat> { set o | o in occs :: o.id }

  lemma SeenBefore(init: seq<Occ>, o: Occ)
    ensures o.id in Ids(init) <==> !FirstOf(init + [o], |init|)
    ensures Ids(init + [o]) == Ids(init) + {o.id}
  {
    var occs := init + [o];
    if o.id in Ids(init) {
      var j :| 0 <= j < |init| && init[j].id == o.id;
      assert occs[j].id == occs[|init|].id;
    } else {
      forall j | 0 <= j < |init| ensures occs[j].id != o.id {
        assert init[j] in init;
      }
    }
    forall id ensures id in Ids(occs) <==> id in Ids(init) || id == o.id {
      assert forall x :: x in occs <==> x in init || x == o;
    }
  }

  lemma BadMore(init: seq<Occ>, o: Occ, ignore: bool)
    ensures BadName(init + [o], ignore) <==> BadName(init, ignore) || IsBad(init + [o], |init|, ignore)
  {
    var occs := init + [o];
    forall k | 0 <= k < |init| ensures IsBad(occs, k, ignore) <==> IsBad(init, k, ignore) {
      FirstFewer(init, o, k);
    }
  }

  /** Reporting fails exactly if the name of some first occurrence cannot be had, and otherwise gives the first
      occurrences with a name, in order. */
  lemma {:induction false} CollectIs(occs: seq<Occ>, ignore: bool)
    ensures Collect(Report([], {}), occs, ignore)
      == if BadName(occs, ignore) then None else Some(Report(FirstNamed(occs), Ids(occs)))
  {
    hide BadName, FirstOf, Ids;
    if occs == [] {
      NoneBad(ignore);
    } else {
      var init, o := occs[..|occs| - 1], occs[|occs| - 1];
      assert init + [o] == occs;
      CollectIs(init, ignore);
      SeenBefore(init, o);
      BadMore(init, o, ignore);
      assert o.id in Ids(init) ==> Ids(init) + {o.id} == Ids(init);
      assert FirstNamed(init) + [] == FirstNamed(init);
    }
  }

  lemma NoneBad(ignore: bool)
    ensures !BadName([], ignore) && Ids([]) == {}
  {
  }

  /** Exactly the derivations the rules meet, each at its place and with what its name gives, in the order of
      their places. */
  ghost predicate OccsAre(v: Val, occs: seq<Occ>, ignore: bool) {
    && (forall i | 0 <= i < |occs| :: Meets(v, occs[i].steps, Drv(occs[i].id, occs[i].name), ignore))
    && (forall steps, id, n | Meets(v, steps, Drv(id, n), ignore) :: Holds(occs, steps, Drv(id, n)))
    && (forall i, j | 0 <= i < j < |occs| :: Precedes(v, occs[i].steps, occs[j].steps))
  }

  lemma WalkIs(v: Val, ignore: bool)
    requires WellFormed(v) && Walk(v, [], ignore).Some?
    ensures OccsAre(v, Walk(v, [], ignore).value, ignore)
  {
    hide Walk, Meets, Holds, Precedes;
    var occs := Walk(v, [], ignore).value;
    forall i | 0 <= i < |occs| ensures Meets(v, occs[i].steps, Drv(occs[i].id, occs[i].name), ignore) {
      var steps := FoundIsMet(v, [], ignore, i);
      assert [] + steps == steps;
    }
    forall steps, id, n | Meets(v, steps, Drv(id, n), ignore) ensures Holds(occs, steps, Drv(id, n)) {
      MetIsFound(v, [], steps, Drv(id, n), ignore);
      assert [] + steps == steps;
    }
    forall i, j | 0 <= i < j < |occs| ensures Precedes(v, occs[i].steps, occs[j].steps) {
      var a, b := FoundInOrder(v, [], ignore, i, j);
      assert [] + a == a && [] + b == b;
    }
  }

  /** A search from an empty prefix. If the rules meet an error it fails. Otherwise `occs` are the derivations the
      rules meet, in order; the search fails exactly if the name of the first occurrence of some set cannot be
      had, and else reports the first occurrences with a name, whose paths lead back to them. */
  method ReportDerivations(v: Val, ignore: bool) returns (ok: bool, drvs: seq<Package>, ghost occs: seq<Occ>)
    requires WellFormed(v)
    ensures MeetsError(v, ignore) ==> !ok
    ensures !MeetsError(v, ignore) ==>
      OccsAre(v, occs, ignore) && (ok <==> !BadName(occs, ignore))
    ensures ok ==> drvs == FirstNamed(occs)
    ensures ok ==> forall i, j | 0 <= i < j < |drvs| :: drvs[i].id != drvs[j].id
    ensures ok ==> forall d | d in drvs :: exists steps :: LeadsBack(v, d, steps, ignore)
  {
    hide Meets, OccsAre, Walk, LeadsBack, Collect, BadName, FirstNamed, Outcome;
    var search := new Search(ignore);
    EmptyPath();
    ok := search.GetDerivations(v, "", []);
    drvs := search.drvs;
    occs := ReportMeans(v, ignore, if ok then Some(search.Contents()) else None);
  }

  lemma EmptyPath()
    ensures PathOf([]) == ""
  {
    assert Texts([]) == [];
  }

  lemma ReportMeans(v: Val, ignore: bool, r: Option<Report>) returns (occs: seq<Occ>)
    requires WellFormed(v) && r == Outcome(Report([], {}), Walk(v, [], ignore), ignore)
    ensures MeetsError(v, ignore) ==> r.None?
    ensures !MeetsError(v, ignore) ==>
      OccsAre(v, occs, ignore) && (r.Some? <==> !BadName(occs, ignore))
    ensures r.Some? ==> r.value.drvs == FirstNamed(occs)
    ensures r.Some? ==> forall i, j | 0 <= i < j < |r.value.drvs| :: r.value.drvs[i].id != r.value.drvs[j].id
    ensures r.Some? ==> forall d | d in r.value.drvs :: exists steps :: LeadsBack(v, d, steps, ignore)
  {
    hide Meets, OccsAre, Walk, LeadsBack, Collect, BadName, FirstNamed;
    FailsIff(v, [], ignore);
    occs := if Walk(v, [], ignore).Some? then Walk(v, [], ignore).value else [];
    if Walk(v, [], ignore).Some? {
      WalkIs(v, ignore);
      CollectIs(occs, ignore);
    }
    if r.Some? {
      CollectOk(occs, ignore);
      forall d | d in r.value.drvs ensures exists steps :: LeadsBack(v, d, steps, ignore) {
        ReportedLeadsBack(v, occs, d, ignore);
      }
    }
  }

  lemma {:induction false} FirstNamedFrom(occs: seq<Occ>, d: Package) returns (k: nat)
    requires d in FirstNamed(occs)
    ensures k < |occs| && occs[k].name.Named? && d == Package(PathOf(occs[k].steps), occs[k].id)
  {
    var n := |occs| - 1;
    if d in FirstNamed(occs[..n]) {
      k := FirstNamedFrom(occs[..n], d);
    } else {
      k := n;
    }
  }

  lemma ReportedLeadsBack(v: Val, occs: seq<Occ>, d: Package, ignore: bool)
    requires WellFormed(v) && OccsAre(v, occs, ignore) && d in FirstNamed(occs)
    ensures exists steps :: LeadsBack(v, d, steps, ignore)
  {
    hide Meets, Precedes, Holds;
    var k := FirstNamedFrom(occs, d);
    PathLeadsBack(v, occs[k].steps, Drv(d.id, Named), ignore);
    assert LeadsBack(v, d, occs[k].steps, ignore);
  }
}
