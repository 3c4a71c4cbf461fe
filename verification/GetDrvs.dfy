/** Collecting the derivations below a value, and what the reported paths lead to. */
module GetDrvs {
  import opened Optional
  import opened AttrPath
  import opened DrvValues

  datatype Step = Name(name: string) | Index(index: nat)

  function Text(s: Step): string {
    match s
    case Name(n) => n
    case Index(k) => Decimal(k)
  }

  function Texts(steps: seq<Step>): (r: seq<string>)
    ensures |r| == |steps| && forall k | 0 <= k < |steps| :: r[k] == Text(steps[k])
  {
    seq(|steps|, k requires 0 <= k < |steps| => Text(steps[k]))
  }

  /** The attribute path reported for a place. */
  function PathOf(steps: seq<Step>): string { Print(Texts(steps)) }

  lemma PathSnoc(steps: seq<Step>, s: Step)
    ensures PathOf(steps + [s]) == AddToPath(PathOf(steps), Text(s))
  {
    assert Texts(steps + [s])[..|steps|] == Texts(steps);
  }

  /* ---- looking at one value ---- */

  /** Asking for a derivation's name succeeds, fails on an assertion, or fails otherwise. */
  datatype NameResult = Named | NameAsserts | NameFails

  /** A derivation found at a place. */
  datatype Occ = Occ(steps: seq<Step>, id: nat, name: NameResult)

  /** Failing with an exception, skipping (a derivation's or value's assertion failure that is
      ignored), a derivation, or something else. */
  datatype Looked = Fails | Skipped | Derivation | NoDerivation

  function OnError(assertion: bool, ignoreAssertions: bool): Looked {
    if assertion && ignoreAssertions then Skipped else Fails
  }

  /** Force the value and ask whether it is a derivation. */
  function Look(v: Val, ignore: bool): (r: Looked)
    ensures r.Derivation? ==> v.Attrs?
  {
    match v
    case Throws(a) => OnError(a, ignore)
    case Attrs(_, members, _) =>
      var k := Find(members, "type");
      if k == |members| then NoDerivation
      else
        var t := members[k].value;
        if t.Throws? then OnError(t.assertion, ignore)
        else if t == Str("derivation") then Derivation
        else NoDerivation
    case _ => NoDerivation
  }

  function NameOf(v: Val): NameResult
    requires v.Attrs?
  {
    var k := Find(v.members, "name");
    if k == |v.members| then NameFails
    else
      var n := v.members[k].value;
      if n.Str? then Named else if n == Throws(true) then NameAsserts else NameFails
  }

  /** `recurseForDerivations`: absent counts as false, anything but a boolean is an error. */
  function Recurses(v: Val): Option<bool>
    requires v.Attrs?
  {
    var k := Find(v.members, "recurseForDerivations");
    if k == |v.members| then Some(false)
    else if v.members[k].value.Bool? then Some(v.members[k].value.b)
    else None
  }

  predicate Combines(v: Val)
    requires v.Attrs?
  {
    Find(v.members, "_combineChannels") < |v.members|
  }

  /* ---- the search, without the set of what is done already ---- */

  function Join(a: Option<seq<Occ>>, b: Option<seq<Occ>>): Option<seq<Occ>> {
    if a.None? || b.None? then None else Some(a.value + b.value)
  }

  /** All derivations found below `vIn`, in order; `None` if evaluation fails on the way. */
  function Walk(vIn: Val, at: seq<Step>, ignore: bool): Option<seq<Occ>>
    decreases vIn, 1, 0
  {
    var called := AutoCall(vIn);
    if called.None? then None
    else
      var v := called.value;
      match Look(v, ignore)
      case Fails => None
      case Skipped => Some([])
      case Derivation => Some([Occ(at, v.id, NameOf(v))])
      case NoDerivation =>
        if v.Attrs? then WalkMembers(v, |v.members|, at, ignore)
        else if v.List? then WalkItems(v, |v.items|, at, ignore)
        else None
  }

  /** The first `n` members of a set. */
  function WalkMembers(v: Val, n: nat, at: seq<Step>, ignore: bool): Option<seq<Occ>>
    requires v.Attrs? && n <= |v.members|
    decreases v, 0, n
  {
    if n == 0 then Some([])
    else Join(WalkMembers(v, n - 1, at, ignore), WalkMember(v, n - 1, at, ignore))
  }

  function WalkMember(v: Val, k: nat, at: seq<Step>, ignore: bool): Option<seq<Occ>>
    requires v.Attrs? && k < |v.members|
    decreases v, 0, k
  {
    var m := v.members[k];
    var here := at + [Name(m.name)];
    if !IsComponent(m.name) then Some([])
    else if Combines(v) then Walk(m.value, here, ignore)
    else
      match Look(m.value, ignore)
      case Fails => None
      case Skipped => Some([])
      case Derivation => Some([Occ(here, m.value.id, NameOf(m.value))])
      case NoDerivation =>
        if !m.value.Attrs? then Some([])
        else
          var rec := Recurses(m.value);
          if rec.None? then None
          else if rec.value then Walk(m.value, here, ignore)
          else Some([])
  }

  function WalkItems(v: Val, n: nat, at: seq<Step>, ignore: bool): Option<seq<Occ>>
    requires v.List? && n <= |v.items|
    decreases v, 0, n
  {
    if n == 0 then Some([])
    else Join(WalkItems(v, n - 1, at, ignore), WalkItem(v, n - 1, at, ignore))
  }

  function WalkItem(v: Val, k: nat, at: seq<Step>, ignore: bool): Option<seq<Occ>>
    requires v.List? && k < |v.items|
    decreases v, 0, k
  {
    var here, w := at + [Index(k)], v.items[k];
    match Look(w, ignore)
    case Fails => None
    case Skipped => Some([])
    case Derivation => Some([Occ(here, w.id, NameOf(w))])
    case NoDerivation => Walk(w, here, ignore)
  }

  /* ---- reporting ---- */

  datatype Package = Package(attrPath: string, id: nat)

  /** What has been reported, and which sets have been seen. */
  datatype Report = Report(drvs: seq<Package>, done: set<nat>)

  /** Record one derivation unless its set was seen before; `None` is an exception. */
  function Note(r: Report, o: Occ, ignore: bool): Option<Report> {
    if o.id in r.done then Some(r)
    else
      var r' := r.(done := r.done + {o.id});
      match o.name
      case Named => Some(r'.(drvs := r.drvs + [Package(PathOf(o.steps), o.id)]))
      case NameAsserts => if ignore then Some(r') else None
      case NameFails => None
  }

  function Collect(r: Report, occs: seq<Occ>, ignore: bool): Option<Report> {
    if occs == [] then Some(r)
    else
      var before := Collect(r, occs[..|occs| - 1], ignore);
      if before.None? then None else Note(before.value, occs[|occs| - 1], ignore)
  }

  /** The search with a simple list of occurrences, reported one by one. */
  function Outcome(r: Report, occs: Option<seq<Occ>>, ignore: bool): Option<Report> {
    if occs.None? then None else Collect(r, occs.value, ignore)
  }

  lemma {:induction false} CollectAppend(r: Report, a: seq<Occ>, b: seq<Occ>, ignore: bool)
    ensures Collect(r, a + b, ignore)
         == var m := Collect(r, a, ignore); if m.None? then None else Collect(m.value, b, ignore)
  {
    if b == [] {
      assert a + b == a;
    } else {
      assert (a + b)[..|a + b| - 1] == a + b[..|b| - 1];
      CollectAppend(r, a, b[..|b| - 1], ignore);
    }
  }

  lemma CollectOne(r: Report, o: Occ, ignore: bool)
    ensures Collect(r, [o], ignore) == Note(r, o, ignore)
  {
    assert [o][..0] == [];
  }

  /** The searching object: results, and the sets considered already. */
  class Search {
    var drvs: seq<Package>
    var done: set<nat>
    const ignoreAssertionFailures: bool

    constructor (ignore: bool)
      ensures drvs == [] && done == {} && ignoreAssertionFailures == ignore
    {
      drvs, done := [], {};
      ignoreAssertionFailures := ignore;
    }

    ghost function Contents(): Report
      reads this
    {
      Report(drvs, done)
    }

    /** Report `v` if it is a derivation not seen before. `ok` is false if an exception was
        thrown; `recurse` says whether it makes sense to look inside. */
    method GetDerivation(v: Val, attrPath: string, ghost at: seq<Step>) returns (ok: bool, recurse: bool)
      requires attrPath == PathOf(at)
      modifies this
      ensures Look(v, ignoreAssertionFailures).Fails? ==> !ok
      ensures Look(v, ignoreAssertionFailures).Skipped? ==> ok && !recurse && Contents() == old(Contents())
      ensures Look(v, ignoreAssertionFailures).NoDerivation? ==> ok && recurse && Contents() == old(Contents())
      ensures Look(v, ignoreAssertionFailures).Derivation? ==>
        && !recurse
        && Note(old(Contents()), Occ(at, v.id, NameOf(v)), ignoreAssertionFailures)
           == if ok then Some(Contents()) else None
    {
      var looked := Look(v, ignoreAssertionFailures);
      match looked {
        case Fails => return false, false;
        case Skipped => return true, false;
        case NoDerivation => return true, true;
        case Derivation =>
          if v.id in done { return true, false; }
          done := done + {v.id};
          match NameOf(v) {
            case Named =>
              drvs := drvs + [Package(attrPath, v.id)];
              return true, false;
            case NameAsserts => return ignoreAssertionFailures, false;
            case NameFails => return false, false;
          }
      }
    }

    /** Search `vIn`. */
    method GetDerivations(vIn: Val, pathPrefix: string, ghost at: seq<Step>) returns (ok: bool)
      requires pathPrefix == PathOf(at)
      modifies this
      ensures Outcome(old(Contents()), Walk(vIn, at, ignoreAssertionFailures), ignoreAssertionFailures)
           == if ok then Some(Contents()) else None
      decreases vIn, 1, 0
    {
      var called := AutoCall(vIn);
      if called.None? { return false; }
      var v := called.value;
      var recurse;
      ok, recurse := GetDerivation(v, pathPrefix, at);
      if Look(v, ignoreAssertionFailures).Derivation? {
        CollectOne(old(Contents()), Occ(at, v.id, NameOf(v)), ignoreAssertionFailures);
      }
      if !ok || !recurse { return; }
      if v.Attrs? {
        ok := SearchMembers(v, pathPrefix, at);
      } else if v.List? {
        ok := SearchItems(v, pathPrefix, at);
      } else {
        ok := false;
      }
    }

    method SearchMembers(v: Val, pathPrefix: string, ghost at: seq<Step>) returns (ok: bool)
      requires v.Attrs? && pathPrefix == PathOf(at)
      modifies this
      ensures
        Outcome(old(Contents()), WalkMembers(v, |v.members|, at, ignoreAssertionFailures), ignoreAssertionFailures)
           == if ok then Some(Contents()) else None
      decreases v, 0, |v.members| + 1
    {
      ghost var ign, start := ignoreAssertionFailures, Contents();
      ok := true;
      for k := 0 to |v.members|
        invariant ok && Outcome(start, WalkMembers(v, k, at, ign), ign) == Some(Contents())
      {
        ghost var before := Contents();
        ok := SearchMember(v, k, pathPrefix, at);
        OutcomeJoin(start, WalkMembers(v, k, at, ign), WalkMember(v, k, at, ign), ign);
        if !ok {
          MembersStop(v, k + 1, |v.members|, at, start, ign);
          return;
        }
      }
    }

    method SearchMember(v: Val, k: nat, pathPrefix: string, ghost at: seq<Step>) returns (ok: bool)
      requires v.Attrs? && k < |v.members| && pathPrefix == PathOf(at)
      modifies this
      ensures Outcome(old(Contents()), WalkMember(v, k, at, ignoreAssertionFailures), ignoreAssertionFailures)
           == if ok then Some(Contents()) else None
      decreases v, 0, k
    {
      var m := v.members[k];
      ghost var here := at + [Name(m.name)];
      var component := IsAttrPathComponent(m.name);
      if !component { return true; }
      PathSnoc(at, Name(m.name));
      var pathPrefix2 := AddToPath(pathPrefix, m.name);
      if Combines(v) {
        ok := GetDerivations(m.value, pathPrefix2, here);
        return;
      }
      var recurse;
      ok, recurse := GetDerivation(m.value, pathPrefix2, here);
      if Look(m.value, ignoreAssertionFailures).Derivation? {
        CollectOne(old(Contents()), Occ(here, m.value.id, NameOf(m.value)), ignoreAssertionFailures);
      }
      if ok && recurse && m.value.Attrs? {
        var rec := Recurses(m.value);
        if rec.None? { return false; }
        if rec.value {
          ok := GetDerivations(m.value, pathPrefix2, here);
        }
      }
    }

    method SearchItems(v: Val, pathPrefix: string, ghost at: seq<Step>) returns (ok: bool)
      requires v.List? && pathPrefix == PathOf(at)
      modifies this
      ensures Outcome(old(Contents()), WalkItems(v, |v.items|, at, ignoreAssertionFailures), ignoreAssertionFailures)
           == if ok then Some(Contents()) else None
      decreases v, 0, |v.items| + 1
    {
      ghost var ign, start := ignoreAssertionFailures, Contents();
      ok := true;
      for n := 0 to |v.items|
        invariant ok && Outcome(start, WalkItems(v, n, at, ign), ign) == Some(Contents())
      {
        var elem := v.items[n];
        ghost var here, before := at + [Index(n)], Contents();
        PathSnoc(at, Index(n));
        var pathPrefix2 := AddToPath(pathPrefix, Decimal(n));
        var recurse;
        ok, recurse := GetDerivation(elem, pathPrefix2, here);
        if Look(elem, ign).Derivation? {
          CollectOne(before, Occ(here, elem.id, NameOf(elem)), ign);
        }
        if ok && recurse {
          ok := GetDerivations(elem, pathPrefix2, here);
        }
        assert Outcome(before, WalkItem(v, n, at, ign), ign) == if ok then Some(Contents()) else None;
        OutcomeJoin(start, WalkItems(v, n, at, ign), WalkItem(v, n, at, ign), ign);
        if !ok {
          ItemsStop(v, n + 1, |v.items|, at, start, ign);
          return;
        }
      }
    }
  }

  lemma OutcomeJoin(r: Report, a: Option<seq<Occ>>, b: Option<seq<Occ>>, ignore: bool)
    requires Outcome(r, a, ignore).Some?
    ensures Outcome(r, Join(a, b), ignore) == Outcome(Outcome(r, a, ignore).value, b, ignore)
  {
    if b.Some? {
      CollectAppend(r, a.value, b.value, ignore);
    }
  }

  lemma OutcomeStops(r: Report, a: Option<seq<Occ>>, b: Option<seq<Occ>>, ignore: bool)
    requires Outcome(r, a, ignore).None?
    ensures Outcome(r, Join(a, b), ignore).None?
  {
    if a.Some? && b.Some? {
      CollectAppend(r, a.value, b.value, ignore);
    }
  }

  lemma {:induction false} MembersStop(v: Val, n: nat, m: nat, at: seq<Step>, r: Report, ignore: bool)
    requires v.Attrs? && n <= m <= |v.members| && Outcome(r, WalkMembers(v, n, at, ignore), ignore).None?
    ensures Outcome(r, WalkMembers(v, m, at, ignore), ignore).None?
    decreases m
  {
    if n == m {
    } else {
      MembersStop(v, n, m - 1, at, r, ignore);
      OutcomeStops(r, WalkMembers(v, m - 1, at, ignore), WalkMember(v, m - 1, at, ignore), ignore);
    }
  }

  lemma {:induction false} ItemsStop(v: Val, n: nat, m: nat, at: seq<Step>, r: Report, ignore: bool)
    requires v.List? && n <= m <= |v.items| && Outcome(r, WalkItems(v, n, at, ignore), ignore).None?
    ensures Outcome(r, WalkItems(v, m, at, ignore), ignore).None?
    decreases m
  {
    if n == m {
    } else {
      ItemsStop(v, n, m - 1, at, r, ignore);
      OutcomeStops(r, WalkItems(v, m - 1, at, ignore), WalkItem(v, m - 1, at, ignore), ignore);
    }
  }
}
