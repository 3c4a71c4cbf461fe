/** Where the package search finds derivations and where it fails, as rules on values; and that the search does
    exactly what the rules say, in the order in which the values are listed. */
module DrvRules {
  import opened Optional
  import opened AttrPath
  import opened DrvValues
  import opened GetDrvs

  /* ---- looking at one value ---- */

  predicate HasMember(v: Val, name: string, w: Val) {
    v.Attrs? && Member(name, w) in v.members
  }

  /** A set whose type is "derivation". */
  predicate IsDrv(v: Val) {
    HasMember(v, "type", Str("derivation"))
  }

  /** Raising an error: an assertion failure may be ignored. */
  predicate Raises(v: Val, ignore: bool) {
    v.Throws? && !(v.assertion && ignore)
  }

  /** Finding out whether it is a derivation raises an error. */
  ghost predicate LookRaises(v: Val, ignore: bool) {
    Raises(v, ignore) || exists w :: HasMember(v, "type", w) && Raises(w, ignore)
  }

  /** It is known not to be a derivation. */
  ghost predicate NotDrv(v: Val) {
    !v.Throws? && forall w | HasMember(v, "type", w) :: !w.Throws? && w != Str("derivation")
  }

  ghost predicate IsCombined(v: Val) {
    exists w :: HasMember(v, "_combineChannels", w)
  }

  /** What comes of asking for a derivation's name. */
  ghost predicate NameIs(v: Val, n: NameResult) {
    match n
    case Named => exists t :: HasMember(v, "name", Str(t))
    case NameAsserts => HasMember(v, "name", Throws(true))
    case NameFails => forall w | HasMember(v, "name", w) :: !w.Str? && w != Throws(true)
  }

  lemma FindMember(v: Val, name: string)
    requires WellFormed(v) && v.Attrs?
    ensures var k := Find(v.members, name);
      if k == |v.members| then forall w :: !HasMember(v, name, w)
      else HasMember(v, name, v.members[k].value) && forall w | HasMember(v, name, w) :: w == v.members[k].value
  {
    var k := Find(v.members, name);
    if k < |v.members| {
      assert v.members[k] == Member(name, v.members[k].value);
    }
    forall w | HasMember(v, name, w) ensures k < |v.members| && w == v.members[k].value {
      var j :| 0 <= j < |v.members| && v.members[j] == Member(name, w);
      FindUnique(v.members, name, j);
    }
  }

  lemma LookMeans(v: Val, ignore: bool)
    requires WellFormed(v)
    ensures Look(v, ignore).Derivation? <==> IsDrv(v)
    ensures Look(v, ignore).NoDerivation? <==> NotDrv(v)
    ensures Look(v, ignore).Fails? <==> LookRaises(v, ignore)
  {
    if v.Attrs? {
      FindMember(v, "type");
    }
  }

  lemma NameMeans(v: Val)
    requires WellFormed(v) && v.Attrs?
    ensures NameIs(v, NameOf(v)) && forall n | NameIs(v, n) :: n == NameOf(v)
  {
    FindMember(v, "name");
    var k := Find(v.members, "name");
    if k < |v.members| && v.members[k].value.Str? {
      assert HasMember(v, "name", Str(v.members[k].value.s));
    }
  }

  /** Only a set that says so is searched: nothing is assumed if it says nothing. */
  lemma RecursesMeans(v: Val)
    requires WellFormed(v) && v.Attrs?
    ensures Recurses(v) == Some(true) <==> HasMember(v, "recurseForDerivations", Bool(true))
    ensures Recurses(v) == None <==> exists w :: HasMember(v, "recurseForDerivations", w) && !w.Bool?
  {
    FindMember(v, "recurseForDerivations");
  }

  lemma CombinesMeans(v: Val)
    requires WellFormed(v) && v.Attrs?
    ensures Combines(v) <==> IsCombined(v)
  {
    FindMember(v, "_combineChannels");
  }

  /* ---- the rules ---- */

  /** What there is to meet: a derivation, with what asking for its name gives, or an error. */
  datatype Thing = Drv(id: nat, name: NameResult) | Error

  ghost predicate IsThing(v: Val, x: Thing, ignore: bool) {
    match x
    case Drv(id, n) => IsDrv(v) && v.id == id && NameIs(v, n)
    case Error => LookRaises(v, ignore)
  }

  /** Neither a derivation nor a set or a list. */
  ghost predicate Unsearchable(v: Val) { NotDrv(v) && !v.Attrs? && !v.List? }

  ghost predicate AsksWrongly(v: Val) {
    NotDrv(v) && exists w :: HasMember(v, "recurseForDerivations", w) && !w.Bool?
  }

  /** Searching a value: it is called first. Sets are entered by members with names fit for a path, whose value
      must be a derivation itself or ask for being searched, unless channels are combined; lists by index. */
  ghost predicate Meets(vIn: Val, steps: seq<Step>, x: Thing, ignore: bool)
    decreases |steps|, 0
  {
    var called := AutoCall(vIn);
    if called.None? then steps == [] && x.Error?
    else if steps == [] then IsThing(called.value, x, ignore) || (x.Error? && Unsearchable(called.value))
    else NotDrv(called.value) && MeetsIn(called.value, steps[0], steps[1..], x, ignore)
  }

  ghost predicate MeetsIn(v: Val, s: Step, rest: seq<Step>, x: Thing, ignore: bool)
    decreases |rest|, 2
  {
    match s
    case Name(n) =>
      v.Attrs? && exists k ::
        0 <= k < |v.members| && v.members[k].name == n && MeetsMember(v, k, rest, x, ignore)
    case Index(k) => v.List? && k < |v.items| && MeetsItem(v, k, rest, x, ignore)
  }

  ghost predicate MeetsMember(v: Val, k: nat, rest: seq<Step>, x: Thing, ignore: bool)
    requires v.Attrs? && k < |v.members|
    decreases |rest|, 1
  {
    var m := v.members[k].value;
    IsComponent(v.members[k].name) &&
    if IsCombined(v) then Meets(m, rest, x, ignore)
    else
      || (rest == [] && (IsThing(m, x, ignore) || (x.Error? && AsksWrongly(m))))
      || (NotDrv(m) && HasMember(m, "recurseForDerivations", Bool(true)) && Meets(m, rest, x, ignore))
  }

  ghost predicate MeetsItem(v: Val, k: nat, rest: seq<Step>, x: Thing, ignore: bool)
    requires v.List? && k < |v.items|
    decreases |rest|, 1
  {
    var w := v.items[k];
    (rest == [] && IsThing(w, x, ignore)) || (NotDrv(w) && Meets(w, rest, x, ignore))
  }

  /* ---- whatever the rules meet, the search meets ---- */

  ghost predicate Holds(occs: seq<Occ>, steps: seq<Step>, x: Thing) {
    x.Drv? && exists k :: 0 <= k < |occs| && occs[k] == Occ(steps, x.id, x.name)
  }

  lemma HoldsInSum(a: seq<Occ>, b: seq<Occ>, steps: seq<Step>, x: Thing)
    requires Holds(a, steps, x) || Holds(b, steps, x)
    ensures Holds(a + b, steps, x)
  {
    if Holds(a, steps, x) {
      var k :| 0 <= k < |a| && a[k] == Occ(steps, x.id, x.name);
      assert (a + b)[k] == a[k];
    } else {
      var k :| 0 <= k < |b| && b[k] == Occ(steps, x.id, x.name);
      assert (a + b)[|a| + k] == b[k];
    }
  }

  lemma {:induction false} MemberPart(v: Val, k: nat, n: nat, at: seq<Step>, ignore: bool, steps: seq<Step>, x: Thing)
    requires v.Attrs? && k < n <= |v.members| && WalkMembers(v, n, at, ignore).Some?
    ensures WalkMember(v, k, at, ignore).Some?
    ensures Holds(WalkMember(v, k, at, ignore).value, steps, x) ==>
      Holds(WalkMembers(v, n, at, ignore).value, steps, x)
    decreases n
  {
    var before, part := WalkMembers(v, n - 1, at, ignore).value, WalkMember(v, n - 1, at, ignore).value;
    if k < n - 1 {
      MemberPart(v, k, n - 1, at, ignore, steps, x);
    }
    if Holds(WalkMember(v, k, at, ignore).value, steps, x) {
      HoldsInSum(before, part, steps, x);
    }
  }

  lemma {:induction false} ItemPart(v: Val, k: nat, n: nat, at: seq<Step>, ignore: bool, steps: seq<Step>, x: Thing)
    requires v.List? && k < n <= |v.items| && WalkItems(v, n, at, ignore).Some?
    ensures WalkItem(v, k, at, ignore).Some?
    ensures Holds(WalkItem(v, k, at, ignore).value, steps, x) ==>
      Holds(WalkItems(v, n, at, ignore).value, steps, x)
    decreases n
  {
    var before, part := WalkItems(v, n - 1, at, ignore).value, WalkItem(v, n - 1, at, ignore).value;
    if k < n - 1 {
      ItemPart(v, k, n - 1, at, ignore, steps, x);
    }
    if Holds(WalkItem(v, k, at, ignore).value, steps, x) {
      HoldsInSum(before, part, steps, x);
    }
  }

  /** Looking at one value: a derivation is an occurrence, an error ends the search. */
  lemma ThingLooked(v: Val, here: seq<Step>, x: Thing, ignore: bool)
    requires WellFormed(v) && IsThing(v, x, ignore)
    ensures if x.Error? then Look(v, ignore).Fails?
      else Look(v, ignore).Derivation? && v.Attrs? && Holds([Occ(here, v.id, NameOf(v))], here, x)
  {
    LookMeans(v, ignore);
    if x.Drv? {
      NameMeans(v);
      assert [Occ(here, v.id, NameOf(v))][0] == Occ(here, x.id, x.name);
    }
  }

  /** Where the rules meet a derivation the search finds it, and where they meet an error it fails. */
  lemma {:induction false} MetIsFound(vIn: Val, at: seq<Step>, steps: seq<Step>, x: Thing, ignore: bool)
    requires WellFormed(vIn) && Meets(vIn, steps, x, ignore)
    ensures Walk(vIn, at, ignore).Some? ==> Holds(Walk(vIn, at, ignore).value, at + steps, x)
    decreases |steps|, 0
  {
    hide Holds, IsThing, NotDrv, MeetsMember, MeetsItem;
    if AutoCall(vIn).Some? {
      var v := AutoCall(vIn).value;
      AutoCallWellFormed(vIn);
      LookMeans(v, ignore);
      if steps == [] {
        assert at + [] == at;
        if IsThing(v, x, ignore) {
          ThingLooked(v, at, x, ignore);
        }
      } else {
        MetInIsFound(v, at, steps[0], steps[1..], x, ignore);
        assert at + [steps[0]] + steps[1..] == at + steps;
      }
    }
  }

  lemma {:induction false} MetInIsFound(v: Val, at: seq<Step>, s: Step, rest: seq<Step>, x: Thing, ignore: bool)
    requires WellFormed(v) && MeetsIn(v, s, rest, x, ignore)
    ensures v.Attrs? && WalkMembers(v, |v.members|, at, ignore).Some? ==>
      Holds(WalkMembers(v, |v.members|, at, ignore).value, at + [s] + rest, x)
    ensures v.List? && WalkItems(v, |v.items|, at, ignore).Some? ==>
      Holds(WalkItems(v, |v.items|, at, ignore).value, at + [s] + rest, x)
    decreases |rest|, 2
  {
    hide Holds, MeetsMember, MeetsItem;
    match s
    case Name(n) =>
      var k :| 0 <= k < |v.members| && v.members[k].name == n && MeetsMember(v, k, rest, x, ignore);
      MetMemberIsFound(v, k, at, rest, x, ignore);
      if WalkMembers(v, |v.members|, at, ignore).Some? {
        MemberPart(v, k, |v.members|, at, ignore, at + [s] + rest, x);
      }
    case Index(k) =>
      MetItemIsFound(v, k, at, rest, x, ignore);
      if WalkItems(v, |v.items|, at, ignore).Some? {
        ItemPart(v, k, |v.items|, at, ignore, at + [s] + rest, x);
      }
  }

  lemma {:induction false} MetMemberIsFound(v: Val, k: nat, at: seq<Step>, rest: seq<Step>, x: Thing, ignore: bool)
    requires WellFormed(v) && v.Attrs? && k < |v.members| && MeetsMember(v, k, rest, x, ignore)
    ensures WalkMember(v, k, at, ignore).Some? ==>
      Holds(WalkMember(v, k, at, ignore).value, at + [Name(v.members[k].name)] + rest, x)
    decreases |rest|, 1
  {
    hide Holds, IsThing, Look, Recurses, Combines;
    var m, here := v.members[k].value, at + [Name(v.members[k].name)];
    assert here + [] == here;
    CombinesMeans(v);
    LookMeans(m, ignore);
    if IsCombined(v) {
      MetIsFound(m, here, rest, x, ignore);
    } else {
      if IsThing(m, x, ignore) {
        ThingLooked(m, here, x, ignore);
      }
      if m.Attrs? {
        RecursesMeans(m);
      }
      if NotDrv(m) && Meets(m, rest, x, ignore) {
        MetIsFound(m, here, rest, x, ignore);
      }
    }
  }

  lemma {:induction false} MetItemIsFound(v: Val, k: nat, at: seq<Step>, rest: seq<Step>, x: Thing, ignore: bool)
    requires WellFormed(v) && v.List? && k < |v.items| && MeetsItem(v, k, rest, x, ignore)
    ensures WalkItem(v, k, at, ignore).Some? ==>
      Holds(WalkItem(v, k, at, ignore).value, at + [Index(k)] + rest, x)
    decreases |rest|, 1
  {
    hide Holds, IsThing, Look;
    var w, here := v.items[k], at + [Index(k)];
    assert here + [] == here;
    LookMeans(w, ignore);
    if IsThing(w, x, ignore) {
      ThingLooked(w, here, x, ignore);
    }
    if NotDrv(w) && Meets(w, rest, x, ignore) {
      MetIsFound(w, here, rest, x, ignore);
    }
  }

  /* ---- whatever the search meets, the rules meet ---- */

  lemma {:induction false} MembersSplit(v: Val, n: nat, at: seq<Step>, ignore: bool, i: nat) returns (k: nat, j: nat)
    requires v.Attrs? && n <= |v.members|
    requires WalkMembers(v, n, at, ignore).Some? && i < |WalkMembers(v, n, at, ignore).value|
    ensures k < n && WalkMember(v, k, at, ignore).Some? && j < |WalkMember(v, k, at, ignore).value|
    ensures WalkMember(v, k, at, ignore).value[j] == WalkMembers(v, n, at, ignore).value[i]
    decreases n
  {
    var before := WalkMembers(v, n - 1, at, ignore).value;
    if i < |before| {
      k, j := MembersSplit(v, n - 1, at, ignore, i);
    } else {
      k, j := n - 1, i - |before|;
    }
  }

  lemma {:induction false} ItemsSplit(v: Val, n: nat, at: seq<Step>, ignore: bool, i: nat) returns (k: nat, j: nat)
    requires v.List? && n <= |v.items|
    requires WalkItems(v, n, at, ignore).Some? && i < |WalkItems(v, n, at, ignore).value|
    ensures k < n && WalkItem(v, k, at, ignore).Some? && j < |WalkItem(v, k, at, ignore).value|
    ensures WalkItem(v, k, at, ignore).value[j] == WalkItems(v, n, at, ignore).value[i]
    decreases n
  {
    var before := WalkItems(v, n - 1, at, ignore).value;
    if i < |before| {
      k, j := ItemsSplit(v, n - 1, at, ignore, i);
    } else {
      k, j := n - 1, i - |before|;
    }
  }

  lemma DrvLooked(v: Val, ignore: bool)
    requires WellFormed(v) && Look(v, ignore).Derivation?
    ensures v.Attrs? && IsThing(v, Drv(v.id, NameOf(v)), ignore)
  {
    LookMeans(v, ignore);
    NameMeans(v);
  }

  /** Everything found below `vIn` is met by the rules, at the place it says. */
  lemma {:induction false} FoundIsMet(vIn: Val, at: seq<Step>, ignore: bool, i: nat) returns (steps: seq<Step>)
    requires WellFormed(vIn) && Walk(vIn, at, ignore).Some? && i < |Walk(vIn, at, ignore).value|
    ensures var o := Walk(vIn, at, ignore).value[i];
      o.steps == at + steps && Meets(vIn, steps, Drv(o.id, o.name), ignore)
    decreases vIn, 1
  {
    hide IsThing, NotDrv, MeetsMember, MeetsItem, WellFormed;
    hide WalkMember, WalkItem, WalkMembers, WalkItems, Look;
    var v, o := AutoCall(vIn).value, Walk(vIn, at, ignore).value[i];
    AutoCallWellFormed(vIn);
    LookMeans(v, ignore);
    if Look(v, ignore).Derivation? {
      steps := [];
      assert at + [] == at;
      DrvLooked(v, ignore);
    } else if v.Attrs? {
      var k, j := MembersSplit(v, |v.members|, at, ignore, i);
      var rest := MemberFoundIsMet(v, k, at, ignore, j);
      steps := [Name(v.members[k].name)] + rest;
      assert steps[1..] == rest;
      StepsJoin(at, steps[0], rest);
    } else {
      var k, j := ItemsSplit(v, |v.items|, at, ignore, i);
      var rest := ItemFoundIsMet(v, k, at, ignore, j);
      steps := [Index(k)] + rest;
      assert steps[1..] == rest;
      StepsJoin(at, steps[0], rest);
    }
  }

  lemma {:induction false} MemberFoundIsMet(v: Val, k: nat, at: seq<Step>, ignore: bool, j: nat)
    returns (rest: seq<Step>)
    requires WellFormed(v) && v.Attrs? && k < |v.members|
    requires WalkMember(v, k, at, ignore).Some? && j < |WalkMember(v, k, at, ignore).value|
    ensures var o := WalkMember(v, k, at, ignore).value[j];
      o.steps == at + [Name(v.members[k].name)] + rest && MeetsMember(v, k, rest, Drv(o.id, o.name), ignore)
    decreases v, 0
  {
    hide IsThing, Look, Recurses, Combines;
    var m, here := v.members[k].value, at + [Name(v.members[k].name)];
    CombinesMeans(v);
    LookMeans(m, ignore);
    if !Combines(v) && Look(m, ignore).Derivation? {
      rest := [];
      assert here + [] == here;
      DrvLooked(m, ignore);
    } else {
      if !Combines(v) {
        RecursesMeans(m);
      }
      rest := FoundIsMet(m, here, ignore, j);
    }
  }

  lemma {:induction false} ItemFoundIsMet(v: Val, k: nat, at: seq<Step>, ignore: bool, j: nat)
    returns (rest: seq<Step>)
    requires WellFormed(v) && v.List? && k < |v.items|
    requires WalkItem(v, k, at, ignore).Some? && j < |WalkItem(v, k, at, ignore).value|
    ensures var o := WalkItem(v, k, at, ignore).value[j];
      o.steps == at + [Index(k)] + rest && MeetsItem(v, k, rest, Drv(o.id, o.name), ignore)
    decreases v, 0
  {
    hide IsThing, Look;
    var w, here := v.items[k], at + [Index(k)];
    LookMeans(w, ignore);
    if Look(w, ignore).Derivation? {
      rest := [];
      assert here + [] == here;
      DrvLooked(w, ignore);
    } else {
      rest := FoundIsMet(w, here, ignore, j);
    }
  }

  lemma {:induction false} MembersFail(v: Val, n: nat, at: seq<Step>, ignore: bool) returns (k: nat)
    requires v.Attrs? && n <= |v.members| && WalkMembers(v, n, at, ignore).None?
    ensures k < n && WalkMember(v, k, at, ignore).None?
    decreases n
  {
    if WalkMember(v, n - 1, at, ignore).None? {
      k := n - 1;
    } else {
      k := MembersFail(v, n - 1, at, ignore);
    }
  }

  lemma {:induction false} ItemsFail(v: Val, n: nat, at: seq<Step>, ignore: bool) returns (k: nat)
    requires v.List? && n <= |v.items| && WalkItems(v, n, at, ignore).None?
    ensures k < n && WalkItem(v, k, at, ignore).None?
    decreases n
  {
    if WalkItem(v, n - 1, at, ignore).None? {
      k := n - 1;
    } else {
      k := ItemsFail(v, n - 1, at, ignore);
    }
  }

  /** If the search fails, the rules meet an error. */
  lemma {:induction false} FailureIsMet(vIn: Val, at: seq<Step>, ignore: bool) returns (steps: seq<Step>)
    requires WellFormed(vIn) && Walk(vIn, at, ignore).None?
    ensures Meets(vIn, steps, Error, ignore)
    decreases vIn, 1
  {
    hide NotDrv, MeetsMember, MeetsItem, LookRaises;
    steps := [];
    if AutoCall(vIn).Some? {
      var v := AutoCall(vIn).value;
      AutoCallWellFormed(vIn);
      LookMeans(v, ignore);
      if Look(v, ignore).NoDerivation? && v.Attrs? {
        var k := MembersFail(v, |v.members|, at, ignore);
        var rest := MemberFailureIsMet(v, k, at, ignore);
        steps := [Name(v.members[k].name)] + rest;
        assert steps[1..] == rest;
      } else if Look(v, ignore).NoDerivation? && v.List? {
        var k := ItemsFail(v, |v.items|, at, ignore);
        var rest := ItemFailureIsMet(v, k, at, ignore);
        steps := [Index(k)] + rest;
        assert steps[1..] == rest;
      }
    }
  }

  lemma {:induction false} MemberFailureIsMet(v: Val, k: nat, at: seq<Step>, ignore: bool) returns (rest: seq<Step>)
    requires WellFormed(v) && v.Attrs? && k < |v.members| && WalkMember(v, k, at, ignore).None?
    ensures MeetsMember(v, k, rest, Error, ignore)
    decreases v, 0
  {
    hide LookRaises, NotDrv, Look, Recurses, Combines;
    var m, here := v.members[k].value, at + [Name(v.members[k].name)];
    CombinesMeans(v);
    LookMeans(m, ignore);
    if m.Attrs? {
      RecursesMeans(m);
    }
    rest := [];
    if Combines(v) || (Look(m, ignore).NoDerivation? && Recurses(m) == Some(true)) {
      rest := FailureIsMet(m, here, ignore);
    }
  }

  lemma {:induction false} ItemFailureIsMet(v: Val, k: nat, at: seq<Step>, ignore: bool) returns (rest: seq<Step>)
    requires WellFormed(v) && v.List? && k < |v.items| && WalkItem(v, k, at, ignore).None?
    ensures MeetsItem(v, k, rest, Error, ignore)
    decreases v, 0
  {
    hide LookRaises, NotDrv, Look;
    LookMeans(v.items[k], ignore);
    rest := [];
    if Look(v.items[k], ignore).NoDerivation? {
      rest := FailureIsMet(v.items[k], at + [Index(k)], ignore);
    }
  }

  /** The rules meet an error somewhere. */
  ghost predicate MeetsError(vIn: Val, ignore: bool) {
    exists steps :: Meets(vIn, steps, Error, ignore)
  }

  /** The search fails exactly in that case. */
  lemma FailsIff(vIn: Val, at: seq<Step>, ignore: bool)
    requires WellFormed(vIn)
    ensures Walk(vIn, at, ignore).None? <==> MeetsError(vIn, ignore)
  {
    if Walk(vIn, at, ignore).None? {
      var steps := FailureIsMet(vIn, at, ignore);
    } else {
      forall steps ensures !Meets(vIn, steps, Error, ignore) {
        if Meets(vIn, steps, Error, ignore) {
          MetIsFound(vIn, at, steps, Error, ignore);
        }
      }
    }
  }

  /* ---- in which order ---- */

  /** What is listed at `s` in a set or list. */
  ghost predicate Child(v: Val, s: Step, w: Val) {
    match s
    case Name(n) => HasMember(v, n, w)
    case Index(k) => v.List? && k < |v.items| && w == v.items[k]
  }

  ghost predicate StepPrecedes(v: Val, s: Step, u: Step) {
    match s
    case Name(n) =>
      v.Attrs? && u.Name? && exists j, k ::
        0 <= j < k < |v.members| && v.members[j].name == n && v.members[k].name == u.name
    case Index(k) => v.List? && u.Index? && k < u.index < |v.items|
  }

  /** Of two places below `vIn`, the one listed first where they part. */
  ghost predicate Precedes(vIn: Val, a: seq<Step>, b: seq<Step>)
    decreases |a|
  {
    && AutoCall(vIn).Some? && a != [] && b != []
    && (StepPrecedes(AutoCall(vIn).value, a[0], b[0]) ||
        (a[0] == b[0] && exists w :: Child(AutoCall(vIn).value, a[0], w) && Precedes(w, a[1..], b[1..])))
  }

  ghost predicate PrecedesIn(v: Val, a: seq<Step>, b: seq<Step>) {
    && a != [] && b != []
    && (StepPrecedes(v, a[0], b[0]) ||
        (a[0] == b[0] && exists w :: Child(v, a[0], w) && Precedes(w, a[1..], b[1..])))
  }

  /** What is found below `vIn` comes in the order of its places. */
  lemma {:induction false} FoundInOrder(vIn: Val, at: seq<Step>, ignore: bool, i: nat, j: nat)
    returns (a: seq<Step>, b: seq<Step>)
    requires WellFormed(vIn) && Walk(vIn, at, ignore).Some? && i < j < |Walk(vIn, at, ignore).value|
    ensures var occs := Walk(vIn, at, ignore).value;
      occs[i].steps == at + a && occs[j].steps == at + b && Precedes(vIn, a, b)
    decreases vIn, 2, 0
  {
    hide StepPrecedes, Child;
    var v := AutoCall(vIn).value;
    AutoCallWellFormed(vIn);
    if v.Attrs? {
      a, b := MembersInOrder(v, |v.members|, at, ignore, i, j);
    } else {
      a, b := ItemsInOrder(v, |v.items|, at, ignore, i, j);
    }
    assert PrecedesIn(v, a, b) ==> Precedes(vIn, a, b);
  }

  lemma StepsJoin(at: seq<Step>, s: Step, rest: seq<Step>)
    ensures at + ([s] + rest) == at + [s] + rest
  {
  }

  lemma MembersPrecede(v: Val, j: nat, k: nat)
    requires v.Attrs? && j < k < |v.members|
    ensures StepPrecedes(v, Name(v.members[j].name), Name(v.members[k].name))
  {
  }

  lemma {:induction false} MembersInOrder(v: Val, n: nat, at: seq<Step>, ignore: bool, i: nat, j: nat)
    returns (a: seq<Step>, b: seq<Step>)
    requires WellFormed(v) && v.Attrs? && n <= |v.members|
    requires WalkMembers(v, n, at, ignore).Some? && i < j < |WalkMembers(v, n, at, ignore).value|
    ensures var occs := WalkMembers(v, n, at, ignore).value;
      occs[i].steps == at + a && occs[j].steps == at + b && PrecedesIn(v, a, b)
    decreases v, 1, n
  {
    hide WellFormed, WalkMember, MeetsMember, Precedes, Child, StepPrecedes;
    var before := WalkMembers(v, n - 1, at, ignore).value;
    if j < |before| {
      a, b := MembersInOrder(v, n - 1, at, ignore, i, j);
    } else if i < |before| {
      var k, m := MembersSplit(v, n - 1, at, ignore, i);
      var ra := MemberFoundIsMet(v, k, at, ignore, m);
      var rb := MemberFoundIsMet(v, n - 1, at, ignore, j - |before|);
      a, b := [Name(v.members[k].name)] + ra, [Name(v.members[n - 1].name)] + rb;
      StepsJoin(at, a[0], ra);
      StepsJoin(at, b[0], rb);
      MembersPrecede(v, k, n - 1);
    } else {
      a, b := MemberInOrder(v, n - 1, at, ignore, i - |before|, j - |before|);
    }
  }

  lemma {:induction false} MemberInOrder(v: Val, k: nat, at: seq<Step>, ignore: bool, i: nat, j: nat)
    returns (a: seq<Step>, b: seq<Step>)
    requires WellFormed(v) && v.Attrs? && k < |v.members|
    requires WalkMember(v, k, at, ignore).Some? && i < j < |WalkMember(v, k, at, ignore).value|
    ensures var occs := WalkMember(v, k, at, ignore).value;
      occs[i].steps == at + a && occs[j].steps == at + b && PrecedesIn(v, a, b)
    decreases v, 0, 0
  {
    hide Look, Recurses, Combines, Precedes;
    var s, m := Name(v.members[k].name), v.members[k].value;
    var here := at + [s];
    var ra, rb := FoundInOrder(m, here, ignore, i, j);
    a, b := [s] + ra, [s] + rb;
    assert at + a == here + ra && at + b == here + rb && a[1..] == ra && b[1..] == rb;
    assert v.members[k] == Member(v.members[k].name, m);
    assert Child(v, s, m);
  }

  lemma {:induction false} ItemsInOrder(v: Val, n: nat, at: seq<Step>, ignore: bool, i: nat, j: nat)
    returns (a: seq<Step>, b: seq<Step>)
    requires WellFormed(v) && v.List? && n <= |v.items|
    requires WalkItems(v, n, at, ignore).Some? && i < j < |WalkItems(v, n, at, ignore).value|
    ensures var occs := WalkItems(v, n, at, ignore).value;
      occs[i].steps == at + a && occs[j].steps == at + b && PrecedesIn(v, a, b)
    decreases v, 1, n
  {
    hide WellFormed, WalkItem, MeetsItem, Precedes, Child;
    var before := WalkItems(v, n - 1, at, ignore).value;
    if j < |before| {
      a, b := ItemsInOrder(v, n - 1, at, ignore, i, j);
    } else if i < |before| {
      var k, m := ItemsSplit(v, n - 1, at, ignore, i);
      var ra := ItemFoundIsMet(v, k, at, ignore, m);
      var rb := ItemFoundIsMet(v, n - 1, at, ignore, j - |before|);
      a, b := [Index(k)] + ra, [Index(n - 1)] + rb;
      StepsJoin(at, a[0], ra);
      StepsJoin(at, b[0], rb);
      assert StepPrecedes(v, a[0], b[0]);
    } else {
      a, b := ItemInOrder(v, n - 1, at, ignore, i - |before|, j - |before|);
    }
  }

  lemma {:induction false} ItemInOrder(v: Val, k: nat, at: seq<Step>, ignore: bool, i: nat, j: nat)
    returns (a: seq<Step>, b: seq<Step>)
    requires WellFormed(v) && v.List? && k < |v.items|
    requires WalkItem(v, k, at, ignore).Some? && i < j < |WalkItem(v, k, at, ignore).value|
    ensures var occs := WalkItem(v, k, at, ignore).value;
      occs[i].steps == at + a && occs[j].steps == at + b && PrecedesIn(v, a, b)
    decreases v, 0, 0
  {
    hide Look, Precedes;
    var s, w := Index(k), v.items[k];
    var here := at + [s];
    var ra, rb := FoundInOrder(w, here, ignore, i, j);
    a, b := [s] + ra, [s] + rb;
    assert at + a == here + ra && at + b == here + rb && a[1..] == ra && b[1..] == rb;
    assert Child(v, s, w);
  }
}
