/** The builder fills the current cell with the value of the document and touches no other
    existing cell; it fails exactly on the refused documents. */
module JsonBuild {
  import opened Optional
  import opened JsonModel

  /** Cell `c` holds the value `x`, and everything below it lives in cells from `lo` on. */
  predicate Holds(heap: seq<Content>, lo: nat, c: nat, x: NixValue)
    decreases x
  {
    c < |heap| &&
    match x
    case VNull => heap[c] == CNull
    case VBool(b) => heap[c] == CBool(b)
    case VInt(i) => heap[c] == CInt(i)
    case VFloat(f) => heap[c] == CFloat(f)
    case VString(s) => heap[c] == CString(s)
    case VList(items) =>
      && heap[c].CList? && |heap[c].cells| == |items|
      && forall k | 0 <= k < |items| :: lo <= heap[c].cells[k] && Holds(heap, lo, heap[c].cells[k], items[k])
    case VAttrs(attrs) =>
      && heap[c].CAttrs? && heap[c].attrs.Keys == attrs.Keys
      && forall a | a in attrs :: lo <= heap[c].attrs[a] && Holds(heap, lo, heap[c].attrs[a], attrs[a])
  }

  /** What a cell holds depends only on itself and the cells from `lo` on. */
  lemma {:induction false} HoldsFrame(heap: seq<Content>, heap': seq<Content>, lo: nat, lo': nat, c: nat, x: NixValue)
    requires Holds(heap, lo, c, x) && |heap| <= |heap'| && lo' <= lo && heap'[c] == heap[c]
    requires forall d | lo <= d < |heap| :: heap'[d] == heap[d]
    ensures Holds(heap', lo', c, x)
    decreases x
  {
    match x
    case VList(items) =>
      forall k | 0 <= k < |items| ensures Holds(heap', lo', heap[c].cells[k], items[k]) {
        HoldsFrame(heap, heap', lo, lo', heap[c].cells[k], items[k]);
      }
    case VAttrs(attrs) =>
      forall a | a in attrs ensures Holds(heap', lo', heap[c].attrs[a], attrs[a]) {
        HoldsFrame(heap, heap', lo, lo', heap[c].attrs[a], attrs[a]);
      }
    case _ =>
  }

  /** The state is waiting for a value: inside an object a key has been seen, inside an array
      no cell is pending. */
  predicate Expecting(f: Frame) {
    && (f.kind.Obj? ==> f.v.Some?)
    && (f.kind.Arr? ==> f.v.None?)
    && (f.kind.Top? ==> f.v.Some?)
  }

  /** `s'` is `s` with its current cell, `target`, filled. */
  predicate Filled(s: State, s': State, target: nat)
    requires s.rs != []
  {
    && |s.heap| <= |s'.heap| && target < |s'.heap|
    && (if Cur(s).v.Some? then target == Cur(s).v.value else target >= |s.heap|)
    && s'.rs == s.rs[|s.rs| - 1 := Added(Cur(s).(v := Some(target)))]
    && forall c | 0 <= c < |s.heap| && c != target :: s'.heap[c] == s.heap[c]
  }

  lemma PutFills(s: State, x: Content) returns (target: nat)
    requires Cells(s)
    ensures Filled(s, Put(s, x), target) && Put(s, x).heap[target] == x
    ensures Cur(s).v.None? ==> target == |s.heap|
  {
    target := Cur(Need(s)).v.value;
  }

  /** Closing a list or set whose elements live from `lo` on. */
  lemma CloseFills(s: State, f: Frame, heap: seq<Content>, x: Content) returns (target: nat)
    requires Cells(s) && |s.heap| <= |heap| && !f.kind.Top? && f.v.None?
    requires forall c | 0 <= c < |s.heap| :: heap[c] == s.heap[c]
    requires x == if f.kind.Obj? then CAttrs(f.attrs) else CList(f.values)
    ensures Close(State(heap, s.rs + [f])).Some?
    ensures Filled(s, Close(State(heap, s.rs + [f])).value, target)
    ensures Close(State(heap, s.rs + [f])).value.heap[target] == x
    ensures forall c | |s.heap| <= c < |heap| :: Close(State(heap, s.rs + [f])).value.heap[c] == heap[c]
    ensures |heap| <= |Close(State(heap, s.rs + [f])).value.heap|
  {
    var m := State(heap, s.rs);
    assert (s.rs + [f])[..|s.rs + [f]| - 1] == s.rs;
    target := PutFills(m, x);
  }

  /* ---- lists ---- */

  /** After `n` items: their cells are collected and hold the items' values. */
  predicate ItemsDone(t: Json, n: nat, s: State, s': State)
    requires t.JArray? && n <= |t.items|
  {
    && |s.heap| <= |s'.heap|
    && (forall c | 0 <= c < |s.heap| :: s'.heap[c] == s.heap[c])
    && |s'.rs| == |s.rs| + 1 && s'.rs[..|s.rs|] == s.rs
    && var f := s'.rs[|s.rs|];
      && f.kind.Arr? && f.v.None? && |f.values| == n
      && forall k | 0 <= k < n :: |s.heap| <= f.values[k] && Holds(s'.heap, |s.heap|, f.values[k], ItemValues(t, n)[k])
  }

  lemma ItemsStep(t: Json, n: nat, s: State, s1: State, s2: State, target: nat)
    requires t.JArray? && 0 < n <= |t.items| && Cells(s1)
    requires ItemsDone(t, n - 1, s, s1)
    requires Filled(s1, s2, target) && Holds(s2.heap, |s1.heap|, target, ValueOf(t.items[n - 1]))
    ensures ItemsDone(t, n, s, s2)
  {
    var f1, f2 := s1.rs[|s.rs|], s2.rs[|s.rs|];
    assert f2.values == f1.values + [target];
    forall k | 0 <= k < n
      ensures |s.heap| <= f2.values[k] && Holds(s2.heap, |s.heap|, f2.values[k], ItemValues(t, n)[k])
    {
      if k < n - 1 {
        HoldsFrame(s1.heap, s2.heap, |s.heap|, |s.heap|, f1.values[k], ItemValues(t, n - 1)[k]);
      } else {
        HoldsFrame(s2.heap, s2.heap, |s1.heap|, |s.heap|, target, ValueOf(t.items[n - 1]));
      }
    }
    assert s2.rs[..|s.rs|] == s.rs;
  }

  lemma ItemsExpect(t: Json, n: nat, s: State, s1: State)
    requires t.JArray? && n <= |t.items| && ItemsDone(t, n, s, s1)
    ensures s1.rs != [] && Expecting(Cur(s1))
  {
  }

  lemma NoItems(t: Json, s: State)
    requires t.JArray? && Cells(s)
    ensures Run(Push(s, Arr), ItemsStream(t, 0)) == Some(Push(s, Arr)) && ItemsDone(t, 0, s, Push(s, Arr))
  {
  }

  lemma {:induction false} ItemsBuild(t: Json, n: nat, s: State)
    requires t.JArray? && n <= |t.items| && Cells(s)
    ensures ItemsRefused(t, n) ==> Run(Push(s, Arr), ItemsStream(t, n)).None?
    ensures !ItemsRefused(t, n) ==>
      && Run(Push(s, Arr), ItemsStream(t, n)).Some?
      && ItemsDone(t, n, s, Run(Push(s, Arr), ItemsStream(t, n)).value)
    decreases t, 0, n + 1
  {
    if n == 0 {
      NoItems(t, s);
    } else {
      hide ItemsDone, Handle, Refused, Stream, Holds, Filled, Push, ValueOf, Expecting, Run;
      var p := Push(s, Arr);
      ItemsBuild(t, n - 1, s);
      RunAppend(p, ItemsStream(t, n - 1), Stream(t.items[n - 1]));
      if !ItemsRefused(t, n - 1) {
        var s1 := Run(p, ItemsStream(t, n - 1)).value;
        ItemsExpect(t, n - 1, s, s1);
        var target := Builds(t.items[n - 1], s1);
        if !Refused(t.items[n - 1]) {
          ItemsStep(t, n, s, s1, Run(s1, Stream(t.items[n - 1])).value, target);
        }
      }
    }
  }

  /* ---- objects ---- */

  predicate MembersDone(t: Json, n: nat, s: State, s': State)
    requires t.JObject? && n <= |t.members|
  {
    && |s.heap| <= |s'.heap|
    && (forall c | 0 <= c < |s.heap| :: s'.heap[c] == s.heap[c])
    && |s'.rs| == |s.rs| + 1 && s'.rs[..|s.rs|] == s.rs
    && var f := s'.rs[|s.rs|];
      && f.kind.Obj? && f.v.None? && f.attrs.Keys == MemberValues(t, n).Keys
      && forall a | a in f.attrs ::
           |s.heap| <= f.attrs[a] && Holds(s'.heap, |s.heap|, f.attrs[a], MemberValues(t, n)[a])
  }

  /** After a key: a fresh cell is pending and already stored under its name. */
  function Keyed(s1: State, name: string): State
    requires s1.rs != []
  {
    var f := Cur(s1);
    State(s1.heap + [Unset],
          s1.rs[|s1.rs| - 1 := f.(v := Some(|s1.heap|), attrs := f.attrs[name := |s1.heap|])])
  }

  lemma KeyStep(s1: State, name: string)
    requires Cells(s1) && Cur(s1).kind.Obj? && Cur(s1).v.None? && !HasNul(name)
    ensures Handle(s1, Key(name)) == Some(Keyed(s1, name))
    ensures Cells(Keyed(s1, name)) && Expecting(Cur(Keyed(s1, name)))
    ensures |Keyed(s1, name).heap| == |s1.heap| + 1
  {
    var n, f := Need(s1), Cur(s1);
    assert n.rs[|n.rs| - 1 := Cur(n).(attrs := Cur(n).attrs[name := Cur(n).v.value])] == Keyed(s1, name).rs;
  }

  lemma MembersStep(t: Json, n: nat, s: State, s1: State, s2: State, target: nat)
    requires t.JObject? && 0 < n <= |t.members| && Cells(s1)
    requires MembersDone(t, n - 1, s, s1)
    requires Filled(Keyed(s1, t.members[n - 1].name), s2, target)
    requires Holds(s2.heap, |s1.heap| + 1, target, ValueOf(t.members[n - 1].value))
    ensures MembersDone(t, n, s, s2)
  {
    var name, x := t.members[n - 1].name, ValueOf(t.members[n - 1].value);
    var k := Keyed(s1, name);
    var f1, f2 := s1.rs[|s.rs|], s2.rs[|s.rs|];
    assert target == |s1.heap|;
    assert f2.attrs == f1.attrs[name := target] && f2.v.None?;
    assert MemberValues(t, n) == MemberValues(t, n - 1)[name := x];
    forall a | a in f2.attrs
      ensures |s.heap| <= f2.attrs[a] && Holds(s2.heap, |s.heap|, f2.attrs[a], MemberValues(t, n)[a])
    {
      if a == name {
        HoldsFrame(s2.heap, s2.heap, |s1.heap| + 1, |s.heap|, target, x);
      } else {
        HoldsFrame(s1.heap, s2.heap, |s.heap|, |s.heap|, f1.attrs[a], MemberValues(t, n - 1)[a]);
      }
    }
    assert s2.rs[..|s.rs|] == s.rs;
  }

  lemma KeyFails(s1: State, name: string)
    requires Cells(s1) && HasNul(name)
    ensures Handle(s1, Key(name)).None?
  {
  }

  lemma MembersExpect(t: Json, n: nat, s: State, s1: State)
    requires t.JObject? && n <= |t.members| && MembersDone(t, n, s, s1)
    ensures s1.rs != [] && Cur(s1).kind.Obj? && Cur(s1).v.None?
  {
  }

  /** One more member: its key, then its value. */
  lemma {:induction false} MemberBuilds(t: Json, n: nat, s: State, s1: State)
    requires t.JObject? && 0 < n <= |t.members| && Cells(s) && Cells(s1) && MembersDone(t, n - 1, s, s1)
    ensures var m := t.members[n - 1];
      var end := Run(s1, [Key(m.name)] + Stream(m.value));
      && (end.None? <==> HasNul(m.name) || Refused(m.value))
      && (end.Some? ==> MembersDone(t, n, s, end.value))
    decreases t, 0, n
  {
    hide Run, Stream, Refused, MembersDone, Holds, Keyed, Handle, Filled, Expecting, ValueOf, MemberValues;
    var m := t.members[n - 1];
    RunAppend(s1, [Key(m.name)], Stream(m.value));
    RunOne(s1, Key(m.name));
    MembersExpect(t, n - 1, s, s1);
    if HasNul(m.name) {
      KeyFails(s1, m.name);
    } else {
      KeyStep(s1, m.name);
      var target := Builds(m.value, Keyed(s1, m.name));
      if !Refused(m.value) {
        MembersStep(t, n, s, s1, Run(Keyed(s1, m.name), Stream(m.value)).value, target);
      }
    }
  }

  lemma {:induction false} MembersBuild(t: Json, n: nat, s: State)
    requires t.JObject? && n <= |t.members| && Cells(s)
    ensures MembersRefused(t, n) ==> Run(Push(s, Obj), MembersStream(t, n)).None?
    ensures !MembersRefused(t, n) ==>
      && Run(Push(s, Obj), MembersStream(t, n)).Some?
      && MembersDone(t, n, s, Run(Push(s, Obj), MembersStream(t, n)).value)
    decreases t, 0, n + 1
  {
    if n == 0 {
    } else {
      hide MembersDone, Handle, Refused, Stream;
      var p, m := Push(s, Obj), t.members[n - 1];
      MembersBuild(t, n - 1, s);
      RunAppend(p, MembersStream(t, n - 1), [Key(m.name)] + Stream(m.value));
      if !MembersRefused(t, n - 1) {
        MemberBuilds(t, n, s, Run(p, MembersStream(t, n - 1)).value);
      }
    }
  }

  /* ---- any document ---- */

  /** Feeding a document's events to the machine, in any state that expects a value: it fails if
      and only if the document is refused; otherwise the current cell ends up holding the
      document's value, no other existing cell has changed, and the state has moved on by one value. */
  lemma {:induction false} Builds(t: Json, s: State) returns (target: nat)
    requires Cells(s) && Expecting(Cur(s))
    ensures Refused(t) <==> Run(s, Stream(t)).None?
    ensures !Refused(t) ==>
      && Filled(s, Run(s, Stream(t)).value, target)
      && Holds(Run(s, Stream(t)).value.heap, |s.heap|, target, ValueOf(t))
    decreases t, 1, 0
  {
    match t
    case JArray(items) => target := ArrayBuilds(t, s);
    case JObject(members) => target := ObjectBuilds(t, s);
    case _ =>
      RunOne(s, Stream(t)[0]);
      assert Stream(t) == [Stream(t)[0]];
      target := 0;
      if !Refused(t) {
        target := PutFills(s, Scalar(t));
      }
  }

  function Scalar(t: Json): Content
    requires !t.JArray? && !t.JObject?
  {
    match t
    case JNull => CNull
    case JBool(b) => CBool(b)
    case JInt(i) => CInt(i)
    case JUnsigned(u) => CInt(u)
    case JFloat(f) => CFloat(f)
    case JString(s) => CString(s)
  }

  lemma ArrayEnds(t: Json, s: State, s1: State) returns (target: nat)
    requires t.JArray? && Cells(s) && Cells(s1) && ItemsDone(t, |t.items|, s, s1)
    ensures Close(s1).Some? && Filled(s, Close(s1).value, target)
    ensures Holds(Close(s1).value.heap, |s.heap|, target, ValueOf(t))
  {
    var f, n := s1.rs[|s.rs|], |t.items|;
    assert s1 == State(s1.heap, s.rs + [f]);
    target := CloseFills(s, f, s1.heap, CList(f.values));
    var s2 := Close(s1).value;
    hide Close, Filled;
    forall k | 0 <= k < n
      ensures |s.heap| <= f.values[k] && Holds(s2.heap, |s.heap|, f.values[k], ItemValues(t, n)[k])
    {
      HoldsFrame(s1.heap, s2.heap, |s.heap|, |s.heap|, f.values[k], ItemValues(t, n)[k]);
    }
  }

  lemma ObjectEnds(t: Json, s: State, s1: State) returns (target: nat)
    requires t.JObject? && Cells(s) && Cells(s1) && MembersDone(t, |t.members|, s, s1)
    ensures Close(s1).Some? && Filled(s, Close(s1).value, target)
    ensures Holds(Close(s1).value.heap, |s.heap|, target, ValueOf(t))
  {
    var f, n := s1.rs[|s.rs|], |t.members|;
    assert s1 == State(s1.heap, s.rs + [f]);
    target := CloseFills(s, f, s1.heap, CAttrs(f.attrs));
    var s2 := Close(s1).value;
    hide Close, Filled;
    forall a | a in f.attrs
      ensures |s.heap| <= f.attrs[a] && Holds(s2.heap, |s.heap|, f.attrs[a], MemberValues(t, n)[a])
    {
      HoldsFrame(s1.heap, s2.heap, |s.heap|, |s.heap|, f.attrs[a], MemberValues(t, n)[a]);
    }
  }

  /** A bracketed stream: open, the inner events, close. */
  lemma RunBracketed(s: State, open: Event, kind: Kind, inner: seq<Event>, close: Event)
    requires Cells(s) && (close.EndArray? || close.EndObject?) && Handle(s, open) == Some(Push(s, kind))
    ensures Run(s, [open] + inner + [close])
         == var m := Run(Push(s, kind), inner); if m.None? then None else Close(m.value)
  {
    hide Close, Push, Run;
    RunAppend(s, [open] + inner, [close]);
    RunAppend(s, [open], inner);
    RunOne(s, open);
    var m := Run(Push(s, kind), inner);
    if m.Some? {
      RunOne(m.value, close);
    }
  }

  lemma {:induction false} ArrayBuilds(t: Json, s: State) returns (target: nat)
    requires Cells(s) && Expecting(Cur(s)) && t.JArray?
    ensures Refused(t) <==> Run(s, Stream(t)).None?
    ensures !Refused(t) ==>
      && Filled(s, Run(s, Stream(t)).value, target)
      && Holds(Run(s, Stream(t)).value.heap, |s.heap|, target, ValueOf(t))
    decreases t, 0, |t.items| + 2
  {
    hide Run, Close, Filled, Holds, ItemsDone, ItemsRefused, ItemsStream, ValueOf;
    RunBracketed(s, StartArray, Arr, ItemsStream(t, |t.items|), EndArray);
    ItemsBuild(t, |t.items|, s);
    target := 0;
    if !Refused(t) {
      target := ArrayEnds(t, s, Run(Push(s, Arr), ItemsStream(t, |t.items|)).value);
    }
  }

  lemma {:induction false} ObjectBuilds(t: Json, s: State) returns (target: nat)
    requires Cells(s) && Expecting(Cur(s)) && t.JObject?
    ensures Refused(t) <==> Run(s, Stream(t)).None?
    ensures !Refused(t) ==>
      && Filled(s, Run(s, Stream(t)).value, target)
      && Holds(Run(s, Stream(t)).value.heap, |s.heap|, target, ValueOf(t))
    decreases t, 0, |t.members| + 2
  {
    hide Run, Close, Filled, Holds, MembersDone, MembersRefused, MembersStream, ValueOf;
    RunBracketed(s, StartObject, Obj, MembersStream(t, |t.members|), EndObject);
    MembersBuild(t, |t.members|, s);
    target := 0;
    if !Refused(t) {
      target := ObjectEnds(t, s, Run(Push(s, Obj), MembersStream(t, |t.members|)).value);
    }
  }
}
