/** JSON documents, their event streams, the values they denote, and the builder's state machine. */
module JsonModel {
  import opened Optional

  const NIX_INT_MAX := 0x7fff_ffff_ffff_ffff

  type Unsigned = n: nat | n <= 0xffff_ffff_ffff_ffff
  type Signed = n: int | -0x8000_0000_0000_0000 <= n < 0x8000_0000_0000_0000

  datatype Json =
    | JNull
    | JBool(b: bool)
    | JInt(i: Signed)
    | JUnsigned(u: Unsigned)
    | JFloat(f: real)
    | JString(s: string)
    | JArray(items: seq<Json>)
    | JObject(members: seq<Member>)

  datatype Member = Member(name: string, value: Json)

  /** What the parser reports, in document order. */
  datatype Event =
    | Null
    | Boolean(b: bool)
    | NumberInteger(i: Signed)
    | NumberUnsigned(u: Unsigned)
    | NumberFloat(f: real)
    | String(s: string)
    | StartObject
    | Key(name: string)
    | EndObject
    | StartArray
    | EndArray

  function Stream(t: Json): seq<Event>
    decreases t, 1, 0
  {
    match t
    case JNull => [Null]
    case JBool(b) => [Boolean(b)]
    case JInt(i) => [NumberInteger(i)]
    case JUnsigned(u) => [NumberUnsigned(u)]
    case JFloat(f) => [NumberFloat(f)]
    case JString(s) => [String(s)]
    case JArray(items) => [StartArray] + ItemsStream(t, |items|) + [EndArray]
    case JObject(members) => [StartObject] + MembersStream(t, |members|) + [EndObject]
  }

  /** The events of the first `n` items. */
  function ItemsStream(t: Json, n: nat): seq<Event>
    requires t.JArray? && n <= |t.items|
    decreases t, 0, n
  {
    if n == 0 then [] else ItemsStream(t, n - 1) + Stream(t.items[n - 1])
  }

  function MembersStream(t: Json, n: nat): seq<Event>
    requires t.JObject? && n <= |t.members|
    decreases t, 0, n
  {
    if n == 0 then []
    else MembersStream(t, n - 1) + ([Key(t.members[n - 1].name)] + Stream(t.members[n - 1].value))
  }

  /* ---- what a document denotes ---- */

  datatype NixValue =
    | VNull
    | VBool(b: bool)
    | VInt(i: int)
    | VFloat(f: real)
    | VString(s: string)
    | VList(items: seq<NixValue>)
    | VAttrs(attrs: map<string, NixValue>)

  function ValueOf(t: Json): NixValue
    decreases t, 1, 0
  {
    match t
    case JNull => VNull
    case JBool(b) => VBool(b)
    case JInt(i) => VInt(i)
    case JUnsigned(u) => VInt(u)
    case JFloat(f) => VFloat(f)
    case JString(s) => VString(s)
    case JArray(items) => VList(ItemValues(t, |items|))
    case JObject(members) => VAttrs(MemberValues(t, |members|))
  }

  function ItemValues(t: Json, n: nat): (r: seq<NixValue>)
    requires t.JArray? && n <= |t.items|
    ensures |r| == n
    decreases t, 0, n
  {
    if n == 0 then [] else ItemValues(t, n - 1) + [ValueOf(t.items[n - 1])]
  }

  /** Of several members with the same name the last one counts. */
  function MemberValues(t: Json, n: nat): map<string, NixValue>
    requires t.JObject? && n <= |t.members|
    decreases t, 0, n
  {
    if n == 0 then map[] else MemberValues(t, n - 1)[t.members[n - 1].name := ValueOf(t.members[n - 1].value)]
  }

  predicate HasNul(s: string) { '\0' in s }

  /** Documents the builder refuses: an unsigned number beyond the integer range, or a NUL byte
      in a string or in a member name. */
  predicate Refused(t: Json)
    decreases t, 1, 0
  {
    match t
    case JUnsigned(u) => u >= 0x8000_0000_0000_0000
    case JString(s) => HasNul(s)
    case JArray(items) => ItemsRefused(t, |items|)
    case JObject(members) => MembersRefused(t, |members|)
    case _ => false
  }

  predicate ItemsRefused(t: Json, n: nat)
    requires t.JArray? && n <= |t.items|
    decreases t, 0, n
  {
    n > 0 && (ItemsRefused(t, n - 1) || Refused(t.items[n - 1]))
  }

  predicate MembersRefused(t: Json, n: nat)
    requires t.JObject? && n <= |t.members|
    decreases t, 0, n
  {
    n > 0 && (MembersRefused(t, n - 1) || HasNul(t.members[n - 1].name) || Refused(t.members[n - 1].value))
  }

  /* ---- the machine ---- */

  /** The contents of a value cell; composite values hold other cells. */
  datatype Content =
    | Unset
    | CNull
    | CBool(b: bool)
    | CInt(i: int)
    | CFloat(f: real)
    | CString(s: string)
    | CList(cells: seq<nat>)
    | CAttrs(attrs: map<string, nat>)

  datatype Kind = Top | Obj | Arr

  /** One parser state: the cell being filled, if any, and what has been collected. */
  datatype Frame = Frame(kind: Kind, v: Option<nat>, attrs: map<string, nat>, values: seq<nat>)

  /** Cells are numbered in the order of allocation; the innermost state comes last. */
  datatype State = State(heap: seq<Content>, rs: seq<Frame>)

  predicate Cells(s: State) {
    s.rs != [] && forall k | 0 <= k < |s.rs| :: s.rs[k].v.Some? ==> s.rs[k].v.value < |s.heap|
  }

  function Cur(s: State): Frame
    requires s.rs != []
  {
    s.rs[|s.rs| - 1]
  }

  /** `value`: the cell to be filled, allocated on demand. */
  function Need(s: State): (r: State)
    requires Cells(s)
    ensures Cells(r) && Cur(r).v.Some?
  {
    if Cur(s).v.Some? then s
    else State(s.heap + [Unset], s.rs[|s.rs| - 1 := Cur(s).(v := Some(|s.heap|))])
  }

  /** `add`: what the state does once its cell has been filled. */
  function Added(f: Frame): Frame {
    match f.kind
    case Top => f
    case Obj => f.(v := None)
    case Arr => if f.v.Some? then f.(values := f.values + [f.v.value], v := None) else f
  }

  /** Fill the current cell and move on. */
  function Put(s: State, x: Content): (r: State)
    requires Cells(s)
    ensures Cells(r) && |r.rs| == |s.rs|
  {
    var n := Need(s);
    State(n.heap[Cur(n).v.value := x], n.rs[|n.rs| - 1 := Added(Cur(n))])
  }

  function Push(s: State, kind: Kind): (r: State)
    requires Cells(s)
    ensures Cells(r)
  {
    s.(rs := s.rs + [Frame(kind, None, map[], [])])
  }

  /** `resolve` and `add`: the finished list or set becomes the parent's value. */
  function Close(s: State): (r: Option<State>)
    requires Cells(s)
    ensures r.Some? ==> Cells(r.value)
  {
    var f := Cur(s);
    if f.kind.Top? || |s.rs| < 2 then None
    else Some(Put(s.(rs := s.rs[..|s.rs| - 1]), if f.kind.Obj? then CAttrs(f.attrs) else CList(f.values)))
  }

  /** What each callback does; `None` is an exception. */
  function Handle(s: State, e: Event): (r: Option<State>)
    requires Cells(s)
    ensures r.Some? ==> Cells(r.value)
  {
    match e
    case Null => Some(Put(s, CNull))
    case Boolean(b) => Some(Put(s, CBool(b)))
    case NumberInteger(i) => Some(Put(s, CInt(i)))
    case NumberUnsigned(u) => if u > NIX_INT_MAX then None else Some(Put(s, CInt(u)))
    case NumberFloat(f) => Some(Put(s, CFloat(f)))
    case String(t) => if HasNul(t) then None else Some(Put(s, CString(t)))
    case StartObject => Some(Push(s, Obj))
    case StartArray => Some(Push(s, Arr))
    case Key(name) =>
      if HasNul(name) || !Cur(s).kind.Obj? then None
      else
        var n := Need(s);
        Some(n.(rs := n.rs[|n.rs| - 1 := Cur(n).(attrs := Cur(n).attrs[name := Cur(n).v.value])]))
    case EndObject => Close(s)
    case EndArray => Close(s)
  }

  function Run(s: State, es: seq<Event>): (r: Option<State>)
    requires Cells(s)
    ensures r.Some? ==> Cells(r.value)
  {
    if es == [] then Some(s)
    else
      var before := Run(s, es[..|es| - 1]);
      if before.None? then None else Handle(before.value, es[|es| - 1])
  }

  lemma {:induction false} RunAppend(s: State, a: seq<Event>, b: seq<Event>)
    requires Cells(s)
    ensures Run(s, a + b) == var m := Run(s, a); if m.None? then None else Run(m.value, b)
  {
    if b == [] {
      assert a + b == a;
    } else {
      assert (a + b)[..|a + b| - 1] == a + b[..|b| - 1];
      RunAppend(s, a, b[..|b| - 1]);
    }
  }

  lemma RunOne(s: State, e: Event)
    requires Cells(s)
    ensures Run(s, [e]) == Handle(s, e)
  {
    assert [e][..0] == [];
  }
}
