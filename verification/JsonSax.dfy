/** The event-driven builder as an object, and the parse of a whole document. */
module JsonSax {
  import opened Optional
  import opened JsonModel
  import opened JsonBuild

  /** `heap` are the evaluator's value cells, `rs` the stack of parser states, innermost last. */
  class Sax {
    var heap: seq<Content>
    var rs: seq<Frame>

    ghost function Contents(): State
      reads this
    {
      State(heap, rs)
    }

    ghost predicate Valid()
      reads this
    {
      Cells(Contents())
    }

    /** Fill the existing cell `v`. */
    constructor (cells: seq<Content>, v: nat)
      requires v < |cells|
      ensures Valid() && Contents() == State(cells, [Frame(Top, Some(v), map[], [])])
    {
      heap := cells;
      rs := [Frame(Top, Some(v), map[], [])];
    }

    /** The current cell; one is allocated if there is none yet. */
    method Value() returns (c: nat)
      requires Valid()
      modifies this
      ensures Valid() && Contents() == Need(old(Contents())) && Cur(Contents()).v == Some(c)
    {
      var top := rs[|rs| - 1];
      if top.v.None? {
        rs := rs[|rs| - 1 := top.(v := Some(|heap|))];
        heap := heap + [Unset];
      }
      c := rs[|rs| - 1].v.value;
    }

    method Add()
      requires Valid()
      modifies this`rs
      ensures Valid() && rs == old(rs[|rs| - 1 := Added(rs[|rs| - 1])])
    {
      var top := rs[|rs| - 1];
      match top.kind {
        case Top =>
        case Obj => rs := rs[|rs| - 1 := top.(v := None)];
        case Arr =>
          if top.v.Some? {
            rs := rs[|rs| - 1 := top.(values := top.values + [top.v.value], v := None)];
          }
      }
    }

    method Fill(x: Content)
      requires Valid()
      modifies this
      ensures Valid() && Contents() == Put(old(Contents()), x)
    {
      var c := Value();
      heap := heap[c := x];
      Add();
    }

    method OnNull()
      requires Valid()
      modifies this
      ensures Valid() && Handle(old(Contents()), Null) == Some(Contents())
    {
      Fill(CNull);
    }

    method OnBoolean(b: bool)
      requires Valid()
      modifies this
      ensures Valid() && Handle(old(Contents()), Boolean(b)) == Some(Contents())
    {
      Fill(CBool(b));
    }

    method OnInteger(i: Signed)
      requires Valid()
      modifies this
      ensures Valid() && Handle(old(Contents()), NumberInteger(i)) == Some(Contents())
    {
      Fill(CInt(i));
    }

    method OnUnsigned(u: Unsigned) returns (ok: bool)
      requires Valid()
      modifies this
      ensures Valid() && Handle(old(Contents()), NumberUnsigned(u)) == if ok then Some(Contents()) else None
    {
      ok := u <= NIX_INT_MAX;
      if ok {
        Fill(CInt(u));
      }
    }

    method OnFloat(f: real)
      requires Valid()
      modifies this
      ensures Valid() && Handle(old(Contents()), NumberFloat(f)) == Some(Contents())
    {
      Fill(CFloat(f));
    }

    method OnString(s: string) returns (ok: bool)
      requires Valid()
      modifies this
      ensures Valid() && Handle(old(Contents()), String(s)) == if ok then Some(Contents()) else None
    {
      ok := !HasNul(s);
      if ok {
        Fill(CString(s));
      }
    }

    method OnStart(kind: Kind)
      requires Valid()
      modifies this`rs
      ensures Valid() && Contents() == Push(old(Contents()), kind)
    {
      rs := rs + [Frame(kind, None, map[], [])];
    }

    /** The parser reports keys only inside an object. */
    method OnKey(name: string) returns (ok: bool)
      requires Valid()
      modifies this
      ensures Valid() && Handle(old(Contents()), Key(name)) == if ok then Some(Contents()) else None
    {
      ok := !HasNul(name) && rs[|rs| - 1].kind.Obj?;
      if ok {
        var c := Value();
        var top := rs[|rs| - 1];
        rs := rs[|rs| - 1 := top.(attrs := top.attrs[name := c])];
      }
    }

    /** Closing the outermost state is an error. */
    method OnEnd() returns (ok: bool)
      requires Valid()
      modifies this
      ensures Valid() && Close(old(Contents())) == if ok then Some(Contents()) else None
    {
      var f := rs[|rs| - 1];
      ok := !f.kind.Top? && |rs| >= 2;
      if ok {
        rs := rs[..|rs| - 1];
        Fill(if f.kind.Obj? then CAttrs(f.attrs) else CList(f.values));
      }
    }

    method OnEvent(e: Event) returns (ok: bool)
      requires Valid()
      modifies this
      ensures Valid() && Handle(old(Contents()), e) == if ok then Some(Contents()) else None
    {
      ok := true;
      match e {
        case Null => OnNull();
        case Boolean(b) => OnBoolean(b);
        case NumberInteger(i) => OnInteger(i);
        case NumberUnsigned(u) => ok := OnUnsigned(u);
        case NumberFloat(f) => OnFloat(f);
        case String(s) => ok := OnString(s);
        case StartObject => OnStart(Obj);
        case StartArray => OnStart(Arr);
        case Key(name) => ok := OnKey(name);
        case EndObject => ok := OnEnd();
        case EndArray => ok := OnEnd();
      }
    }
  }

  /** Parsing a document into cell `v`: it fails exactly on the refused documents; otherwise `v`
      holds the document's value and every other cell that existed before is as it was. */
  method ParseJson(t: Json, cells: seq<Content>, v: nat) returns (ok: bool, heap: seq<Content>)
    requires v < |cells|
    ensures ok <==> !Refused(t)
    ensures ok ==> |cells| <= |heap| && Holds(heap, |cells|, v, ValueOf(t))
    ensures ok ==> forall c | 0 <= c < |cells| && c != v :: heap[c] == cells[c]
  {
    hide Run, Handle, Holds, ValueOf, Stream, Refused;
    var sax := new Sax(cells, v);
    ghost var s := sax.Contents();
    var events := Stream(t);
    RunNone(s);
    ok := true;
    for n := 0 to |events|
      invariant sax.Valid() && fresh(sax)
      invariant ok && Run(s, events[..n]) == Some(sax.Contents())
    {
      RunSnoc(s, events, n);
      ok := sax.OnEvent(events[n]);
      if !ok {
        RunStops(s, events, n + 1);
        ghost var none := Builds(t, s);
        return false, sax.heap;
      }
    }
    assert events[..|events|] == events;
    ghost var target := Builds(t, s);
    heap := sax.heap;
  }

  lemma RunNone(s: State)
    requires Cells(s)
    ensures Run(s, []) == Some(s)
  {
  }

  lemma RunSnoc(s: State, es: seq<Event>, n: nat)
    requires Cells(s) && n < |es| && Run(s, es[..n]).Some?
    ensures Run(s, es[..n + 1]) == Handle(Run(s, es[..n]).value, es[n])
  {
    assert es[..n + 1][..n] == es[..n];
  }

  /** Once an exception has been thrown the whole run fails. */
  lemma {:induction false} RunStops(s: State, es: seq<Event>, n: nat)
    requires Cells(s) && n <= |es| && Run(s, es[..n]).None?
    ensures Run(s, es).None?
    decreases |es|
  {
    if n == |es| {
      assert es[..n] == es;
    } else {
      assert es[..|es| - 1][..n] == es[..n];
      RunStops(s, es[..|es| - 1], n);
    }
  }
}
