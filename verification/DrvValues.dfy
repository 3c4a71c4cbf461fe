/** Values as the package search sees them, and following an attribute path through one. */
module DrvValues {
  import opened Optional
  import opened AttrPath

  /** A finite value. `id` stands for the identity of an attribute set. Evaluating `Throws`
      raises an error, which may be an assertion failure. */
  datatype Val =
    | Str(s: string)
    | Bool(b: bool)
    | Other
    | List(items: seq<Val>)
    | Attrs(id: nat, members: seq<Member>, functor: Called)
    | Fun(call: Called)
    | Throws(assertion: bool)

  datatype Member = Member(name: string, value: Val)

  /** Whether a set or function can be called without further arguments, and what that gives. */
  datatype Called = NotCallable | Gives(result: Val)

  /** The names of a set are distinct. */
  predicate DistinctNames(ms: seq<Member>) {
    forall i, j | 0 <= i < j < |ms| :: ms[i].name != ms[j].name
  }

  ghost predicate WellFormed(v: Val)
    decreases v
  {
    match v
    case List(items) => forall k | 0 <= k < |items| :: WellFormed(items[k])
    case Attrs(_, members, functor) =>
      && DistinctNames(members)
      && (forall k | 0 <= k < |members| :: WellFormed(members[k].value))
      && (functor.Gives? ==> WellFormed(functor.result))
    case Fun(call) => call.Gives? ==> WellFormed(call.result)
    case _ => true
  }

  /** `autoCallFunction`: `None` is an exception. A set's functor is called again and again;
      the result of a function is not. */
  function AutoCall(v: Val): (r: Option<Val>)
    ensures r.Some? ==> (r.value == v || r.value < v) && !r.value.Throws?
    decreases v
  {
    match v
    case Throws(_) => None
    case Attrs(_, _, Gives(w)) => AutoCall(w)
    case Fun(Gives(w)) => if w.Throws? then None else Some(w)
    case _ => Some(v)
  }

  /** Each set in the chain is called and gives the next value. */
  ghost predicate FunctorChain(vs: seq<Val>) {
    vs != [] && forall k | 0 <= k < |vs| - 1 :: vs[k].Attrs? && vs[k].functor == Gives(vs[k + 1])
  }

  /** What calling a value without functor gives: a function's result; anything else stays what it is. Either must not
      raise an error. */
  predicate CalledOnce(u: Val, w: Val) {
    && !w.Throws?
    && ((u.Fun? && u.call == Gives(w)) ||
        (u == w && (u.Fun? ==> u.call.NotCallable?) && (u.Attrs? ==> u.functor.NotCallable?)))
  }

  lemma {:induction false} AutoCallChain(v: Val) returns (vs: seq<Val>)
    requires AutoCall(v).Some?
    ensures FunctorChain(vs) && vs[0] == v && CalledOnce(vs[|vs| - 1], AutoCall(v).value)
    decreases v
  {
    if v.Attrs? && v.functor.Gives? {
      var rest := AutoCallChain(v.functor.result);
      vs := [v] + rest;
      forall k | 0 <= k < |vs| - 1 ensures vs[k].Attrs? && vs[k].functor == Gives(vs[k + 1]) {
        assert k > 0 ==> rest[k - 1] == vs[k] && rest[k] == vs[k + 1];
      }
    } else {
      vs := [v];
    }
  }

  lemma {:induction false} ChainIsAutoCall(vs: seq<Val>, w: Val)
    requires FunctorChain(vs) && CalledOnce(vs[|vs| - 1], w)
    ensures AutoCall(vs[0]) == Some(w)
    decreases |vs|
  {
    if |vs| == 1 {
    } else {
      var rest := vs[1..];
      assert forall k | 0 <= k < |rest| :: rest[k] == vs[k + 1];
      ChainIsAutoCall(rest, w);
    }
  }

  /** Calling a value: its functors one after the other, and then a function once. */
  lemma AutoCallMeans(v: Val, w: Val)
    ensures AutoCall(v) == Some(w) <==> exists vs :: FunctorChain(vs) && vs[0] == v && CalledOnce(vs[|vs| - 1], w)
  {
    if AutoCall(v) == Some(w) {
      var vs := AutoCallChain(v);
    }
    forall vs | FunctorChain(vs) && vs[0] == v && CalledOnce(vs[|vs| - 1], w) ensures AutoCall(v) == Some(w) {
      ChainIsAutoCall(vs, w);
    }
  }

  lemma {:induction false} AutoCallWellFormed(v: Val)
    requires WellFormed(v) && AutoCall(v).Some?
    ensures WellFormed(AutoCall(v).value)
    decreases v
  {
    if v.Attrs? && v.functor.Gives? {
      AutoCallWellFormed(v.functor.result);
    }
  }

  /** `Bindings::get`: where the name is, or the number of members. */
  function Find(ms: seq<Member>, name: string): (k: nat)
    ensures k <= |ms| && (k < |ms| ==> ms[k].name == name)
    ensures k == |ms| ==> forall j | 0 <= j < |ms| :: ms[j].name != name
  {
    if ms == [] then 0
    else
      var k := Find(ms[..|ms| - 1], name);
      if k == |ms| - 1 && ms[k].name != name then |ms| else k
  }

  lemma FindUnique(ms: seq<Member>, name: string, k: nat)
    requires DistinctNames(ms) && k < |ms| && ms[k].name == name
    ensures Find(ms, name) == k
  {
    var f := Find(ms, name);
    assert f < |ms| && ms[f].name == ms[k].name;
  }

  /* ---- following a path ---- */

  /** Select one component of a value that has been called: an index from a list, a name from a set. */
  function Select(v: Val, attr: string): (r: Option<Val>)
    ensures r.Some? ==> r.value < v
  {
    var index := ParseIndex(attr);
    if index.None? then
      if !v.Attrs? || attr == "" || Find(v.members, attr) == |v.members| then None
      else Some(v.members[Find(v.members, attr)].value)
    else if !v.List? || index.value >= |v.items| then None
    else Some(v.items[index.value])
  }

  function Follow(v: Val, tokens: seq<string>): Option<Val>
    decreases |tokens|
  {
    if tokens == [] then Some(v)
    else
      var called := AutoCall(v);
      if called.None? then None
      else
        var w := Select(called.value, tokens[0]);
        if w.None? then None else Follow(w.value, tokens[1..])
  }

  /** `findAlongAttrPath`; the last value is returned unevaluated. */
  method FindAlongAttrPath(attrPath: string, vIn: Val) returns (r: Option<Val>)
    ensures r == var ts := Parse(attrPath); if ts.None? then None else Follow(vIn, ts.value)
  {
    var parsed := ParseAttrPath(attrPath);
    if parsed.None? { return None; }
    var tokens, v := parsed.value, vIn;
    for k := 0 to |tokens|
      invariant Follow(vIn, tokens) == Follow(v, tokens[k..])
    {
      var attr := tokens[k];
      assert tokens[k..][1..] == tokens[k + 1..];
      var attrIndex := ParseIndex(attr);
      var called := AutoCall(v);
      if called.None? { return None; }
      v := called.value;
      if attrIndex.None? {
        if !v.Attrs? { return None; }
        if attr == "" { return None; }
        var a := Find(v.members, attr);
        if a == |v.members| { return None; }
        v := v.members[a].value;
      } else {
        if !v.List? { return None; }
        if attrIndex.value >= |v.items| { return None; }
        v := v.items[attrIndex.value];
      }
    }
    r := Some(v);
  }
}
