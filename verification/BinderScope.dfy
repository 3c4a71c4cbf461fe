/** Scopes whose `with` entries are nodes: how they are built and searched. */
module BinderScope {
  import opened Optional
  import opened NixSyntax
  import opened BindSpec
  import opened Closed
  import opened BinderTree

  /* ---- environments of nodes ---- */

  ghost function EnvNodes(s: NodeEnv): set<object> {
    match s
    case Nil => {}
    case Scope(isWith, _, up) => (if isWith.Some? then {isWith.value} else {}) + EnvNodes(up)
  }

  /** The same scopes with each `with` node replaced by the chain it records. */
  ghost function Links(s: NodeEnv): Scopes
    reads EnvNodes(s)
  {
    match s
    case Nil => Nil
    case Scope(isWith, vars, up) =>
      Scope(if isWith.Some? then Some(isWith.value.link) else None, vars, Links(up))
  }

  ghost predicate SortedVars(vars: seq<VarPos>) {
    forall i, j | 0 <= i < j < |vars| :: vars[i].name <= vars[j].name
  }

  ghost predicate SortedEnv(s: NodeEnv) {
    s.Scope? ==> SortedVars(s.vars) && SortedEnv(s.up)
  }

  ghost predicate HasWith<W>(s: StaticEnv<W>) {
    NearestWith(s).Some?
  }

  /** The pointers agree with the ghost chains, and stay inside `all`. */
  ghost predicate Coherent(part: set<object>, all: set<object>)
    requires part <= all
    reads all
  {
    forall o | o in part ::
      && (o is VarNode ==>
            var v := o as VarNode;
            v.fromWith != null ==> v.fromWith in all && v.link == Some(v.fromWith.link))
      && (o is WithNode ==>
            var w := o as WithNode;
            && w.link.prevWith == w.prevWith
            && (w.parentWith == null <==> w.link.parentWith.None?)
            && (w.parentWith != null ==>
                  w.parentWith in all && w.link.parentWith == Some(w.parentWith.link)))
  }

  lemma {:induction false} LinksAgree(s: NodeEnv, x: Symbol, k: nat)
    ensures FindScope(Links(s), x, k) == FindScope(s, x, k)
    ensures HasWith(Links(s)) <==> HasWith(s)
    ensures HasWith(s) ==>
      && WithLevel(Links(s)) == WithLevel(s)
      && NearestWith(s).value in EnvNodes(s)
      && NearestWith(Links(s)).value == NearestWith(s).value.link
  {
    if s.Nil? {
    } else {
      LinksAgree(s.up, x, k + 1);
    }
  }

  /* ---- looking a name up in one scope: lower_bound ---- */

  lemma {:induction false} FindVarAt(vars: seq<VarPos>, x: Symbol, i: nat)
    requires i <= |vars|
    requires forall j | 0 <= j < i :: vars[j].name != x
    requires i < |vars| ==> vars[i].name == x || forall j | i <= j < |vars| :: vars[j].name != x
    ensures FindVar(vars, x) == if i < |vars| && vars[i].name == x then Some(vars[i].displ) else None
  {
    if i > 0 {
      FindVarAt(vars[1..], x, i - 1);
    } else if vars != [] && vars[0].name != x {
      assert vars[1..] == [] || vars[1..][0].name != x;
      FindVarAt(vars[1..], x, 0);
    }
  }

  method Find(vars: seq<VarPos>, x: Symbol) returns (displ: Option<nat>)
    requires SortedVars(vars)
    ensures displ == FindVar(vars, x)
  {
    var lo, hi := 0, |vars|;
    while lo < hi
      invariant 0 <= lo <= hi <= |vars|
      invariant forall j | 0 <= j < lo :: vars[j].name < x
      invariant forall j | hi <= j < |vars| :: x <= vars[j].name
    {
      var mid := (lo + hi) / 2;
      if vars[mid].name < x {
        lo := mid + 1;
      } else {
        hi := mid;
      }
    }
    FindVarAt(vars, x, lo);
    displ := if lo < |vars| && vars[lo].name == x then Some(vars[lo].displ) else None;
  }

  /* ---- new scopes ---- */

  lemma {:induction false} DefVarsAt<V, W>(defs: seq<Binding<V, W>>, k: nat)
    ensures |DefVars(defs, k)| == |defs|
    ensures forall i | 0 <= i < |defs| :: DefVars(defs, k)[i] == VarPos(defs[i].name, k + i)
  {
    if defs == [] {
    } else {
      DefVarsAt(defs[1..], k + 1);
      forall i | 0 <= i < |defs| ensures DefVars(defs, k)[i] == VarPos(defs[i].name, k + i) {
        if i > 0 {
          assert DefVars(defs, k)[i] == DefVars(defs[1..], k + 1)[i - 1];
        }
      }
    }
  }

  lemma {:induction false} FormalVarsAt<V, W>(formals: seq<Formal<V, W>>, k: nat)
    ensures |FormalVars(formals, k)| == |formals|
    ensures forall i | 0 <= i < |formals| :: FormalVars(formals, k)[i] == VarPos(formals[i].name, k + i)
  {
    if formals == [] {
    } else {
      FormalVarsAt(formals[1..], k + 1);
      forall i | 0 <= i < |formals| ensures FormalVars(formals, k)[i] == VarPos(formals[i].name, k + i) {
        if i > 0 {
          assert FormalVars(formals, k)[i] == FormalVars(formals[1..], k + 1)[i - 1];
        }
      }
    }
  }

  lemma {:induction false} InsertSorted(p: VarPos, vars: seq<VarPos>)
    requires SortedVars(vars)
    ensures SortedVars(InsertVar(p, vars))
    ensures InsertVar(p, vars)[0].name == if vars == [] || p.name <= vars[0].name then p.name else vars[0].name
  {
    if vars == [] || p.name <= vars[0].name {
    } else {
      InsertSorted(p, vars[1..]);
    }
  }

  lemma {:induction false} SortSorted(vars: seq<VarPos>)
    ensures SortedVars(SortVars(vars))
  {
    if vars == [] {
    } else {
      SortSorted(vars[1..]);
      InsertSorted(vars[0], SortVars(vars[1..]));
    }
  }

  /** The scope of a recursive set or `let`, one variable per definition. */
  method OpenSet(defs: seq<Binding<VarNode, WithNode>>, s: NodeEnv) returns (inner: NodeEnv)
    requires DefsTree(defs) && SortedEnv(s)
    ensures inner == RecScope(defs, s)
    ensures SortedEnv(inner)
    ensures Bound(inner) == Bound(s) + DefSymbols(DefsNames(defs))
  {
    var vars := [];
    for i := 0 to |defs|
      invariant |vars| == i
      invariant forall j | 0 <= j < i :: vars[j] == VarPos(defs[j].name, j)
    {
      vars := vars + [VarPos(defs[i].name, i)];
    }
    inner := Scope(None, vars, s);
    DefVarsAt(defs, 0);
    assert vars == DefVars(defs, 0);
    DefSymbolsMatch(defs, vars);
  }

  lemma {:induction false} DefSymbolsMatch(defs: seq<Binding<VarNode, WithNode>>, vars: seq<VarPos>)
    requires |vars| == |defs| && forall i | 0 <= i < |defs| :: vars[i].name == defs[i].name
    ensures VarNames(vars) == DefSymbols(DefsNames(defs))
  {
    var names := DefsNames(defs);
    forall i | 0 <= i < |defs| ensures names[i].name == vars[i].name {
      assert names[i] == BindingNames(defs[i]);
    }
    assert forall x :: x in VarNames(vars) <==> exists i | 0 <= i < |vars| :: names[i].name == x;
  }

  /** The scope of a function: the argument's own name, then the formals, sorted by name. */
  method OpenLambda(params: Params<VarNode, WithNode>, s: NodeEnv) returns (inner: NodeEnv)
    requires SortedEnv(s)
    ensures inner == LamScope(params, s)
    ensures SortedEnv(inner)
    ensures Bound(inner) == Bound(s) + ParamSymbols(ParamsNames(params))
  {
    var vars := [];
    if params.Arg().Some? {
      vars := [VarPos(params.Arg().value, 0)];
    }
    vars := AddFormals(vars, params.Formals());
    assert vars == ParamVars(params);
    SortSorted(vars);
    inner := Scope(None, SortVars(vars), s);
    ParamSymbolsMatch(params);
  }

  method AddFormals(first: seq<VarPos>, formals: seq<Formal<VarNode, WithNode>>) returns (vars: seq<VarPos>)
    ensures vars == first + FormalVars(formals, |first|)
  {
    var displ := |first|;
    vars := first;
    ghost var rest := FormalVars(formals, displ);
    FormalVarsAt(formals, displ);
    for i := 0 to |formals|
      invariant displ == |first| + i
      invariant vars == first + rest[..i]
    {
      vars, displ := vars + [VarPos(formals[i].name, displ)], displ + 1;
    }
  }

  lemma {:induction false} FormalSymbolsMatch(params: Params<VarNode, WithNode>, k: nat)
    ensures VarNames(FormalVars(params.Formals(), k)) == FormalSymbols(ParamsNames(params).Formals())
  {
    var formals, names, vars := params.Formals(), ParamsNames(params).Formals(), FormalVars(params.Formals(), k);
    FormalVarsAt(formals, k);
    assert params.Pattern? ==> names == FormalsNames(formals);
    forall i | 0 <= i < |formals| ensures names[i].name == vars[i].name {
      assert names[i] == FormalNames(formals[i]);
    }
    assert forall x :: x in VarNames(vars) <==> exists i | 0 <= i < |vars| :: names[i].name == x;
  }

  lemma {:induction false} ParamSymbolsMatch(params: Params<VarNode, WithNode>)
    ensures VarNames(SortVars(ParamVars(params))) == ParamSymbols(ParamsNames(params))
  {
    var vars := ParamVars(params);
    FormalSymbolsMatch(params, if params.Arg().Some? then 1 else 0);
    forall x ensures x in VarNames(SortVars(vars)) <==> x in ParamSymbols(ParamsNames(params)) {
      SortFinds(vars, x);
      FindBound(SortVars(vars), x);
      FindBound(vars, x);
      if params.Arg().Some? {
        assert vars[1..] == FormalVars(params.Formals(), 1);
        FindBound(vars[1..], x);
      }
    }
  }

  /* ---- the traversal ---- */

  /** An occurrence: the innermost lexical binder, else the innermost `with`, else an error. */
  method BindVar(v: VarNode, s: NodeEnv) returns (ok: bool)
    requires SortedEnv(s) && v !in EnvNodes(s)
    modifies v
    ensures ok == RefClosed(ByName(v.name), Bound(s), HasWith(s))
    ensures ok ==> Spells(v, Resolve(Links(s), v.name))
    ensures ok ==> Coherent({v}, {v} + EnvNodes(s))
  {
    v.fromWith := null;
    ScopeBound(s, v.name, 0);
    var cur, level, withLevel := s, 0, -1;
    while cur.Scope?
      invariant SortedEnv(cur)
      invariant FindScope(s, v.name, 0) == FindScope(cur, v.name, level)
      invariant withLevel == -1 ==>
        HasWith(s) == HasWith(cur) && (HasWith(s) ==> WithLevel(s) == level + WithLevel(cur))
      invariant withLevel != -1 ==> HasWith(s) && withLevel == WithLevel(s)
      invariant v.fromWith == null
      decreases cur
    {
      if cur.isWith.Some? {
        if withLevel == -1 {
          withLevel := level;
        }
      } else {
        var displ := Find(cur.vars, v.name);
        if displ.Some? {
          v.level, v.displ := level, displ.value;
          LinksAgree(s, v.name, 0);
          return true;
        }
      }
      cur, level := cur.up, level + 1;
    }
    LinksAgree(s, v.name, 0);
    if withLevel == -1 {
      return false;
    }
    var e := s;
    while e.Scope? && v.fromWith == null
      invariant v.fromWith == null ==> NearestWith(e) == NearestWith(s)
      invariant v.fromWith != null ==> NearestWith(s) == Some(v.fromWith)
      decreases e
    {
      v.fromWith := if e.isWith.Some? then e.isWith.value else null;
      e := e.up;
    }
    v.level := withLevel;
    v.link := Some(v.fromWith.link);
    LinksAgree(s, v.name, 0);
    return true;
  }
}
