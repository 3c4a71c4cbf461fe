/** What variable resolution computes: names become (level, displacement) pairs. */
module BindSpec {
  import opened Optional
  import opened NixSyntax

  /** One scope per frame of the runtime environment.  `isWith` carries the `with` node. */
  datatype StaticEnv<W> = Nil | Scope(isWith: Option<W>, vars: seq<VarPos>, up: StaticEnv<W>)

  datatype VarPos = VarPos(name: Symbol, displ: nat)

  type Scopes = StaticEnv<WithLink>

  function FindVar(vars: seq<VarPos>, x: Symbol): Option<nat> {
    if vars == [] then None
    else if vars[0].name == x then Some(vars[0].displ)
    else FindVar(vars[1..], x)
  }

  /** The innermost scope that binds `x`, as (level, displacement) from `level`. */
  function FindScope<W>(s: StaticEnv<W>, x: Symbol, level: nat): Option<(nat, nat)> {
    match s
    case Nil => None
    case Scope(isWith, vars, up) =>
      if isWith.None? && FindVar(vars, x).Some? then Some((level, FindVar(vars, x).value))
      else FindScope(up, x, level + 1)
  }

  function NearestWith<W>(s: StaticEnv<W>): Option<W> {
    match s
    case Nil => None
    case Scope(isWith, _, up) => if isWith.Some? then isWith else NearestWith(up)
  }

  function WithLevel<W>(s: StaticEnv<W>): nat
    requires NearestWith(s).Some?
  {
    if s.isWith.Some? then 0 else 1 + WithLevel(s.up)
  }

  function Resolve(s: Scopes, x: Symbol): VarRef {
    match FindScope(s, x, 0)
    case Some(p) => Lexical(p.0, p.1)
    case None =>
      if NearestWith(s).Some? then FromWith(x, WithLevel(s), NearestWith(s).value) else Undefined(x)
  }

  /** The link a `with` node records when it is met in scope `s`. */
  function LinkTo(s: Scopes): WithLink {
    WithLink(if NearestWith(s).Some? then 1 + WithLevel(s) else 0, NearestWith(s))
  }

  /* ---- the variables of a new scope ---- */

  function DefVars<V, W>(defs: seq<Binding<V, W>>, displ: nat): seq<VarPos> {
    if defs == [] then [] else [VarPos(defs[0].name, displ)] + DefVars(defs[1..], displ + 1)
  }

  function FormalVars<V, W>(formals: seq<Formal<V, W>>, displ: nat): seq<VarPos> {
    if formals == [] then [] else [VarPos(formals[0].name, displ)] + FormalVars(formals[1..], displ + 1)
  }

  /** The whole argument, if it is named, comes first; then the formals in order. */
  function ParamVars<V, W>(params: Params<V, W>): seq<VarPos> {
    match params.Arg()
    case Some(x) => [VarPos(x, 0)] + FormalVars(params.Formals(), 1)
    case None => FormalVars(params.Formals(), 0)
  }

  /** Stable insertion of `p` before the first strictly larger or equal name. */
  function InsertVar(p: VarPos, vars: seq<VarPos>): seq<VarPos> {
    if vars == [] || p.name <= vars[0].name then [p] + vars else [vars[0]] + InsertVar(p, vars[1..])
  }

  function SortVars(vars: seq<VarPos>): seq<VarPos> {
    if vars == [] then [] else InsertVar(vars[0], SortVars(vars[1..]))
  }

  lemma {:induction false} InsertFinds(p: VarPos, vars: seq<VarPos>, x: Symbol)
    ensures FindVar(InsertVar(p, vars), x) == if p.name == x then Some(p.displ) else FindVar(vars, x)
  {
    if vars == [] || p.name <= vars[0].name {
    } else {
      InsertFinds(p, vars[1..], x);
    }
  }

  /** Sorting a scope's variables is stable, so it does not change what a name denotes. */
  lemma {:induction false} SortFinds(vars: seq<VarPos>, x: Symbol)
    ensures FindVar(SortVars(vars), x) == FindVar(vars, x)
  {
    if vars == [] {
    } else {
      SortFinds(vars[1..], x);
      InsertFinds(vars[0], SortVars(vars[1..]), x);
    }
  }

  function RecScope<V, W, N>(defs: seq<Binding<V, W>>, s: StaticEnv<N>): StaticEnv<N> {
    Scope(None, DefVars(defs, 0), s)
  }

  function LamScope<V, W, N>(params: Params<V, W>, s: StaticEnv<N>): StaticEnv<N> {
    Scope(None, SortVars(ParamVars(params)), s)
  }

  /* ---- resolution of a whole expression ---- */

  function BindRef(r: VarRef, s: Scopes): VarRef {
    if r.ByName? then Resolve(s, r.name) else r
  }

  function Bind(e: Term, s: Scopes): Term
    decreases e, 0
  {
    match e
    case Lit(_) => e
    case Var(r) => Var(BindRef(r, s))
    case Select(b, path, def) => Select(Bind(b, s), BindPath(path, s), BindOption(def, s))
    case Attrs(recursive, attrs) =>
      Attrs(recursive, BindSet(attrs, if recursive then RecScope(attrs.defs, s) else s, s))
    case Lambda(lam) => Lambda(BindLam(lam, s))
    case Call(fun, args) => Call(Bind(fun, s), BindAll(args, s))
    case Let(attrs, body) =>
      var inner := RecScope(attrs.defs, s);
      Let(BindSet(attrs, inner, s), Bind(body, inner))
    case With(w, scope, body) => With(w, Bind(scope, s), Bind(body, Scope(Some(LinkTo(s)), [], s)))
  }

  function BindOption(e: Option<Term>, s: Scopes): Option<Term>
    decreases e, 1
  {
    if e.Some? then Some(Bind(e.value, s)) else None
  }

  function BindAll(es: seq<Term>, s: Scopes): (r: seq<Term>)
    decreases es, 1
    ensures |r| == |es|
  {
    if es == [] then [] else [Bind(es[0], s)] + BindAll(es[1..], s)
  }

  function BindPath(path: seq<AttrName<VarRef, ()>>, s: Scopes): (r: seq<AttrName<VarRef, ()>>)
    decreases path, 1
    ensures |r| == |path|
  {
    if path == [] then []
    else [BindName(path[0], s)] + BindPath(path[1..], s)
  }

  function BindName(a: AttrName<VarRef, ()>, s: Scopes): AttrName<VarRef, ()>
    decreases a, 1
  {
    if a.Dynamic? then Dynamic(Bind(a.e, s)) else a
  }

  function BindLam(lam: TermLam, s: Scopes): TermLam
    decreases lam, 1
  {
    var inner := LamScope(lam.params, s);
    Lam(BindParams(lam.params, inner), Bind(lam.body, inner))
  }

  function BindParams(params: TermParams, inner: Scopes): TermParams
    decreases params, 1
  {
    if params.Single? then params else params.(formals := BindFormals(params.formals, inner))
  }

  function BindFormals(formals: seq<Formal<VarRef, ()>>, inner: Scopes): (r: seq<Formal<VarRef, ()>>)
    decreases formals, 1
    ensures |r| == |formals|
  {
    if formals == [] then []
    else [BindFormal(formals[0], inner)] + BindFormals(formals[1..], inner)
  }

  function BindFormal(f: Formal<VarRef, ()>, inner: Scopes): Formal<VarRef, ()>
    decreases f, 1
  {
    Formal(f.name, BindOption(f.def, inner))
  }

  /** `inner` is the scope of plain definitions and source expressions, `outer` of `inherit`. */
  function BindSet(attrs: TermSet, inner: Scopes, outer: Scopes): TermSet
    decreases attrs, 1
  {
    AttrSet(BindDefs(attrs.defs, inner, outer), BindAll(attrs.froms, inner), BindDyn(attrs.dyn, inner))
  }

  function BindDef(def: AttrDef<VarRef, ()>, inner: Scopes, outer: Scopes): AttrDef<VarRef, ()>
    decreases def, 1
  {
    match def
    case Plain(e) => Plain(Bind(e, inner))
    case Inherited(e) => Inherited(Bind(e, outer))
    case InheritedFrom(_, _) => def
  }

  function BindDefs(defs: seq<Binding<VarRef, ()>>, inner: Scopes, outer: Scopes): (r: seq<Binding<VarRef, ()>>)
    decreases defs, 1
    ensures |r| == |defs|
  {
    if defs == [] then []
    else [BindBinding(defs[0], inner, outer)] + BindDefs(defs[1..], inner, outer)
  }

  function BindBinding(b: Binding<VarRef, ()>, inner: Scopes, outer: Scopes): Binding<VarRef, ()>
    decreases b, 1
  {
    Binding(b.name, BindDef(b.def, inner, outer))
  }

  function BindDyn(dyn: seq<DynAttr<VarRef, ()>>, inner: Scopes): (r: seq<DynAttr<VarRef, ()>>)
    decreases dyn, 1
    ensures |r| == |dyn|
  {
    if dyn == [] then []
    else [BindDynAttr(dyn[0], inner)] + BindDyn(dyn[1..], inner)
  }

  function BindDynAttr(d: DynAttr<VarRef, ()>, inner: Scopes): DynAttr<VarRef, ()>
    decreases d, 1
  {
    DynAttr(Bind(d.nameExpr, inner), Bind(d.valueExpr, inner))
  }

  /* ---- the list functions, element by element ---- */

  lemma {:induction false} BindAllAt(es: seq<Term>, s: Scopes)
    ensures forall i | 0 <= i < |es| :: BindAll(es, s)[i] == Bind(es[i], s)
  {
    if es == [] {
    } else {
      BindAllAt(es[1..], s);
      forall i | 0 < i < |es| ensures BindAll(es, s)[i] == Bind(es[i], s) {
        assert BindAll(es, s)[i] == BindAll(es[1..], s)[i - 1];
      }
    }
  }

  lemma {:induction false} BindPathAt(path: seq<AttrName<VarRef, ()>>, s: Scopes)
    ensures forall i | 0 <= i < |path| :: BindPath(path, s)[i] == BindName(path[i], s)
  {
    if path == [] {
    } else {
      BindPathAt(path[1..], s);
      forall i | 0 < i < |path| ensures BindPath(path, s)[i] == BindName(path[i], s) {
        assert BindPath(path, s)[i] == BindPath(path[1..], s)[i - 1];
      }
    }
  }

  lemma {:induction false} BindFormalsAt(formals: seq<Formal<VarRef, ()>>, inner: Scopes)
    ensures forall i | 0 <= i < |formals| :: BindFormals(formals, inner)[i] == BindFormal(formals[i], inner)
  {
    if formals == [] {
    } else {
      BindFormalsAt(formals[1..], inner);
      forall i | 0 < i < |formals| ensures BindFormals(formals, inner)[i] == BindFormal(formals[i], inner) {
        assert BindFormals(formals, inner)[i] == BindFormals(formals[1..], inner)[i - 1];
      }
    }
  }

  lemma {:induction false} BindDefsAt(defs: seq<Binding<VarRef, ()>>, inner: Scopes, outer: Scopes)
    ensures forall i | 0 <= i < |defs| :: BindDefs(defs, inner, outer)[i] == BindBinding(defs[i], inner, outer)
  {
    if defs == [] {
    } else {
      BindDefsAt(defs[1..], inner, outer);
      forall i | 0 < i < |defs| ensures BindDefs(defs, inner, outer)[i] == BindBinding(defs[i], inner, outer) {
        assert BindDefs(defs, inner, outer)[i] == BindDefs(defs[1..], inner, outer)[i - 1];
      }
    }
  }

  lemma {:induction false} BindDynAt(dyn: seq<DynAttr<VarRef, ()>>, inner: Scopes)
    ensures forall i | 0 <= i < |dyn| :: BindDyn(dyn, inner)[i] == BindDynAttr(dyn[i], inner)
  {
    if dyn == [] {
    } else {
      BindDynAt(dyn[1..], inner);
      forall i | 0 < i < |dyn| ensures BindDyn(dyn, inner)[i] == BindDynAttr(dyn[i], inner) {
        assert BindDyn(dyn, inner)[i] == BindDyn(dyn[1..], inner)[i - 1];
      }
    }
  }
}
