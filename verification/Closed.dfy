/** When resolution reports an undefined variable, stated without levels. */
module Closed {
  import opened Optional
  import opened NixSyntax
  import opened BindSpec

  /** The names a scope chain binds lexically; `with` scopes contribute none. */
  ghost function Bound<W>(s: StaticEnv<W>): set<Symbol> {
    match s
    case Nil => {}
    case Scope(isWith, vars, up) =>
      if isWith.Some? then Bound(up) else VarNames(vars) + Bound(up)
  }

  ghost function VarNames(vars: seq<VarPos>): set<Symbol> {
    set i | 0 <= i < |vars| :: vars[i].name
  }

  lemma {:induction false} FindBound(vars: seq<VarPos>, x: Symbol)
    ensures FindVar(vars, x).Some? <==> x in VarNames(vars)
  {
    if vars == [] {
    } else {
      FindBound(vars[1..], x);
      assert x in VarNames(vars) <==> vars[0].name == x || x in VarNames(vars[1..]) by {
        forall i | 0 < i < |vars| ensures vars[i] == vars[1..][i - 1] {}
      }
    }
  }

  /** Being bound lexically is being found by the scope walk. */
  lemma {:induction false} ScopeBound<W>(s: StaticEnv<W>, x: Symbol, k: nat)
    ensures FindScope(s, x, k).Some? <==> x in Bound(s)
  {
    if s.Nil? {
    } else {
      FindBound(s.vars, x);
      ScopeBound(s.up, x, k + 1);
    }
  }

  predicate RefClosed(r: VarRef, bound: set<Symbol>, inWith: bool) {
    match r
    case ByName(x) => x in bound || inWith
    case Undefined(_) => false
    case _ => true
  }

  ghost function DefSymbols<V, W>(defs: seq<Binding<V, W>>): set<Symbol> {
    set i | 0 <= i < |defs| :: defs[i].name
  }

  ghost function FormalSymbols<V, W>(formals: seq<Formal<V, W>>): set<Symbol> {
    set i | 0 <= i < |formals| :: formals[i].name
  }

  ghost function ParamSymbols<V, W>(params: Params<V, W>): set<Symbol> {
    (if params.Arg().Some? then {params.Arg().value} else {}) + FormalSymbols(params.Formals())
  }

  /** Every variable occurrence is bound by an enclosing binder or lies under a `with`. */
  ghost predicate IsClosed(e: Term, bound: set<Symbol>, inWith: bool)
    decreases e, 0
  {
    match e
    case Lit(_) => true
    case Var(r) => RefClosed(r, bound, inWith)
    case Select(b, path, def) =>
      && IsClosed(b, bound, inWith)
      && (def.Some? ==> IsClosed(def.value, bound, inWith))
      && forall i | 0 <= i < |path| :: NameClosed(path[i], bound, inWith)
    case Attrs(recursive, attrs) =>
      SetClosed(attrs, if recursive then bound + DefSymbols(attrs.defs) else bound, bound, inWith)
    case Lambda(lam) => LamClosed(lam, bound + ParamSymbols(lam.params), inWith)
    case Call(fun, args) =>
      IsClosed(fun, bound, inWith) && forall i | 0 <= i < |args| :: IsClosed(args[i], bound, inWith)
    case Let(attrs, body) =>
      && SetClosed(attrs, bound + DefSymbols(attrs.defs), bound, inWith)
      && IsClosed(body, bound + DefSymbols(attrs.defs), inWith)
    case With(_, scope, body) => IsClosed(scope, bound, inWith) && IsClosed(body, bound, true)
  }

  ghost predicate NameClosed(a: AttrName<VarRef, ()>, bound: set<Symbol>, inWith: bool)
    decreases a, 1
  {
    a.Dynamic? ==> IsClosed(a.e, bound, inWith)
  }

  ghost predicate LamClosed(lam: TermLam, inner: set<Symbol>, inWith: bool)
    decreases lam, 1
  {
    ParamsClosed(lam.params, inner, inWith) && IsClosed(lam.body, inner, inWith)
  }

  ghost predicate ParamsClosed(params: TermParams, inner: set<Symbol>, inWith: bool)
    decreases params, 1
  {
    params.Pattern? ==> forall i | 0 <= i < |params.formals| :: FormalClosed(params.formals[i], inner, inWith)
  }

  ghost predicate FormalClosed(f: Formal<VarRef, ()>, inner: set<Symbol>, inWith: bool)
    decreases f, 1
  {
    f.def.Some? ==> IsClosed(f.def.value, inner, inWith)
  }

  ghost predicate SetClosed(attrs: TermSet, inner: set<Symbol>, outer: set<Symbol>, inWith: bool)
    decreases attrs, 1
  {
    && (forall i | 0 <= i < |attrs.defs| :: BindingClosed(attrs.defs[i], inner, outer, inWith))
    && (forall i | 0 <= i < |attrs.froms| :: IsClosed(attrs.froms[i], inner, inWith))
    && (forall i | 0 <= i < |attrs.dyn| :: DynClosed(attrs.dyn[i], inner, inWith))
  }

  ghost predicate BindingClosed(b: Binding<VarRef, ()>, inner: set<Symbol>, outer: set<Symbol>, inWith: bool)
    decreases b, 1
  {
    DefClosed(b.def, inner, outer, inWith)
  }

  ghost predicate DefClosed(def: AttrDef<VarRef, ()>, inner: set<Symbol>, outer: set<Symbol>, inWith: bool)
    decreases def, 1
  {
    match def
    case Plain(e) => IsClosed(e, inner, inWith)
    case Inherited(e) => IsClosed(e, outer, inWith)
    case InheritedFrom(_, _) => true
  }

  ghost predicate DynClosed(d: DynAttr<VarRef, ()>, inner: set<Symbol>, inWith: bool)
    decreases d, 1
  {
    IsClosed(d.nameExpr, inner, inWith) && IsClosed(d.valueExpr, inner, inWith)
  }
}
