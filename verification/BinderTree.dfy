/** The syntax tree as the resolver sees it: nodes with fields to be written. */
module BinderTree {
  import opened Optional
  import opened NixSyntax
  import opened BindSpec

  /** A `with` node; `link` is the ghost value of the chain its fields spell out. */
  class WithNode {
    var prevWith: nat
    var parentWith: WithNode?
    ghost var link: WithLink

    constructor ()
    {
      prevWith, parentWith := 0, null;
    }
  }

  /** A variable occurrence; `link` is the ghost value of the chain behind `fromWith`. */
  class VarNode {
    const name: Symbol
    var fromWith: WithNode?
    var level: nat
    var displ: nat
    ghost var link: Option<WithLink>

    constructor (name: Symbol)
      ensures this.name == name
    {
      this.name, fromWith, level, displ := name, null, 0, 0;
    }
  }

  type Tree = Expr<VarNode, WithNode>

  type NodeEnv = StaticEnv<WithNode>

  /* ---- footprints: the nodes of a tree, and that no node occurs twice ---- */

  ghost function Nodes(e: Tree): set<object>
    decreases e, 0
  {
    match e
    case Lit(_) => {}
    case Var(v) => {v}
    case Select(b, path, def) => Nodes(b) + OptionNodes(def) + PathNodes(path)
    case Attrs(_, attrs) => SetNodes(attrs)
    case Lambda(lam) => LamNodes(lam)
    case Call(fun, args) => Nodes(fun) + AllNodes(args)
    case Let(attrs, body) => SetNodes(attrs) + Nodes(body)
    case With(w, scope, body) => {w} + Nodes(scope) + Nodes(body)
  }

  ghost function OptionNodes(e: Option<Tree>): set<object>
    decreases e, 1
  {
    if e.Some? then Nodes(e.value) else {}
  }

  ghost function AllNodes(es: seq<Tree>): set<object>
    decreases es, 1
  {
    set i, o | 0 <= i < |es| && o in Nodes(es[i]) :: o
  }

  ghost function PathNodes(path: seq<AttrName<VarNode, WithNode>>): set<object>
    decreases path, 1
  {
    set i, o | 0 <= i < |path| && o in NameNodes(path[i]) :: o
  }

  ghost function NameNodes(a: AttrName<VarNode, WithNode>): set<object>
    decreases a, 1
  {
    if a.Dynamic? then Nodes(a.e) else {}
  }

  ghost function LamNodes(lam: Lam<VarNode, WithNode>): set<object>
    decreases lam, 1
  {
    ParamsNodes(lam.params) + Nodes(lam.body)
  }

  ghost function ParamsNodes(p: Params<VarNode, WithNode>): set<object>
    decreases p, 1
  {
    if p.Single? then {} else FormalsNodes(p.formals)
  }

  ghost function FormalsNodes(formals: seq<Formal<VarNode, WithNode>>): set<object>
    decreases formals, 1
  {
    set i, o | 0 <= i < |formals| && o in FormalNodes(formals[i]) :: o
  }

  ghost function FormalNodes(f: Formal<VarNode, WithNode>): set<object>
    decreases f, 1
  {
    OptionNodes(f.def)
  }

  ghost function SetNodes(attrs: AttrSet<VarNode, WithNode>): set<object>
    decreases attrs, 1
  {
    DefsNodes(attrs.defs) + AllNodes(attrs.froms) + DynsNodes(attrs.dyn)
  }

  ghost function DefsNodes(defs: seq<Binding<VarNode, WithNode>>): set<object>
    decreases defs, 1
  {
    set i, o | 0 <= i < |defs| && o in BindingNodes(defs[i]) :: o
  }

  ghost function BindingNodes(b: Binding<VarNode, WithNode>): set<object>
    decreases b, 1
  {
    DefNodes(b.def)
  }

  ghost function DefNodes(d: AttrDef<VarNode, WithNode>): set<object>
    decreases d, 1
  {
    if d.InheritedFrom? then {} else Nodes(d.e)
  }

  ghost function DynsNodes(dyn: seq<DynAttr<VarNode, WithNode>>): set<object>
    decreases dyn, 1
  {
    set i, o | 0 <= i < |dyn| && o in DynNodes(dyn[i]) :: o
  }

  ghost function DynNodes(d: DynAttr<VarNode, WithNode>): set<object>
    decreases d, 1
  {
    Nodes(d.nameExpr) + Nodes(d.valueExpr)
  }

  /** The parser's promises: no shared node, and definitions in strict symbol order. */
  ghost predicate IsTree(e: Tree)
    decreases e, 0
  {
    match e
    case Lit(_) => true
    case Var(_) => true
    case Select(b, path, def) =>
      && IsTree(b) && OptionTree(def) && PathTree(path)
      && Nodes(b) !! OptionNodes(def) !! PathNodes(path)
    case Attrs(_, attrs) => SetTree(attrs)
    case Lambda(lam) => LamTree(lam)
    case Call(fun, args) => IsTree(fun) && AllTrees(args) && Nodes(fun) !! AllNodes(args)
    case Let(attrs, body) => SetTree(attrs) && attrs.dyn == [] && IsTree(body) && SetNodes(attrs) !! Nodes(body)
    case With(w, scope, body) =>
      && IsTree(scope) && IsTree(body)
      && w !in Nodes(scope) && w !in Nodes(body) && Nodes(scope) !! Nodes(body)
  }

  ghost predicate OptionTree(e: Option<Tree>)
    decreases e, 1
  {
    e.Some? ==> IsTree(e.value)
  }

  ghost predicate AllTrees(es: seq<Tree>)
    decreases es, 1
  {
    && (forall i | 0 <= i < |es| :: IsTree(es[i]))
    && (forall i, j | 0 <= i < j < |es| :: Nodes(es[i]) !! Nodes(es[j]))
  }

  ghost predicate PathTree(path: seq<AttrName<VarNode, WithNode>>)
    decreases path, 1
  {
    && (forall i | 0 <= i < |path| :: NameTree(path[i]))
    && (forall i, j | 0 <= i < j < |path| :: NameNodes(path[i]) !! NameNodes(path[j]))
  }

  ghost predicate NameTree(a: AttrName<VarNode, WithNode>)
    decreases a, 1
  {
    a.Dynamic? ==> IsTree(a.e)
  }

  ghost predicate LamTree(lam: Lam<VarNode, WithNode>)
    decreases lam, 1
  {
    ParamsTree(lam.params) && IsTree(lam.body) && ParamsNodes(lam.params) !! Nodes(lam.body)
  }

  ghost predicate ParamsTree(p: Params<VarNode, WithNode>)
    decreases p, 1
  {
    p.Pattern? ==> FormalsTree(p.formals)
  }

  ghost predicate FormalsTree(formals: seq<Formal<VarNode, WithNode>>)
    decreases formals, 1
  {
    && (forall i | 0 <= i < |formals| :: FormalTree(formals[i]))
    && (forall i, j | 0 <= i < j < |formals| :: FormalNodes(formals[i]) !! FormalNodes(formals[j]))
  }

  ghost predicate FormalTree(f: Formal<VarNode, WithNode>)
    decreases f, 1
  {
    OptionTree(f.def)
  }

  ghost predicate SetTree(attrs: AttrSet<VarNode, WithNode>)
    decreases attrs, 1
  {
    && DefsTree(attrs.defs) && AllTrees(attrs.froms) && DynsTree(attrs.dyn)
    && DefsNodes(attrs.defs) !! AllNodes(attrs.froms) !! DynsNodes(attrs.dyn)
  }

  ghost predicate DefsTree(defs: seq<Binding<VarNode, WithNode>>)
    decreases defs, 1
  {
    && (forall i | 0 <= i < |defs| :: BindingTree(defs[i]))
    && (forall i, j | 0 <= i < j < |defs| :: BindingNodes(defs[i]) !! BindingNodes(defs[j]))
    && (forall i, j | 0 <= i < j < |defs| :: defs[i].name < defs[j].name)
  }

  ghost predicate BindingTree(b: Binding<VarNode, WithNode>)
    decreases b, 1
  {
    DefTree(b.def)
  }

  ghost predicate DefTree(d: AttrDef<VarNode, WithNode>)
    decreases d, 1
  {
    !d.InheritedFrom? ==> IsTree(d.e)
  }

  ghost predicate DynsTree(dyn: seq<DynAttr<VarNode, WithNode>>)
    decreases dyn, 1
  {
    && (forall i | 0 <= i < |dyn| :: DynTree(dyn[i]))
    && (forall i, j | 0 <= i < j < |dyn| :: DynNodes(dyn[i]) !! DynNodes(dyn[j]))
  }

  ghost predicate DynTree(d: DynAttr<VarNode, WithNode>)
    decreases d, 1
  {
    IsTree(d.nameExpr) && IsTree(d.valueExpr) && Nodes(d.nameExpr) !! Nodes(d.valueExpr)
  }

  /* ---- the source term a tree stands for ---- */

  ghost function Names(e: Tree): Term
    decreases e, 0
  {
    match e
    case Lit(lit) => Lit(lit)
    case Var(v) => Var(ByName(v.name))
    case Select(b, path, def) => Select(Names(b), PathNames(path), OptionNames(def))
    case Attrs(recursive, attrs) => Attrs(recursive, SetNames(attrs))
    case Lambda(lam) => Lambda(LamNames(lam))
    case Call(fun, args) => Call(Names(fun), AllNames(args))
    case Let(attrs, body) => Let(SetNames(attrs), Names(body))
    case With(w, scope, body) => With((), Names(scope), Names(body))
  }

  ghost function OptionNames(e: Option<Tree>): Option<Term>
    decreases e, 1
  {
    if e.Some? then Some(Names(e.value)) else None
  }

  ghost function AllNames(es: seq<Tree>): seq<Term>
    decreases es, 1
  {
    seq(|es|, i requires 0 <= i < |es| => Names(es[i]))
  }

  ghost function PathNames(path: seq<AttrName<VarNode, WithNode>>): seq<AttrName<VarRef, ()>>
    decreases path, 1
  {
    seq(|path|, i requires 0 <= i < |path| => NameNames(path[i]))
  }

  ghost function NameNames(a: AttrName<VarNode, WithNode>): AttrName<VarRef, ()>
    decreases a, 1
  {
    match a
    case Static(s) => Static(s)
    case Dynamic(e) => Dynamic(Names(e))
  }

  ghost function LamNames(lam: Lam<VarNode, WithNode>): TermLam
    decreases lam, 1
  {
    Lam(ParamsNames(lam.params), Names(lam.body))
  }

  ghost function ParamsNames(p: Params<VarNode, WithNode>): TermParams
    decreases p, 1
  {
    match p
    case Single(x) => Single(x)
    case Pattern(self, formals, ellipsis) =>
      Pattern(self, FormalsNames(formals), ellipsis)
  }

  ghost function FormalsNames(formals: seq<Formal<VarNode, WithNode>>): seq<Formal<VarRef, ()>>
    decreases formals, 1
  {
    seq(|formals|, i requires 0 <= i < |formals| => FormalNames(formals[i]))
  }

  ghost function FormalNames(f: Formal<VarNode, WithNode>): Formal<VarRef, ()>
    decreases f, 1
  {
    Formal(f.name, OptionNames(f.def))
  }

  ghost function SetNames(attrs: AttrSet<VarNode, WithNode>): TermSet
    decreases attrs, 1
  {
    AttrSet(DefsNames(attrs.defs), AllNames(attrs.froms), DynsNames(attrs.dyn))
  }

  ghost function DefsNames(defs: seq<Binding<VarNode, WithNode>>): seq<Binding<VarRef, ()>>
    decreases defs, 1
  {
    seq(|defs|, i requires 0 <= i < |defs| => BindingNames(defs[i]))
  }

  ghost function BindingNames(b: Binding<VarNode, WithNode>): Binding<VarRef, ()>
    decreases b, 1
  {
    Binding(b.name, DefNames(b.def))
  }

  ghost function DefNames(d: AttrDef<VarNode, WithNode>): AttrDef<VarRef, ()>
    decreases d, 1
  {
    match d
    case Plain(e) => Plain(Names(e))
    case Inherited(e) => Inherited(Names(e))
    case InheritedFrom(k, a) => InheritedFrom(k, a)
  }

  ghost function DynsNames(dyn: seq<DynAttr<VarNode, WithNode>>): seq<DynAttr<VarRef, ()>>
    decreases dyn, 1
  {
    seq(|dyn|, i requires 0 <= i < |dyn| => DynNames(dyn[i]))
  }

  ghost function DynNames(d: DynAttr<VarNode, WithNode>): DynAttr<VarRef, ()>
    decreases d, 1
  {
    DynAttr(Names(d.nameExpr), Names(d.valueExpr))
  }

  /* ---- what the fields of a bound tree say ---- */

  ghost predicate Spells(v: VarNode, r: VarRef)
    reads v
  {
    match r
    case Lexical(level, displ) => v.fromWith == null && v.level == level && v.displ == displ
    case FromWith(x, level, link) => v.fromWith != null && v.name == x && v.level == level && v.link == Some(link)
    case _ => false
  }

  /** The tree is `t`, with every variable occurrence spelled out in its node's fields. */
  ghost predicate Written(e: Tree, t: Term)
    reads Nodes(e)
    decreases e, 0
  {
    match e
    case Lit(lit) => t == Lit(lit)
    case Var(v) => t.Var? && Spells(v, t.v)
    case Select(b, path, def) =>
      t.Select? && Written(b, t.e) && PathWritten(path, t.path) && OptionWritten(def, t.def)
    case Attrs(recursive, attrs) => t.Attrs? && t.recursive == recursive && SetWritten(attrs, t.attrs)
    case Lambda(lam) => t.Lambda? && LamWritten(lam, t.lam)
    case Call(fun, args) => t.Call? && Written(fun, t.fun) && AllWritten(args, t.args)
    case Let(attrs, body) => t.Let? && SetWritten(attrs, t.attrs) && Written(body, t.body)
    case With(w, scope, body) => t.With? && Written(scope, t.scope) && Written(body, t.body)
  }

  ghost predicate OptionWritten(e: Option<Tree>, t: Option<Term>)
    reads OptionNodes(e)
    decreases e, 1
  {
    (e.Some? <==> t.Some?) && (e.Some? ==> Written(e.value, t.value))
  }

  ghost predicate AllWritten(es: seq<Tree>, ts: seq<Term>)
    reads AllNodes(es)
    decreases es, 1
  {
    |ts| == |es| && forall i | 0 <= i < |es| :: Written(es[i], ts[i])
  }

  ghost predicate PathWritten(path: seq<AttrName<VarNode, WithNode>>, ts: seq<AttrName<VarRef, ()>>)
    reads PathNodes(path)
    decreases path, 1
  {
    |ts| == |path| && forall i | 0 <= i < |path| :: NameWritten(path[i], ts[i])
  }

  ghost predicate NameWritten(a: AttrName<VarNode, WithNode>, t: AttrName<VarRef, ()>)
    reads NameNodes(a)
    decreases a, 1
  {
    match a
    case Static(s) => t == Static(s)
    case Dynamic(e) => t.Dynamic? && Written(e, t.e)
  }

  ghost predicate LamWritten(lam: Lam<VarNode, WithNode>, t: TermLam)
    reads LamNodes(lam)
    decreases lam, 1
  {
    ParamsWritten(lam.params, t.params) && Written(lam.body, t.body)
  }

  ghost predicate ParamsWritten(p: Params<VarNode, WithNode>, t: TermParams)
    reads ParamsNodes(p)
    decreases p, 1
  {
    match p
    case Single(x) => t == Single(x)
    case Pattern(self, formals, ellipsis) =>
      t.Pattern? && t.self == self && t.ellipsis == ellipsis && FormalsWritten(formals, t.formals)
  }

  ghost predicate FormalsWritten(formals: seq<Formal<VarNode, WithNode>>, ts: seq<Formal<VarRef, ()>>)
    reads FormalsNodes(formals)
    decreases formals, 1
  {
    |ts| == |formals| && forall i | 0 <= i < |formals| :: FormalWritten(formals[i], ts[i])
  }

  ghost predicate FormalWritten(f: Formal<VarNode, WithNode>, t: Formal<VarRef, ()>)
    reads FormalNodes(f)
    decreases f, 1
  {
    t.name == f.name && OptionWritten(f.def, t.def)
  }

  ghost predicate SetWritten(attrs: AttrSet<VarNode, WithNode>, t: TermSet)
    reads SetNodes(attrs)
    decreases attrs, 1
  {
    DefsWritten(attrs.defs, t.defs) && AllWritten(attrs.froms, t.froms) && DynsWritten(attrs.dyn, t.dyn)
  }

  ghost predicate DefsWritten(defs: seq<Binding<VarNode, WithNode>>, ts: seq<Binding<VarRef, ()>>)
    reads DefsNodes(defs)
    decreases defs, 1
  {
    |ts| == |defs| && forall i | 0 <= i < |defs| :: BindingWritten(defs[i], ts[i])
  }

  ghost predicate BindingWritten(b: Binding<VarNode, WithNode>, t: Binding<VarRef, ()>)
    reads BindingNodes(b)
    decreases b, 1
  {
    t.name == b.name && DefWritten(b.def, t.def)
  }

  ghost predicate DefWritten(d: AttrDef<VarNode, WithNode>, t: AttrDef<VarRef, ()>)
    reads DefNodes(d)
    decreases d, 1
  {
    match d
    case Plain(e) => t.Plain? && Written(e, t.e)
    case Inherited(e) => t.Inherited? && Written(e, t.e)
    case InheritedFrom(k, a) => t == InheritedFrom(k, a)
  }

  ghost predicate DynsWritten(dyn: seq<DynAttr<VarNode, WithNode>>, ts: seq<DynAttr<VarRef, ()>>)
    reads DynsNodes(dyn)
    decreases dyn, 1
  {
    |ts| == |dyn| && forall i | 0 <= i < |dyn| :: DynWritten(dyn[i], ts[i])
  }

  ghost predicate DynWritten(d: DynAttr<VarNode, WithNode>, t: DynAttr<VarRef, ()>)
    reads DynNodes(d)
    decreases d, 1
  {
    Written(d.nameExpr, t.nameExpr) && Written(d.valueExpr, t.valueExpr)
  }
}
