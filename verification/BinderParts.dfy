/** What it means for a subtree to be resolved, and how that follows from its parts. */
module BinderParts {
  import opened Optional
  import opened NixSyntax
  import opened BindSpec
  import opened Closed
  import opened BinderTree
  import opened BinderScope

  /** The subtree is completely resolved in scope `s`. */
  ghost predicate Resolved(e: Tree, s: NodeEnv)
    reads Nodes(e), EnvNodes(s)
  {
    Written(e, Bind(Names(e), Links(s))) && Coherent(Nodes(e), Nodes(e) + EnvNodes(s))
  }

  ghost predicate NameResolved(a: AttrName<VarNode, WithNode>, s: NodeEnv)
    reads NameNodes(a), EnvNodes(s)
  {
    NameWritten(a, BindName(NameNames(a), Links(s))) && Coherent(NameNodes(a), NameNodes(a) + EnvNodes(s))
  }

  ghost predicate FormalResolved(f: Formal<VarNode, WithNode>, s: NodeEnv)
    reads FormalNodes(f), EnvNodes(s)
  {
    FormalWritten(f, BindFormal(FormalNames(f), Links(s))) && Coherent(FormalNodes(f), FormalNodes(f) + EnvNodes(s))
  }

  ghost predicate BindingResolved(b: Binding<VarNode, WithNode>, inner: NodeEnv, outer: NodeEnv)
    reads BindingNodes(b), EnvNodes(inner), EnvNodes(outer)
  {
    && BindingWritten(b, BindBinding(BindingNames(b), Links(inner), Links(outer)))
    && Coherent(BindingNodes(b), BindingNodes(b) + EnvNodes(inner) + EnvNodes(outer))
  }

  ghost predicate DynResolved(d: DynAttr<VarNode, WithNode>, s: NodeEnv)
    reads DynNodes(d), EnvNodes(s)
  {
    DynWritten(d, BindDynAttr(DynNames(d), Links(s))) && Coherent(DynNodes(d), DynNodes(d) + EnvNodes(s))
  }

  /** No occurrence in the subtree is undefined in scope `s`. */
  ghost predicate Closes(e: Tree, s: NodeEnv) {
    IsClosed(Names(e), Bound(s), HasWith(s))
  }

  ghost predicate NameCloses(a: AttrName<VarNode, WithNode>, s: NodeEnv) {
    NameClosed(NameNames(a), Bound(s), HasWith(s))
  }

  ghost predicate FormalCloses(f: Formal<VarNode, WithNode>, s: NodeEnv) {
    FormalClosed(FormalNames(f), Bound(s), HasWith(s))
  }

  ghost predicate BindingCloses(b: Binding<VarNode, WithNode>, inner: NodeEnv, outer: NodeEnv) {
    BindingClosed(BindingNames(b), Bound(inner), Bound(outer), HasWith(inner))
  }

  ghost predicate DynCloses(d: DynAttr<VarNode, WithNode>, s: NodeEnv) {
    DynClosed(DynNames(d), Bound(s), HasWith(s))
  }

  /* ---- from the parts of a node to the node ---- */

  lemma {:induction false} NameCases(a: AttrName<VarNode, WithNode>, s: NodeEnv)
    ensures NameCloses(a, s) <==> (a.Dynamic? ==> Closes(a.e, s))
    ensures (a.Dynamic? ==> Resolved(a.e, s)) ==> NameResolved(a, s)
  {
    hide IsClosed, Written, Bind;
  }

  lemma {:induction false} FormalCases(f: Formal<VarNode, WithNode>, s: NodeEnv)
    ensures FormalCloses(f, s) <==> (f.def.Some? ==> Closes(f.def.value, s))
    ensures (f.def.Some? ==> Resolved(f.def.value, s)) ==> FormalResolved(f, s)
  {
    hide IsClosed, Written, Bind;
    assert FormalNames(f).def == OptionNames(f.def);
    assert BindFormal(FormalNames(f), Links(s)).def == BindOption(OptionNames(f.def), Links(s));
    assert FormalNodes(f) == OptionNodes(f.def);
    assert FormalWritten(f, BindFormal(FormalNames(f), Links(s))) <==>
      OptionWritten(f.def, BindOption(OptionNames(f.def), Links(s)));
    if f.def.Some? {
      assert OptionNames(f.def) == Some(Names(f.def.value));
      assert OptionNodes(f.def) == Nodes(f.def.value);
    } else {
      assert FormalNodes(f) == {};
    }
  }

  lemma {:induction false} BindingCases(b: Binding<VarNode, WithNode>, inner: NodeEnv, outer: NodeEnv)
    requires HasWith(inner) == HasWith(outer)
    ensures BindingCloses(b, inner, outer) <==>
      match b.def {
        case Plain(e) => Closes(e, inner)
        case Inherited(e) => Closes(e, outer)
        case InheritedFrom(_, _) => true
      }
    ensures match b.def {
        case Plain(e) => Resolved(e, inner)
        case Inherited(e) => Resolved(e, outer)
        case InheritedFrom(_, _) => true
      } ==> BindingResolved(b, inner, outer)
  {
    hide IsClosed, Written, Bind, HasWith;
    assert BindingNodes(b) == DefNodes(b.def);
    var t := BindBinding(BindingNames(b), Links(inner), Links(outer));
    assert BindingNames(b).def == DefNames(b.def);
    assert t.def == BindDef(DefNames(b.def), Links(inner), Links(outer));
    assert BindingCloses(b, inner, outer) <==> DefClosed(DefNames(b.def), Bound(inner), Bound(outer), HasWith(inner));
    assert BindingWritten(b, t) <==> DefWritten(b.def, t.def);
    match b.def
    case Plain(e) =>
      assert DefNames(b.def) == Plain(Names(e));
      assert DefNodes(b.def) == Nodes(e);
      assert t.def == Plain(Bind(Names(e), Links(inner)));
    case Inherited(e) =>
      assert DefNames(b.def) == Inherited(Names(e));
      assert DefNodes(b.def) == Nodes(e);
      assert t.def == Inherited(Bind(Names(e), Links(outer)));
    case InheritedFrom(k, a) => assert DefNames(b.def) == InheritedFrom(k, a);
  }

  lemma {:induction false} DynCases(d: DynAttr<VarNode, WithNode>, s: NodeEnv)
    ensures DynCloses(d, s) <==> Closes(d.nameExpr, s) && Closes(d.valueExpr, s)
    ensures Resolved(d.nameExpr, s) && Resolved(d.valueExpr, s) ==> DynResolved(d, s)
  {
    hide IsClosed, Written, Bind;
  }

  ghost predicate SetResolved(attrs: AttrSet<VarNode, WithNode>, inner: NodeEnv, outer: NodeEnv)
    reads SetNodes(attrs), EnvNodes(inner), EnvNodes(outer)
  {
    && SetWritten(attrs, BindSet(SetNames(attrs), Links(inner), Links(outer)))
    && Coherent(SetNodes(attrs), SetNodes(attrs) + EnvNodes(inner) + EnvNodes(outer))
  }

  ghost predicate SetCloses(attrs: AttrSet<VarNode, WithNode>, inner: NodeEnv, outer: NodeEnv) {
    SetClosed(SetNames(attrs), Bound(inner), Bound(outer), HasWith(inner))
  }

  lemma {:induction false} SetClosesIff(attrs: AttrSet<VarNode, WithNode>, inner: NodeEnv, outer: NodeEnv)
    ensures SetCloses(attrs, inner, outer) <==>
      && (forall i | 0 <= i < |attrs.defs| :: BindingCloses(attrs.defs[i], inner, outer))
      && (forall i | 0 <= i < |attrs.froms| :: Closes(attrs.froms[i], inner))
      && (forall i | 0 <= i < |attrs.dyn| :: DynCloses(attrs.dyn[i], inner))
  {
    hide IsClosed, HasWith, BindingClosed, DynClosed;
    var names := SetNames(attrs);
    assert names == AttrSet(DefsNames(attrs.defs), AllNames(attrs.froms), DynsNames(attrs.dyn));
    assert forall i | 0 <= i < |attrs.defs| :: names.defs[i] == BindingNames(attrs.defs[i]);
    assert forall i | 0 <= i < |attrs.froms| :: names.froms[i] == Names(attrs.froms[i]);
    assert forall i | 0 <= i < |attrs.dyn| :: names.dyn[i] == DynNames(attrs.dyn[i]);
  }

  lemma Widen(part: set<object>, some: set<object>, all: set<object>)
    requires part <= some <= all && Coherent(part, some)
    ensures Coherent(part, all)
  {
  }

  lemma {:induction false} AllResolvedBy(es: seq<Tree>, s: NodeEnv)
    requires forall i | 0 <= i < |es| :: Resolved(es[i], s)
    ensures AllWritten(es, BindAll(AllNames(es), Links(s)))
    ensures Coherent(AllNodes(es), AllNodes(es) + EnvNodes(s))
  {
    hide Nodes, EnvNodes, Written, Names, Bind, Links;
    BindAllAt(AllNames(es), Links(s));
    forall i | 0 <= i < |es|
      ensures Nodes(es[i]) <= AllNodes(es) && Coherent(Nodes(es[i]), AllNodes(es) + EnvNodes(s))
    {
      assert Resolved(es[i], s);
      assert Nodes(es[i]) <= AllNodes(es);
      Widen(Nodes(es[i]), Nodes(es[i]) + EnvNodes(s), AllNodes(es) + EnvNodes(s));
    }
  }

  lemma {:induction false} DynsResolvedBy(dyn: seq<DynAttr<VarNode, WithNode>>, s: NodeEnv)
    requires forall i | 0 <= i < |dyn| :: DynResolved(dyn[i], s)
    ensures DynsWritten(dyn, BindDyn(DynsNames(dyn), Links(s)))
    ensures Coherent(DynsNodes(dyn), DynsNodes(dyn) + EnvNodes(s))
  {
    hide DynNodes, EnvNodes, DynWritten, DynNames, BindDynAttr, Links;
    BindDynAt(DynsNames(dyn), Links(s));
    forall i | 0 <= i < |dyn|
      ensures DynNodes(dyn[i]) <= DynsNodes(dyn) && Coherent(DynNodes(dyn[i]), DynsNodes(dyn) + EnvNodes(s))
    {
      assert DynResolved(dyn[i], s);
      assert DynNodes(dyn[i]) <= DynsNodes(dyn);
      Widen(DynNodes(dyn[i]), DynNodes(dyn[i]) + EnvNodes(s), DynsNodes(dyn) + EnvNodes(s));
    }
  }

  lemma {:induction false} DefsResolvedBy(defs: seq<Binding<VarNode, WithNode>>, inner: NodeEnv, outer: NodeEnv)
    requires forall i | 0 <= i < |defs| :: BindingResolved(defs[i], inner, outer)
    ensures DefsWritten(defs, BindDefs(DefsNames(defs), Links(inner), Links(outer)))
    ensures Coherent(DefsNodes(defs), DefsNodes(defs) + EnvNodes(inner) + EnvNodes(outer))
  {
    hide BindingNodes, EnvNodes, BindingWritten, BindingNames, BindBinding, Links;
    BindDefsAt(DefsNames(defs), Links(inner), Links(outer));
    var all := DefsNodes(defs) + EnvNodes(inner) + EnvNodes(outer);
    forall i | 0 <= i < |defs|
      ensures BindingNodes(defs[i]) <= DefsNodes(defs) && Coherent(BindingNodes(defs[i]), all)
    {
      assert BindingResolved(defs[i], inner, outer);
      assert BindingNodes(defs[i]) <= DefsNodes(defs);
      Widen(BindingNodes(defs[i]), BindingNodes(defs[i]) + EnvNodes(inner) + EnvNodes(outer), all);
    }
  }

  lemma {:induction false} SetResolvedBy(attrs: AttrSet<VarNode, WithNode>, inner: NodeEnv, outer: NodeEnv)
    requires forall i | 0 <= i < |attrs.defs| :: BindingResolved(attrs.defs[i], inner, outer)
    requires forall i | 0 <= i < |attrs.froms| :: Resolved(attrs.froms[i], inner)
    requires forall i | 0 <= i < |attrs.dyn| :: DynResolved(attrs.dyn[i], inner)
    ensures SetResolved(attrs, inner, outer)
  {
    hide BindingResolved, Resolved, DynResolved, DefsWritten, AllWritten, DynsWritten, DefsNodes, AllNodes, DynsNodes;
    hide EnvNodes, Links;
    DefsResolvedBy(attrs.defs, inner, outer);
    AllResolvedBy(attrs.froms, inner);
    DynsResolvedBy(attrs.dyn, inner);
    var all := SetNodes(attrs) + EnvNodes(inner) + EnvNodes(outer);
    Widen(DefsNodes(attrs.defs), DefsNodes(attrs.defs) + EnvNodes(inner) + EnvNodes(outer), all);
    Widen(AllNodes(attrs.froms), AllNodes(attrs.froms) + EnvNodes(inner), all);
    Widen(DynsNodes(attrs.dyn), DynsNodes(attrs.dyn) + EnvNodes(inner), all);
  }

  lemma {:induction false} PathResolvedBy(path: seq<AttrName<VarNode, WithNode>>, s: NodeEnv)
    requires forall i | 0 <= i < |path| :: NameResolved(path[i], s)
    ensures PathWritten(path, BindPath(PathNames(path), Links(s)))
    ensures Coherent(PathNodes(path), PathNodes(path) + EnvNodes(s))
  {
    hide NameNodes, EnvNodes, NameWritten, NameNames, BindName, Links;
    BindPathAt(PathNames(path), Links(s));
    forall i | 0 <= i < |path|
      ensures NameNodes(path[i]) <= PathNodes(path) && Coherent(NameNodes(path[i]), PathNodes(path) + EnvNodes(s))
    {
      assert NameResolved(path[i], s);
      assert NameNodes(path[i]) <= PathNodes(path);
      Widen(NameNodes(path[i]), NameNodes(path[i]) + EnvNodes(s), PathNodes(path) + EnvNodes(s));
    }
  }

  lemma {:induction false} FormalsResolvedBy(formals: seq<Formal<VarNode, WithNode>>, s: NodeEnv)
    requires forall i | 0 <= i < |formals| :: FormalResolved(formals[i], s)
    ensures FormalsWritten(formals, BindFormals(FormalsNames(formals), Links(s)))
    ensures Coherent(FormalsNodes(formals), FormalsNodes(formals) + EnvNodes(s))
  {
    hide FormalNodes, EnvNodes, FormalWritten, FormalNames, BindFormal, Links;
    BindFormalsAt(FormalsNames(formals), Links(s));
    forall i | 0 <= i < |formals|
      ensures FormalNodes(formals[i]) <= FormalsNodes(formals)
      ensures Coherent(FormalNodes(formals[i]), FormalsNodes(formals) + EnvNodes(s))
    {
      assert FormalResolved(formals[i], s);
      assert FormalNodes(formals[i]) <= FormalsNodes(formals);
      Widen(FormalNodes(formals[i]), FormalNodes(formals[i]) + EnvNodes(s), FormalsNodes(formals) + EnvNodes(s));
    }
  }

  lemma CoherentUnion(p: set<object>, q: set<object>, all: set<object>)
    requires p <= all && q <= all && Coherent(p, all) && Coherent(q, all)
    ensures Coherent(p + q, all)
  {
  }

  lemma {:induction false} CallClosesIff(e: Tree, s: NodeEnv)
    requires e.Call?
    ensures Closes(e, s) <==> Closes(e.fun, s) && forall i | 0 <= i < |e.args| :: Closes(e.args[i], s)
  {
    var ts, b, w := AllNames(e.args), Bound(s), HasWith(s);
    assert Names(e) == Call(Names(e.fun), ts) && |ts| == |e.args|;
    assert IsClosed(Names(e), b, w) <==>
      IsClosed(Names(e.fun), b, w) && forall i | 0 <= i < |ts| :: IsClosed(ts[i], b, w);
    hide IsClosed;
    forall i | 0 <= i < |ts| ensures IsClosed(ts[i], b, w) <==> Closes(e.args[i], s) {
      assert ts[i] == Names(e.args[i]);
    }
  }

  lemma {:induction false} CallResolvedBy(e: Tree, s: NodeEnv)
    requires e.Call? && Resolved(e.fun, s) && forall i | 0 <= i < |e.args| :: Resolved(e.args[i], s)
    ensures Resolved(e, s)
  {
    hide AllNames, AllWritten, BindAll, Coherent, EnvNodes, Links, AllNodes;
    AllResolvedBy(e.args, s);
    assert Names(e) == Call(Names(e.fun), AllNames(e.args));
    assert Bind(Names(e), Links(s)) == Call(Bind(Names(e.fun), Links(s)), BindAll(AllNames(e.args), Links(s)));
    assert Nodes(e) == Nodes(e.fun) + AllNodes(e.args);
    var all := Nodes(e) + EnvNodes(s);
    Widen(Nodes(e.fun), Nodes(e.fun) + EnvNodes(s), all);
    Widen(AllNodes(e.args), AllNodes(e.args) + EnvNodes(s), all);
    CoherentUnion(Nodes(e.fun), AllNodes(e.args), all);
    assert Coherent(Nodes(e), all);
    assert Written(e, Bind(Names(e), Links(s)));
  }

  lemma {:induction false} SelectClosesIff(e: Tree, s: NodeEnv)
    requires e.Select?
    ensures Closes(e, s) <==>
      && Closes(e.e, s)
      && (e.def.Some? ==> Closes(e.def.value, s))
      && forall i | 0 <= i < |e.path| :: NameCloses(e.path[i], s)
  {
    assert Names(e) == Select(Names(e.e), PathNames(e.path), OptionNames(e.def));
    assert forall i | 0 <= i < |e.path| :: PathNames(e.path)[i] == NameNames(e.path[i]);
    assert e.def.Some? ==> OptionNames(e.def) == Some(Names(e.def.value));
  }

  lemma {:induction false} SelectResolvedBy(e: Tree, s: NodeEnv)
    requires e.Select? && Resolved(e.e, s) && (e.def.Some? ==> Resolved(e.def.value, s))
    requires forall i | 0 <= i < |e.path| :: NameResolved(e.path[i], s)
    ensures Resolved(e, s)
  {
    hide PathNames, PathWritten, BindPath, EnvNodes, Links, PathNodes, NameResolved, Coherent;
    PathResolvedBy(e.path, s);
    var l := Links(s);
    assert Names(e) == Select(Names(e.e), PathNames(e.path), OptionNames(e.def));
    assert Bind(Names(e), l)
        == Select(Bind(Names(e.e), l), BindPath(PathNames(e.path), l), BindOption(OptionNames(e.def), l));
    assert Nodes(e) == Nodes(e.e) + OptionNodes(e.def) + PathNodes(e.path);
    var all := Nodes(e) + EnvNodes(s);
    Widen(Nodes(e.e), Nodes(e.e) + EnvNodes(s), all);
    Widen(PathNodes(e.path), PathNodes(e.path) + EnvNodes(s), all);
    if e.def.Some? {
      assert OptionNames(e.def) == Some(Names(e.def.value));
      assert OptionNodes(e.def) == Nodes(e.def.value);
      Widen(OptionNodes(e.def), Nodes(e.def.value) + EnvNodes(s), all);
      CoherentUnion(Nodes(e.e), OptionNodes(e.def), all);
      CoherentUnion(Nodes(e.e) + OptionNodes(e.def), PathNodes(e.path), all);
    } else {
      CoherentUnion(Nodes(e.e), PathNodes(e.path), all);
      assert Nodes(e.e) + PathNodes(e.path) == Nodes(e);
    }
    assert Coherent(Nodes(e), all);
    assert OptionWritten(e.def, BindOption(OptionNames(e.def), l));
    assert Written(e, Bind(Names(e), l));
  }

  /** The scope opened by a set of definitions is the one the specification opens. */
  lemma {:induction false} RecScopeLinks(defs: seq<Binding<VarNode, WithNode>>, s: NodeEnv)
    ensures Links(RecScope(defs, s)) == RecScope(DefsNames(defs), Links(s))
    ensures EnvNodes(RecScope(defs, s)) == EnvNodes(s) && (HasWith(RecScope(defs, s)) <==> HasWith(s))
  {
    DefVarsAt(defs, 0);
    DefVarsAt(DefsNames(defs), 0);
    forall i | 0 <= i < |defs| ensures DefsNames(defs)[i].name == defs[i].name {
      assert DefsNames(defs)[i] == BindingNames(defs[i]);
    }
    assert DefVars(DefsNames(defs), 0) == DefVars(defs, 0);
  }

  lemma {:induction false} LamScopeLinks(params: Params<VarNode, WithNode>, s: NodeEnv)
    ensures Links(LamScope(params, s)) == LamScope(ParamsNames(params), Links(s))
    ensures EnvNodes(LamScope(params, s)) == EnvNodes(s) && (HasWith(LamScope(params, s)) <==> HasWith(s))
  {
    var formals, k := params.Formals(), if params.Arg().Some? then 1 else 0;
    if params.Pattern? {
      FormalVarsAt(formals, k);
      FormalVarsAt(FormalsNames(formals), k);
      forall i | 0 <= i < |formals| ensures FormalsNames(formals)[i].name == formals[i].name {
        assert FormalsNames(formals)[i] == FormalNames(formals[i]);
      }
      assert FormalVars(FormalsNames(formals), k) == FormalVars(formals, k);
      assert ParamsNames(params) == Pattern(params.self, FormalsNames(formals), params.ellipsis);
    }
    assert ParamVars(ParamsNames(params)) == ParamVars(params);
  }

  lemma {:induction false} AttrsClosesIff(e: Tree, s: NodeEnv, inner: NodeEnv)
    requires e.Attrs? && inner == (if e.recursive then RecScope(e.attrs.defs, s) else s)
    requires Bound(inner) == if e.recursive then Bound(s) + DefSymbols(DefsNames(e.attrs.defs)) else Bound(s)
    ensures Closes(e, s) <==> SetCloses(e.attrs, inner, s)
  {
    hide SetClosed, SetNames;
    RecScopeLinks(e.attrs.defs, s);
    assert Names(e) == Attrs(e.recursive, SetNames(e.attrs));
    assert SetNames(e.attrs).defs == DefsNames(e.attrs.defs) by {
      SetNamesParts(e.attrs);
    }
  }

  lemma {:induction false} SetNamesParts(attrs: AttrSet<VarNode, WithNode>)
    ensures SetNames(attrs) == AttrSet(DefsNames(attrs.defs), AllNames(attrs.froms), DynsNames(attrs.dyn))
  {
  }

  lemma {:induction false} AttrsResolvedBy(e: Tree, s: NodeEnv, inner: NodeEnv)
    requires e.Attrs? && inner == (if e.recursive then RecScope(e.attrs.defs, s) else s)
    requires SetResolved(e.attrs, inner, s)
    ensures Resolved(e, s)
  {
    hide SetWritten, SetNames, BindSet, SetNodes, Coherent;
    RecScopeLinks(e.attrs.defs, s);
    SetNamesParts(e.attrs);
    assert Names(e) == Attrs(e.recursive, SetNames(e.attrs));
    assert Bind(Names(e), Links(s)) == Attrs(e.recursive, BindSet(SetNames(e.attrs), Links(inner), Links(s)));
    assert SetNodes(e.attrs) + EnvNodes(inner) + EnvNodes(s) == Nodes(e) + EnvNodes(s);
  }

  lemma {:induction false} LetClosesIff(e: Tree, s: NodeEnv, inner: NodeEnv)
    requires e.Let? && inner == RecScope(e.attrs.defs, s)
    requires Bound(inner) == Bound(s) + DefSymbols(DefsNames(e.attrs.defs))
    ensures Closes(e, s) <==> SetCloses(e.attrs, inner, s) && Closes(e.body, inner)
  {
    hide SetClosed, SetNames;
    RecScopeLinks(e.attrs.defs, s);
    SetNamesParts(e.attrs);
    assert Names(e) == Let(SetNames(e.attrs), Names(e.body));
  }

  lemma {:induction false} LetResolvedBy(e: Tree, s: NodeEnv, inner: NodeEnv)
    requires e.Let? && inner == RecScope(e.attrs.defs, s)
    requires SetResolved(e.attrs, inner, s) && Resolved(e.body, inner)
    ensures Resolved(e, s)
  {
    hide SetWritten, SetNames, BindSet, SetNodes, Coherent;
    RecScopeLinks(e.attrs.defs, s);
    SetNamesParts(e.attrs);
    var ts := BindSet(SetNames(e.attrs), Links(inner), Links(s));
    assert Names(e) == Let(SetNames(e.attrs), Names(e.body));
    assert Bind(Names(e), Links(s)) == Let(ts, Bind(Names(e.body), Links(inner)));
    assert Nodes(e) == SetNodes(e.attrs) + Nodes(e.body);
    var all := Nodes(e) + EnvNodes(s);
    Widen(SetNodes(e.attrs), SetNodes(e.attrs) + EnvNodes(inner) + EnvNodes(s), all);
    Widen(Nodes(e.body), Nodes(e.body) + EnvNodes(inner), all);
    CoherentUnion(SetNodes(e.attrs), Nodes(e.body), all);
  }

  lemma {:induction false} LambdaClosesIff(e: Tree, s: NodeEnv, inner: NodeEnv)
    requires e.Lambda? && inner == LamScope(e.lam.params, s)
    requires Bound(inner) == Bound(s) + ParamSymbols(ParamsNames(e.lam.params))
    ensures Closes(e, s) <==>
      && (e.lam.params.Pattern? ==>
            forall i | 0 <= i < |e.lam.params.formals| :: FormalCloses(e.lam.params.formals[i], inner))
      && Closes(e.lam.body, inner)
  {
    hide FormalClosed;
    LamScopeLinks(e.lam.params, s);
    var p, t := e.lam.params, LamNames(e.lam);
    assert Names(e) == Lambda(t);
    assert t.params == ParamsNames(p) && t.body == Names(e.lam.body);
    assert IsClosed(Names(e), Bound(s), HasWith(s)) <==> LamClosed(t, Bound(inner), HasWith(inner));
    if p.Pattern? {
      assert t.params == Pattern(p.self, FormalsNames(p.formals), p.ellipsis);
      var ts := FormalsNames(p.formals);
      assert |ts| == |p.formals|;
      assert ParamsClosed(t.params, Bound(inner), HasWith(inner)) <==>
        forall i | 0 <= i < |ts| :: FormalClosed(ts[i], Bound(inner), HasWith(inner));
      forall i | 0 <= i < |ts|
        ensures FormalClosed(ts[i], Bound(inner), HasWith(inner)) <==> FormalCloses(p.formals[i], inner)
      {
        assert ts[i] == FormalNames(p.formals[i]);
      }
    } else {
      assert t.params == Single(p.arg);
      assert ParamsClosed(t.params, Bound(inner), HasWith(inner));
    }
  }

  lemma {:induction false} LambdaResolvedBy(e: Tree, s: NodeEnv, inner: NodeEnv)
    requires e.Lambda? && inner == LamScope(e.lam.params, s)
    requires e.lam.params.Pattern? ==>
      forall i | 0 <= i < |e.lam.params.formals| :: FormalResolved(e.lam.params.formals[i], inner)
    requires Resolved(e.lam.body, inner)
    ensures Resolved(e, s)
  {
    hide FormalsNames, FormalsWritten, BindFormals, FormalsNodes, FormalResolved, Coherent;
    LamScopeLinks(e.lam.params, s);
    var p, l := e.lam.params, Links(inner);
    assert Names(e) == Lambda(LamNames(e.lam));
    assert LamNames(e.lam) == Lam(ParamsNames(p), Names(e.lam.body));
    assert BindLam(LamNames(e.lam), Links(s)) == Lam(BindParams(ParamsNames(p), l), Bind(Names(e.lam.body), l));
    assert Bind(Names(e), Links(s)) == Lambda(BindLam(LamNames(e.lam), Links(s)));
    assert Nodes(e) == LamNodes(e.lam) == ParamsNodes(p) + Nodes(e.lam.body);
    var all := Nodes(e) + EnvNodes(s);
    Widen(Nodes(e.lam.body), Nodes(e.lam.body) + EnvNodes(inner), all);
    if p.Pattern? {
      FormalsResolvedBy(p.formals, inner);
      assert ParamsNames(p) == Pattern(p.self, FormalsNames(p.formals), p.ellipsis);
      assert ParamsNodes(p) == FormalsNodes(p.formals);
      assert ParamsWritten(p, BindParams(ParamsNames(p), l));
      Widen(FormalsNodes(p.formals), FormalsNodes(p.formals) + EnvNodes(inner), all);
      CoherentUnion(ParamsNodes(p), Nodes(e.lam.body), all);
    } else {
      assert ParamsNodes(p) == {};
      assert ParamsNames(p) == Single(p.arg);
      assert ParamsWritten(p, BindParams(ParamsNames(p), l));
      assert Nodes(e) == Nodes(e.lam.body);
    }
    assert LamWritten(e.lam, BindLam(LamNames(e.lam), Links(s)));
    assert Coherent(Nodes(e), all);
    assert Written(e, Bind(Names(e), Links(s)));
  }

  lemma {:induction false} WithClosesIff(e: Tree, s: NodeEnv, inner: NodeEnv)
    requires e.With? && inner == Scope(Some(e.w), [], s)
    ensures Closes(e, s) <==> Closes(e.scope, s) && Closes(e.body, inner)
  {
    assert Names(e) == With((), Names(e.scope), Names(e.body));
    assert Bound(inner) == Bound(s) && HasWith(inner);
  }

  lemma {:induction false} WithResolvedBy(e: Tree, s: NodeEnv, inner: NodeEnv)
    requires e.With? && inner == Scope(Some(e.w), [], s)
    requires e.w.link == LinkTo(Links(s)) && Coherent({e.w}, {e.w} + EnvNodes(s))
    requires Resolved(e.scope, s) && Resolved(e.body, inner)
    ensures Resolved(e, s)
  {
    hide Coherent, LinkTo;
    assert Names(e) == With((), Names(e.scope), Names(e.body));
    assert Links(inner) == Scope(Some(LinkTo(Links(s))), [], Links(s));
    assert Bind(Names(e), Links(s)) == With((), Bind(Names(e.scope), Links(s)), Bind(Names(e.body), Links(inner)));
    assert Nodes(e) == {e.w} + Nodes(e.scope) + Nodes(e.body);
    var all := Nodes(e) + EnvNodes(s);
    Widen({e.w}, {e.w} + EnvNodes(s), all);
    Widen(Nodes(e.scope), Nodes(e.scope) + EnvNodes(s), all);
    Widen(Nodes(e.body), Nodes(e.body) + EnvNodes(inner), all);
    CoherentUnion({e.w}, Nodes(e.scope), all);
    CoherentUnion({e.w} + Nodes(e.scope), Nodes(e.body), all);
    assert Written(e, Bind(Names(e), Links(s)));
  }
}
