/** Variable resolution as it is done: one traversal that writes into the tree's nodes. */
module Binder {
  import opened Optional
  import opened NixSyntax
  import opened BindSpec
  import opened Closed
  import opened BinderTree
  import opened BinderScope
  import opened BinderParts

  lemma AllTreesAt(es: seq<Tree>, s: NodeEnv, i: nat)
    requires i < |es| && AllTrees(es) && EnvNodes(s) !! AllNodes(es)
    ensures IsTree(es[i]) && EnvNodes(s) !! Nodes(es[i]) && Nodes(es[i]) <= AllNodes(es)
    ensures forall j | 0 <= j < i :: Nodes(es[j]) !! Nodes(es[i])
  {
    hide IsTree, Nodes, EnvNodes;
  }

  method BindAllVars(es: seq<Tree>, s: NodeEnv) returns (ok: bool)
    requires AllTrees(es) && SortedEnv(s) && EnvNodes(s) !! AllNodes(es)
    modifies AllNodes(es)
    decreases es, 2
    ensures ok == forall i | 0 <= i < |es| :: Closes(es[i], s)
    ensures ok ==> forall i | 0 <= i < |es| :: Resolved(es[i], s)
  {
    hide Resolved, Closes, Nodes, IsTree, EnvNodes, SortedEnv;
    for i := 0 to |es|
      invariant forall j | 0 <= j < i :: Closes(es[j], s) && Resolved(es[j], s)
    {
      AllTreesAt(es, s, i);
      assert allocated(Nodes(es[i])) && allocated(EnvNodes(s));
      assert forall j | 0 <= j < i :: allocated(Nodes(es[j]));
      ok := BindVars(es[i], s);
      if !ok {
        return;
      }
    }
    ok := true;
  }

  lemma PathTreeAt(path: seq<AttrName<VarNode, WithNode>>, s: NodeEnv, i: nat)
    requires i < |path| && PathTree(path) && EnvNodes(s) !! PathNodes(path)
    ensures NameTree(path[i]) && EnvNodes(s) !! NameNodes(path[i]) && NameNodes(path[i]) <= PathNodes(path)
    ensures forall j | 0 <= j < i :: NameNodes(path[j]) !! NameNodes(path[i])
  {
    hide NameTree, NameNodes, EnvNodes;
  }

  method BindPathVars(path: seq<AttrName<VarNode, WithNode>>, s: NodeEnv) returns (ok: bool)
    requires PathTree(path) && SortedEnv(s) && EnvNodes(s) !! PathNodes(path)
    modifies PathNodes(path)
    decreases path, 2
    ensures ok == forall i | 0 <= i < |path| :: NameCloses(path[i], s)
    ensures ok ==> forall i | 0 <= i < |path| :: NameResolved(path[i], s)
  {
    hide NameResolved, NameCloses, NameNodes, NameTree, EnvNodes, SortedEnv;
    for i := 0 to |path|
      invariant forall j | 0 <= j < i :: NameCloses(path[j], s) && NameResolved(path[j], s)
    {
      PathTreeAt(path, s, i);
      assert allocated(NameNodes(path[i])) && allocated(EnvNodes(s));
      assert forall j | 0 <= j < i :: allocated(NameNodes(path[j]));
      ok := BindNameVars(path[i], s);
      if !ok {
        return;
      }
    }
    ok := true;
  }

  lemma FormalsTreeAt(formals: seq<Formal<VarNode, WithNode>>, s: NodeEnv, i: nat)
    requires i < |formals| && FormalsTree(formals) && EnvNodes(s) !! FormalsNodes(formals)
    ensures FormalTree(formals[i]) && EnvNodes(s) !! FormalNodes(formals[i])
    ensures FormalNodes(formals[i]) <= FormalsNodes(formals)
    ensures forall j | 0 <= j < i :: FormalNodes(formals[j]) !! FormalNodes(formals[i])
  {
    hide FormalTree, FormalNodes, EnvNodes;
  }

  method BindFormalsVars(formals: seq<Formal<VarNode, WithNode>>, s: NodeEnv) returns (ok: bool)
    requires FormalsTree(formals) && SortedEnv(s) && EnvNodes(s) !! FormalsNodes(formals)
    modifies FormalsNodes(formals)
    decreases formals, 2
    ensures ok == forall i | 0 <= i < |formals| :: FormalCloses(formals[i], s)
    ensures ok ==> forall i | 0 <= i < |formals| :: FormalResolved(formals[i], s)
  {
    hide FormalResolved, FormalCloses, FormalNodes, FormalTree, EnvNodes, SortedEnv;
    for i := 0 to |formals|
      invariant forall j | 0 <= j < i :: FormalCloses(formals[j], s) && FormalResolved(formals[j], s)
    {
      FormalsTreeAt(formals, s, i);
      assert allocated(FormalNodes(formals[i])) && allocated(EnvNodes(s));
      assert forall j | 0 <= j < i :: allocated(FormalNodes(formals[j]));
      ok := BindFormalVars(formals[i], s);
      if !ok {
        return;
      }
    }
    ok := true;
  }

  lemma DefsTreeAt(defs: seq<Binding<VarNode, WithNode>>, inner: NodeEnv, outer: NodeEnv, i: nat)
    requires i < |defs| && DefsTree(defs) && EnvNodes(inner) !! DefsNodes(defs) && EnvNodes(outer) !! DefsNodes(defs)
    ensures BindingTree(defs[i]) && BindingNodes(defs[i]) <= DefsNodes(defs)
    ensures EnvNodes(inner) !! BindingNodes(defs[i]) && EnvNodes(outer) !! BindingNodes(defs[i])
    ensures forall j | 0 <= j < i :: BindingNodes(defs[j]) !! BindingNodes(defs[i])
  {
    hide BindingTree, BindingNodes, EnvNodes;
  }

  method BindDefsVars(defs: seq<Binding<VarNode, WithNode>>, inner: NodeEnv, outer: NodeEnv) returns (ok: bool)
    requires DefsTree(defs) && SortedEnv(inner) && SortedEnv(outer) && HasWith(inner) == HasWith(outer)
    requires EnvNodes(inner) !! DefsNodes(defs) && EnvNodes(outer) !! DefsNodes(defs)
    modifies DefsNodes(defs)
    decreases defs, 2
    ensures ok == forall i | 0 <= i < |defs| :: BindingCloses(defs[i], inner, outer)
    ensures ok ==> forall i | 0 <= i < |defs| :: BindingResolved(defs[i], inner, outer)
  {
    hide BindingResolved, BindingCloses, BindingNodes, BindingTree, EnvNodes, SortedEnv;
    for i := 0 to |defs|
      invariant forall j | 0 <= j < i :: BindingCloses(defs[j], inner, outer) && BindingResolved(defs[j], inner, outer)
    {
      DefsTreeAt(defs, inner, outer, i);
      assert allocated(BindingNodes(defs[i])) && allocated(EnvNodes(inner)) && allocated(EnvNodes(outer));
      assert forall j | 0 <= j < i :: allocated(BindingNodes(defs[j]));
      ok := BindDefVars(defs[i], inner, outer);
      if !ok {
        return;
      }
    }
    ok := true;
  }

  lemma DynsTreeAt(dyn: seq<DynAttr<VarNode, WithNode>>, s: NodeEnv, i: nat)
    requires i < |dyn| && DynsTree(dyn) && EnvNodes(s) !! DynsNodes(dyn)
    ensures DynTree(dyn[i]) && EnvNodes(s) !! DynNodes(dyn[i]) && DynNodes(dyn[i]) <= DynsNodes(dyn)
    ensures forall j | 0 <= j < i :: DynNodes(dyn[j]) !! DynNodes(dyn[i])
  {
    hide DynTree, DynNodes, EnvNodes;
  }

  method BindDynsVars(dyn: seq<DynAttr<VarNode, WithNode>>, s: NodeEnv) returns (ok: bool)
    requires DynsTree(dyn) && SortedEnv(s) && EnvNodes(s) !! DynsNodes(dyn)
    modifies DynsNodes(dyn)
    decreases dyn, 2
    ensures ok == forall i | 0 <= i < |dyn| :: DynCloses(dyn[i], s)
    ensures ok ==> forall i | 0 <= i < |dyn| :: DynResolved(dyn[i], s)
  {
    hide DynResolved, DynCloses, DynNodes, DynTree, EnvNodes, SortedEnv;
    for i := 0 to |dyn|
      invariant forall j | 0 <= j < i :: DynCloses(dyn[j], s) && DynResolved(dyn[j], s)
    {
      DynsTreeAt(dyn, s, i);
      assert allocated(DynNodes(dyn[i])) && allocated(EnvNodes(s));
      assert forall j | 0 <= j < i :: allocated(DynNodes(dyn[j]));
      ok := BindDynVars(dyn[i], s);
      if !ok {
        return;
      }
    }
    ok := true;
  }

  method BindNameVars(a: AttrName<VarNode, WithNode>, s: NodeEnv) returns (ok: bool)
    requires NameTree(a) && SortedEnv(s) && EnvNodes(s) !! NameNodes(a)
    modifies NameNodes(a)
    decreases a, 1
    ensures ok == NameCloses(a, s)
    ensures ok ==> NameResolved(a, s)
  {
    hide Closes, Resolved, NameCloses, NameResolved;
    ok := true;
    if a.Dynamic? {
      ok := BindVars(a.e, s);
    }
    NameCases(a, s);
  }

  method BindFormalVars(f: Formal<VarNode, WithNode>, s: NodeEnv) returns (ok: bool)
    requires FormalTree(f) && SortedEnv(s) && EnvNodes(s) !! FormalNodes(f)
    modifies FormalNodes(f)
    decreases f, 1
    ensures ok == FormalCloses(f, s)
    ensures ok ==> FormalResolved(f, s)
  {
    hide Closes, Resolved, FormalCloses, FormalResolved;
    ok := true;
    if f.def.Some? {
      ok := BindVars(f.def.value, s);
    }
    FormalCases(f, s);
  }

  /** `attr = e;` is bound in the set's own scope, `inherit attr;` in the surrounding one. */
  method BindDefVars(b: Binding<VarNode, WithNode>, inner: NodeEnv, outer: NodeEnv) returns (ok: bool)
    requires BindingTree(b) && SortedEnv(inner) && SortedEnv(outer) && HasWith(inner) == HasWith(outer)
    requires EnvNodes(inner) !! BindingNodes(b) && EnvNodes(outer) !! BindingNodes(b)
    modifies BindingNodes(b)
    decreases b, 1
    ensures ok == BindingCloses(b, inner, outer)
    ensures ok ==> BindingResolved(b, inner, outer)
  {
    hide Closes, Resolved, BindingCloses, BindingResolved;
    ok := true;
    match b.def {
      case Plain(e) => ok := BindVars(e, inner);
      case Inherited(e) => ok := BindVars(e, outer);
      case InheritedFrom(_, _) =>
    }
    BindingCases(b, inner, outer);
  }

  method BindDynVars(d: DynAttr<VarNode, WithNode>, s: NodeEnv) returns (ok: bool)
    requires DynTree(d) && SortedEnv(s) && EnvNodes(s) !! DynNodes(d)
    modifies DynNodes(d)
    decreases d, 1
    ensures ok == DynCloses(d, s)
    ensures ok ==> DynResolved(d, s)
  {
    hide Closes, Resolved, DynCloses, DynResolved, Nodes, IsTree, EnvNodes;
    ok := BindVars(d.nameExpr, s);
    if ok {
      assert allocated(Nodes(d.nameExpr)) && allocated(EnvNodes(s));
      ok := BindVars(d.valueExpr, s);
    }
    DynCases(d, s);
  }

  /** The source expressions and plain definitions see the set's own scope. */
  method BindSetVars(attrs: AttrSet<VarNode, WithNode>, inner: NodeEnv, outer: NodeEnv) returns (ok: bool)
    requires SetTree(attrs) && SortedEnv(inner) && SortedEnv(outer) && HasWith(inner) == HasWith(outer)
    requires EnvNodes(inner) !! SetNodes(attrs) && EnvNodes(outer) !! SetNodes(attrs)
    modifies SetNodes(attrs)
    decreases attrs, 3
    ensures ok == SetCloses(attrs, inner, outer)
    ensures ok ==> SetResolved(attrs, inner, outer)
  {
    hide Closes, Resolved, BindingCloses, BindingResolved, DynCloses, DynResolved, SetCloses, SetResolved;
    hide Nodes, BindingNodes, DynNodes, EnvNodes, IsTree, BindingTree, DynTree, SortedEnv;
    SetClosesIff(attrs, inner, outer);
    ok := BindAllVars(attrs.froms, inner);
    if ok {
      assert forall j | 0 <= j < |attrs.froms| ::
          allocated(Nodes(attrs.froms[j])) && Nodes(attrs.froms[j]) <= AllNodes(attrs.froms);
      assert allocated(EnvNodes(inner)) && allocated(EnvNodes(outer));
      ok := BindDefsVars(attrs.defs, inner, outer);
    }
    if ok {
      assert forall j | 0 <= j < |attrs.froms| :: allocated(Nodes(attrs.froms[j]));
      assert forall j | 0 <= j < |attrs.defs| ::
          allocated(BindingNodes(attrs.defs[j])) && BindingNodes(attrs.defs[j]) <= DefsNodes(attrs.defs);
      assert allocated(EnvNodes(inner)) && allocated(EnvNodes(outer));
      ok := BindDynsVars(attrs.dyn, inner);
    }
    if ok {
      SetResolvedBy(attrs, inner, outer);
    }
  }

  method BindCall(e: Tree, s: NodeEnv) returns (ok: bool)
    requires e.Call? && IsTree(e) && SortedEnv(s) && EnvNodes(s) !! Nodes(e)
    modifies Nodes(e)
    decreases e, 0
    ensures ok == Closes(e, s)
    ensures ok ==> Resolved(e, s)
  {
    CallClosesIff(e, s);
    hide Closes, Resolved, EnvNodes, SortedEnv, AllNodes, AllTrees;
    ok := BindVars(e.fun, s);
    if ok {
      assert allocated(Nodes(e.fun)) && allocated(EnvNodes(s));
      ok := BindAllVars(e.args, s);
    }
    if ok {
      CallResolvedBy(e, s);
    }
  }

  method BindSelect(e: Tree, s: NodeEnv) returns (ok: bool)
    requires e.Select? && IsTree(e) && SortedEnv(s) && EnvNodes(s) !! Nodes(e)
    modifies Nodes(e)
    decreases e, 0
    ensures ok == Closes(e, s)
    ensures ok ==> Resolved(e, s)
  {
    SelectClosesIff(e, s);
    hide Closes, Resolved, NameCloses, NameResolved, EnvNodes, SortedEnv, PathNodes, PathTree;
    assert e.def.Some? ==> OptionNodes(e.def) == Nodes(e.def.value);
    ok := BindVars(e.e, s);
    assert allocated(Nodes(e.e)) && allocated(EnvNodes(s)) && allocated(OptionNodes(e.def));
    if ok && e.def.Some? {
      ok := BindVars(e.def.value, s);
      assert allocated(Nodes(e.e)) && allocated(EnvNodes(s)) && allocated(OptionNodes(e.def));
    }
    if ok {
      ok := BindPathVars(e.path, s);
    }
    if ok {
      SelectResolvedBy(e, s);
    }
  }

  method BindAttrs(e: Tree, s: NodeEnv) returns (ok: bool)
    requires e.Attrs? && IsTree(e) && SortedEnv(s) && EnvNodes(s) !! Nodes(e)
    modifies Nodes(e)
    decreases e, 0
    ensures ok == Closes(e, s)
    ensures ok ==> Resolved(e, s)
  {
    hide Closes, Resolved, SetCloses, SetResolved, EnvNodes, SortedEnv, DefsNodes, AllNodes, DynsNodes;
    var inner := s;
    if e.recursive {
      inner := OpenSet(e.attrs.defs, s);
    }
    RecScopeLinks(e.attrs.defs, s);
    AttrsClosesIff(e, s, inner);
    ok := BindSetVars(e.attrs, inner, s);
    if ok {
      AttrsResolvedBy(e, s, inner);
    }
  }

  method BindLet(e: Tree, s: NodeEnv) returns (ok: bool)
    requires e.Let? && IsTree(e) && SortedEnv(s) && EnvNodes(s) !! Nodes(e)
    modifies Nodes(e)
    decreases e, 0
    ensures ok == Closes(e, s)
    ensures ok ==> Resolved(e, s)
  {
    hide Closes, Resolved, SetCloses, SetResolved, EnvNodes, SortedEnv, SetNodes;
    var inner := OpenSet(e.attrs.defs, s);
    RecScopeLinks(e.attrs.defs, s);
    LetClosesIff(e, s, inner);
    ok := BindSetVars(e.attrs, inner, s);
    if ok {
      assert allocated(SetNodes(e.attrs)) && allocated(EnvNodes(s)) && allocated(EnvNodes(inner));
      ok := BindVars(e.body, inner);
    }
    if ok {
      LetResolvedBy(e, s, inner);
    }
  }

  /** Defaults and body see the parameters; nothing else changes. */
  method BindLambda(e: Tree, s: NodeEnv) returns (ok: bool)
    requires e.Lambda? && IsTree(e) && SortedEnv(s) && EnvNodes(s) !! Nodes(e)
    modifies Nodes(e)
    decreases e, 0
    ensures ok == Closes(e, s)
    ensures ok ==> Resolved(e, s)
  {
    hide Closes, Resolved, FormalCloses, FormalResolved, EnvNodes, SortedEnv, FormalsTree;
    var p := e.lam.params;
    var inner := OpenLambda(p, s);
    LamScopeLinks(p, s);
    LambdaClosesIff(e, s, inner);
    assert Nodes(e) == LamNodes(e.lam) == ParamsNodes(p) + Nodes(e.lam.body);
    assert p.Pattern? ==> ParamsNodes(p) == FormalsNodes(p.formals);
    assert LamTree(e.lam) && ParamsTree(p);
    ok := true;
    if p.Pattern? {
      ok := BindFormalsVars(p.formals, inner);
      forall i | 0 <= i < |p.formals|
        ensures allocated(FormalNodes(p.formals[i])) && FormalNodes(p.formals[i]) !! Nodes(e.lam.body)
      {
        assert FormalNodes(p.formals[i]) <= FormalsNodes(p.formals);
      }
    }
    if ok {
      assert allocated(EnvNodes(inner));
      ok := BindVars(e.lam.body, inner);
    }
    if ok {
      LambdaResolvedBy(e, s, inner);
    }
  }

  /** A `with` node: its scope expression outside, its body inside a new scope that names it,
      and a link to the `with` around it. */
  method BindWith(e: Tree, s: NodeEnv) returns (ok: bool)
    requires e.With? && IsTree(e) && SortedEnv(s) && EnvNodes(s) !! Nodes(e)
    modifies Nodes(e)
    decreases e, 0
    ensures ok == Closes(e, s)
    ensures ok ==> Resolved(e, s)
  {
    var w := e.w;
    var inner := Scope(Some(w), [], s);
    WithClosesIff(e, s, inner);
    assert EnvNodes(inner) == {w} + EnvNodes(s);
    assert SortedEnv(inner);
    hide Closes, Resolved, EnvNodes, SortedEnv, LinkTo, Coherent, Links;
    LinkWith(w, s);
    assert allocated(EnvNodes(s)) && allocated(EnvNodes(inner)) && allocated(Nodes(e.scope));
    ok := BindVars(e.scope, s);
    if ok {
      ok := BindVars(e.body, inner);
    }
    if ok {
      WithResolvedBy(e, s, inner);
    }
  }

  method LinkWith(w: WithNode, s: NodeEnv)
    requires w !in EnvNodes(s)
    modifies w
    ensures w.link == LinkTo(Links(s))
    ensures Coherent({w}, {w} + EnvNodes(s))
  {
    w.parentWith := null;
    var e := s;
    while e.Scope? && w.parentWith == null
      invariant w.parentWith == null ==> NearestWith(e) == NearestWith(s)
      invariant w.parentWith != null ==> NearestWith(s) == Some(w.parentWith)
      decreases e
    {
      w.parentWith := if e.isWith.Some? then e.isWith.value else null;
      e := e.up;
    }
    w.prevWith := 0;
    var cur, level := s, 1;
    while cur.Scope?
      invariant w.prevWith == 0
      invariant w.parentWith == null <==> NearestWith(s).None?
      invariant w.parentWith != null ==> NearestWith(s) == Some(w.parentWith)
      invariant HasWith(s) == HasWith(cur) && (HasWith(s) ==> 1 + WithLevel(s) == level + WithLevel(cur))
      decreases cur
    {
      if cur.isWith.Some? {
        w.prevWith := level;
        break;
      }
      cur, level := cur.up, level + 1;
    }
    w.link := WithLink(w.prevWith, if w.parentWith == null then None else Some(w.parentWith.link));
    LinksAgree(s, 0, 0);
  }

  /** Main result: the traversal succeeds exactly on closed trees, and then the fields it has
      written spell out the resolved expression. */
  method BindVars(e: Tree, s: NodeEnv) returns (ok: bool)
    requires IsTree(e) && SortedEnv(s) && EnvNodes(s) !! Nodes(e)
    modifies Nodes(e)
    decreases e, 1
    ensures ok == Closes(e, s)
    ensures ok ==> Resolved(e, s)
  {
    match e
    case Lit(_) => ok := true;
    case Var(v) => ok := BindVar(v, s);
    case Select(_, _, _) => ok := BindSelect(e, s);
    case Attrs(_, _) => ok := BindAttrs(e, s);
    case Lambda(_) => ok := BindLambda(e, s);
    case Call(_, _) => ok := BindCall(e, s);
    case Let(_, _) => ok := BindLet(e, s);
    case With(_, _, _) => ok := BindWith(e, s);
  }
}
