/** Resolution preserves meaning: a commuting square between evaluation and binding. */
module BindCorrect {
  import opened Optional
  import opened NixSyntax
  import opened NixEval
  import opened BindSpec
  import opened BindRuntime

  /* ---- tables ---- */

  lemma {:induction false} DefVarsFind(defs: seq<Binding<VarRef, ()>>, x: Symbol, k: nat)
    ensures var r := FindVar(DefVars(defs, k), x);
            && (r.Some? <==> FindDef(defs, x).Some?)
            && (r.Some? ==> k <= r.value < k + |defs| && FindDef(defs, x) == Some(defs[r.value - k].def))
  {
    if defs == [] {
    } else {
      assert DefVars(defs, k)[1..] == DefVars(defs[1..], k + 1);
      if defs[0].name != x {
        DefVarsFind(defs[1..], x, k + 1);
        assert FindVar(DefVars(defs, k), x) == FindVar(DefVars(defs[1..], k + 1), x);
      }
    }
  }

  lemma {:induction false} FormalVarsFind(formals: seq<Formal<VarRef, ()>>, x: Symbol, k: nat)
    ensures var r := FindVar(FormalVars(formals, k), x);
            && (r.Some? <==> FindFormal(formals, x).Some?)
            && (r.Some? ==> k <= r.value < k + |formals| && FindFormal(formals, x) == Some(formals[r.value - k]))
  {
    if formals == [] {
    } else {
      assert FormalVars(formals, k)[1..] == FormalVars(formals[1..], k + 1);
      if formals[0].name != x {
        FormalVarsFind(formals[1..], x, k + 1);
        assert FindVar(FormalVars(formals, k), x) == FindVar(FormalVars(formals[1..], k + 1), x);
      }
    }
  }

  /** A frame's static scope finds exactly the names the frame binds, at their positions. */
  lemma ScopeMatchesFrame(f: Frame, up: Env, x: Symbol)
    requires !f.WithFrame?
    ensures var s := Shape(Env(f, up));
            && s.isWith.None?
            && (FindVar(s.vars, x).Some? <==> FrameBinds(f, x))
            && (FrameBinds(f, x) ==> SlotOf(f, up, FindVar(s.vars, x).value) == FrameByName(f, up, x))
  {
    match f
    case RecFrame(attrs) => DefVarsFind(attrs.defs, x, 0);
    case CallFrame(params, _, _) =>
      var formals := params.Formals();
      SortFinds(ParamVars(params), x);
      if params.Arg().Some? {
        assert ParamVars(params)[1..] == FormalVars(formals, 1);
        FormalVarsFind(formals, x, 1);
      } else {
        FormalVarsFind(formals, x, 0);
      }
    case InheritFrame(_) =>
  }

  lemma {:induction false} LexicalMatches(env: Env, x: Symbol, k: nat)
    ensures LexicalFrame(env, x).Empty? <==> FindScope(Shape(env), x, k).None?
    ensures FindScope(Shape(env), x, k).Some? ==>
      var (level, displ) := FindScope(Shape(env), x, k).value;
      var home := LexicalFrame(env, x);
      level >= k && Up(env, level - k) == home && Slot(home, displ) == FrameByName(home.frame, home.up, x)
  {
    match env
    case Empty =>
    case Env(f, up) =>
      if !f.WithFrame? {
        ScopeMatchesFrame(f, up, x);
      }
      if f.WithFrame? || !FrameBinds(f, x) {
        LexicalMatches(up, x, k + 1);
      }
  }

  /* ---- binding run-time data commutes with reading it ---- */

  function BindFound(t: Option<Thunk>): Option<Thunk> {
    if t.Some? then Some(BindThunk(t.value)) else None
  }

  lemma {:induction false} UpCommutes(env: Env, level: nat)
    ensures Up(BindEnv(env), level) == BindEnv(Up(env, level))
  {
    if level != 0 && env.Env? {
      UpCommutes(env.up, level - 1);
    }
  }

  lemma {:induction false} FindAttrCommutes(attrs: seq<Named>, x: Symbol)
    ensures FindAttr(BindNamed(attrs), x) == BindFound(FindAttr(attrs, x))
  {
    if attrs == [] {
    } else {
      assert BindNamed(attrs)[1..] == BindNamed(attrs[1..]);
      FindAttrCommutes(attrs[1..], x);
    }
  }

  lemma DefThunkCommutes(def: AttrDef<VarRef, ()>, froms: seq<Term>, inner: Env, outer: Env)
    ensures BindThunk(DefThunk(def, froms, inner, outer))
         == DefThunk(BindDef(def, Shape(inner), Shape(outer)), BindAll(froms, Shape(inner)),
                     BindEnv(inner), BindEnv(outer))
  {
    if def.InheritedFrom? {
      var s := Shape(Env(InheritFrame(froms), inner));
      var path: seq<AttrName<VarRef, ()>> := [Static(def.attr)];
      assert BindPath(path, s) == [BindName(path[0], s)] + BindPath(path[1..], s);
      assert BindPath(path, s) == path;
      var e: Term := Var(Lexical(0, def.displ));
      assert Bind(e, s) == e;
      var sel := Select(e, path, None);
      assert Bind(sel, s) == sel;
    }
  }

  lemma {:induction false} DefThunksCommute(defs: seq<Binding<VarRef, ()>>, froms: seq<Term>, inner: Env, outer: Env)
    ensures BindNamed(DefThunks(defs, froms, inner, outer))
         == DefThunks(BindDefs(defs, Shape(inner), Shape(outer)), BindAll(froms, Shape(inner)),
                      BindEnv(inner), BindEnv(outer))
  {
    if defs == [] {
    } else {
      DefThunkCommutes(defs[0].def, froms, inner, outer);
      DefThunksCommute(defs[1..], froms, inner, outer);
      var t := DefThunks(defs, froms, inner, outer);
      assert t[1..] == DefThunks(defs[1..], froms, inner, outer);
      assert BindDefs(defs, Shape(inner), Shape(outer))[1..] == BindDefs(defs[1..], Shape(inner), Shape(outer));
    }
  }

  lemma FormalThunkCommutes(f: Formal<VarRef, ()>, actuals: seq<Named>, env: Env)
    ensures FormalThunk(BindFormal(f, Shape(env)), BindNamed(actuals), BindEnv(env))
         == BindFound(FormalThunk(f, actuals, env))
  {
    FindAttrCommutes(actuals, f.name);
  }

  lemma RecSlotCommutes(env: Env, displ: nat)
    requires env.Env? && env.frame.RecFrame? && displ < |env.frame.attrs.defs|
    ensures Slot(BindEnv(env), displ) == BindFound(Slot(env, displ))
  {
    var attrs, s := env.frame.attrs, Shape(env);
    BindDefsAt(attrs.defs, s, Shape(env.up));
    DefThunkCommutes(attrs.defs[displ].def, attrs.froms, env, env.up);
    assert BindEnv(env).frame == RecFrame(BindSet(attrs, s, Shape(env.up)));
    assert BindSet(attrs, s, Shape(env.up)).defs[displ].def == BindDef(attrs.defs[displ].def, s, Shape(env.up));
  }

  lemma CallEnvBound(env: Env)
    requires env.Env? && env.frame.CallFrame?
    ensures var CallFrame(params, actual, actuals) := env.frame;
      && BindEnv(env) ==
           Env(CallFrame(BindParams(params, Shape(env)), BindThunk(actual), BindNamed(actuals)), BindEnv(env.up))
      && BindParams(params, Shape(env)).Formals() == BindFormals(params.Formals(), Shape(env))
      && BindParams(params, Shape(env)).Arg() == params.Arg()
  {
    hide Bind, BindFormals;
  }

  lemma CallSlotCommutes(env: Env, displ: nat)
    requires env.Env? && env.frame.CallFrame?
    ensures Slot(BindEnv(env), displ) == BindFound(Slot(env, displ))
  {
    hide Bind, BindFormals, BindFormal, BindNamed, BindThunk, Shape, FormalThunk, BindEnv, BindParams;
    var CallFrame(params, actual, actuals) := env.frame;
    var formals, s := params.Formals(), Shape(env);
    var shift := if params.Arg().Some? then 1 else 0;
    CallEnvBound(env);
    BindFormalsAt(formals, s);
    if shift <= displ < shift + |formals| {
      FormalThunkCommutes(formals[displ - shift], actuals, env);
    }
  }

  lemma SlotCommutes(env: Env, displ: nat)
    ensures Slot(BindEnv(env), displ) == BindFound(Slot(env, displ))
  {
    if env.Env? {
      match env.frame
      case RecFrame(attrs) =>
        if displ < |attrs.defs| {
          RecSlotCommutes(env, displ);
        }
      case CallFrame(_, _, _) => CallSlotCommutes(env, displ);
      case WithFrame(_) =>
      case InheritFrame(froms) =>
        if displ < |froms| {
          BindAllAt(froms, Shape(env.up));
        }
    }
  }

  /* ---- `with` chains ---- */

  /** Searching by name from any scope reaches the nearest `with` frame, and from there the
      links recorded by resolution lead through the same frames in the same order. */
  ghost predicate WithsAgree(env: Env, x: Symbol, n: nat) {
    match NearestWith(Shape(env))
    case None => SearchWiths(env, x, n) == Err(UndefinedVariable(x))
    case Some(link) =>
      FollowWiths(Up(BindEnv(env), WithLevel(Shape(env))), x, link, n) == BindResult(SearchWiths(env, x, n))
  }

  lemma {:induction false} WithsCommute(env: Env, x: Symbol, n: nat)
    requires Squares(n)
    ensures WithsAgree(env, x, n)
  {
    hide Bind, Eval, ForceAttrs, Squares;
    match env
    case Empty =>
    case Env(f, up) =>
      WithsCommute(up, x, n);
      if f.WithFrame? {
        NextWithCommutes(f.scope, up, x, n);
      }
  }

  /** What is searched after the innermost `with`. */
  lemma NextWithCommutes(scope: Thunk, up: Env, x: Symbol, n: nat)
    requires Squares(n) && WithsAgree(up, x, n)
    ensures WithsAgree(Env(WithFrame(scope), up), x, n)
  {
    hide Bind, Eval, ForceAttrs, Squares, EvalSlot, FindAttr, BindNamed, BindThunk;
    var env := Env(WithFrame(scope), up);
    ForceAttrsCommutes(scope, n);
    var r := ForceAttrs(scope, n);
    if r.Ok? {
      FindAttrCommutes(r.value, x);
      EvalSlotCommutes(FindAttr(r.value, x), n);
    }
    if NearestWith(Shape(up)).Some? {
      assert Up(BindEnv(env), 1 + WithLevel(Shape(up))) == Up(BindEnv(up), WithLevel(Shape(up)));
    }
  }

  /** Forcing something to be a set, resolved or not. */
  lemma ForceAttrsCommutes(t: Thunk, n: nat)
    requires Squares(n)
    ensures var r := ForceAttrs(t, n);
      ForceAttrs(BindThunk(t), n) == if r.Ok? then Ok(BindNamed(r.value)) else r
  {
    assert EvalSquare(t.e, t.env, n);
  }

  /* ---- the square ---- */

  ghost predicate EvalSquare(e: Term, env: Env, n: nat) {
    Eval(Bind(e, Shape(env)), BindEnv(env), n) == BindResult(Eval(e, env, n))
  }

  /** The induction hypothesis: the square commutes for every expression with this fuel. */
  ghost predicate Squares(n: nat) {
    forall e, env :: EvalSquare(e, env, n)
  }

  lemma EvalSlotCommutes(t: Option<Thunk>, n: nat)
    requires Squares(n)
    ensures EvalSlot(BindFound(t), n) == BindResult(EvalSlot(t, n))
  {
    if t.Some? {
      assert EvalSquare(t.value.e, t.value.env, n);
    }
  }

  lemma EvalVarCommutes(r: VarRef, env: Env, n: nat)
    requires Squares(n)
    ensures EvalVar(BindRef(r, Shape(env)), BindEnv(env), n) == BindResult(EvalVar(r, env, n))
  {
    match r
    case ByName(x) =>
      LexicalMatches(env, x, 0);
      var p := FindScope(Shape(env), x, 0);
      if p.Some? {
        var home := LexicalFrame(env, x);
        UpCommutes(env, p.value.0);
        SlotCommutes(home, p.value.1);
        EvalSlotCommutes(FrameByName(home.frame, home.up, x), n);
      } else {
        WithsCommute(env, x, n);
      }
    case Lexical(level, displ) =>
      UpCommutes(env, level);
      SlotCommutes(Up(env, level), displ);
      EvalSlotCommutes(Slot(Up(env, level), displ), n);
    case FromWith(x, level, link) =>
      UpCommutes(env, level);
      FollowCommutes(Up(env, level), x, link, n);
    case Undefined(_) =>
  }

  lemma {:induction false} FollowCommutes(env: Env, x: Symbol, link: WithLink, n: nat)
    requires Squares(n)
    ensures FollowWiths(BindEnv(env), x, link, n) == BindResult(FollowWiths(env, x, link, n))
    decreases link
  {
    SlotCommutes(env, 0);
    var scope := Slot(env, 0);
    if scope.Some? {
      assert EvalSquare(scope.value.e, scope.value.env, n);
      var r := ForceAttrs(scope.value, n);
      if r.Ok? {
        FindAttrCommutes(r.value, x);
        EvalSlotCommutes(FindAttr(r.value, x), n);
        if link.parentWith.Some? {
          UpCommutes(env, link.prevWith);
          FollowCommutes(Up(env, link.prevWith), x, link.parentWith.value, n);
        }
      }
    }
  }

  lemma {:induction false} SelectCommutes(c: Cell, path: seq<AttrName<VarRef, ()>>, def: Option<Term>, env: Env, n: nat)
    requires Squares(n)
    ensures SelectPath(BindCell(c), BindPath(path, Shape(env)), BindOption(def, Shape(env)), BindEnv(env), n)
         == BindResult(SelectPath(c, path, def, env, n))
    decreases |path|
  {
    var s := Shape(env);
    if c.Delayed? {
      assert EvalSquare(c.t.e, c.t.env, n);
    }
    if path != [] {
      assert BindPath(path, s)[1..] == BindPath(path[1..], s);
      if path[0].Dynamic? {
        assert EvalSquare(path[0].e, env, n);
      }
      assert EvalName(BindName(path[0], s), BindEnv(env), n) == EvalName(path[0], env, n);
      var name := EvalName(path[0], env, n);
      var v := ForceCell(c, n);
      if name.Ok? && v.Ok? {
        if v.value.VAttrs? {
          FindAttrCommutes(v.value.attrs, name.value);
          var t := FindAttr(v.value.attrs, name.value);
          if t.Some? {
            SelectCommutes(Delayed(t.value), path[1..], def, env, n);
          }
        }
        if def.Some? {
          assert EvalSquare(def.value, env, n);
        }
      }
    }
  }

  lemma {:induction false} FindFormalCommutes(formals: seq<Formal<VarRef, ()>>, s: Scopes, x: Symbol)
    ensures FindFormal(BindFormals(formals, s), x).Some? <==> FindFormal(formals, x).Some?
  {
    if formals == [] {
    } else {
      assert BindFormals(formals, s)[1..] == BindFormals(formals[1..], s);
      FindFormalCommutes(formals[1..], s, x);
    }
  }

  lemma {:induction false} MissingCommutes(formals: seq<Formal<VarRef, ()>>, s: Scopes, actuals: seq<Named>)
    ensures MissingFormal(BindFormals(formals, s), BindNamed(actuals)) == MissingFormal(formals, actuals)
  {
    if formals == [] {
    } else {
      assert BindFormals(formals, s)[1..] == BindFormals(formals[1..], s);
      assert BindFormals(formals, s)[0] == BindFormal(formals[0], s);
      FindAttrCommutes(actuals, formals[0].name);
      MissingCommutes(formals[1..], s, actuals);
    }
  }

  lemma {:induction false} UnexpectedCommutes(formals: seq<Formal<VarRef, ()>>, s: Scopes, actuals: seq<Named>)
    ensures UnexpectedActual(BindFormals(formals, s), BindNamed(actuals)) == UnexpectedActual(formals, actuals)
  {
    if actuals == [] {
    } else {
      assert BindNamed(actuals)[1..] == BindNamed(actuals[1..]);
      FindFormalCommutes(formals, s, actuals[0].name);
      UnexpectedCommutes(formals, s, actuals[1..]);
    }
  }

  lemma EnterCommutes(lam: TermLam, env: Env, actual: Thunk, n: nat)
    requires Squares(n)
    ensures Enter(BindLam(lam, Shape(env)), BindEnv(env), BindThunk(actual), n)
         == BindResult(Enter(lam, env, actual, n))
  {
    assert EvalSquare(actual.e, actual.env, n);
    match lam.params
    case Single(_) => assert EvalSquare(lam.body, Env(CallFrame(lam.params, actual, []), env), n);
    case Pattern(_, formals, _) =>
      var r := ForceAttrs(actual, n);
      if r.Ok? {
        var s := LamScope(lam.params, Shape(env));
        MissingCommutes(formals, s, r.value);
        UnexpectedCommutes(formals, s, r.value);
        assert EvalSquare(lam.body, Env(CallFrame(lam.params, actual, r.value), env), n);
      }
  }

  lemma {:induction false} ApplyCommutes(f: Value, args: seq<Term>, env: Env, n: nat)
    requires Squares(n)
    ensures Apply(BindValue(f), BindAll(args, Shape(env)), BindEnv(env), n) == BindResult(Apply(f, args, env, n))
    decreases |args|
  {
    if args != [] && f.VClosure? {
      assert BindAll(args, Shape(env))[1..] == BindAll(args[1..], Shape(env));
      var actual := Thunk(args[0], env);
      EnterCommutes(f.lam, f.env, actual, n);
      var r := Enter(f.lam, f.env, actual, n);
      if r.Ok? {
        ApplyCommutes(r.value, args[1..], env, n);
      }
    }
  }

  lemma {:induction false} BindNamedAppend(attrs: seq<Named>, a: Named)
    ensures BindNamed(attrs + [a]) == BindNamed(attrs) + [BindSlot(a)]
  {
    if attrs == [] {
      assert attrs + [a] == [a];
    } else {
      assert (attrs + [a])[1..] == attrs[1..] + [a];
      BindNamedAppend(attrs[1..], a);
    }
  }

  lemma {:induction false} DynamicCommutes(dyn: seq<DynAttr<VarRef, ()>>, inner: Env, attrs: seq<Named>, n: nat)
    requires Squares(n)
    ensures AddDynamic(BindDyn(dyn, Shape(inner)), BindEnv(inner), BindNamed(attrs), n)
         == BindResult(AddDynamic(dyn, inner, attrs, n))
    decreases |dyn|
  {
    if dyn == [] {
    } else {
      assert BindDyn(dyn, Shape(inner))[1..] == BindDyn(dyn[1..], Shape(inner));
      assert EvalSquare(dyn[0].nameExpr, inner, n);
      var v := Eval(dyn[0].nameExpr, inner, n);
      if v == Ok(VLit(Null)) {
        DynamicCommutes(dyn[1..], inner, attrs, n);
      } else if v.Ok? && v.value.VLit? && v.value.lit.Str? {
        var a := Named(v.value.lit.s, Thunk(dyn[0].valueExpr, inner));
        FindAttrCommutes(attrs, a.name);
        BindNamedAppend(attrs, a);
        DynamicCommutes(dyn[1..], inner, attrs + [a], n);
      }
    }
  }

  lemma {:induction false} Square(e: Term, env: Env, n: nat)
    requires n > 0 ==> Squares(n - 1)
    ensures EvalSquare(e, env, n)
  {
    if n > 0 {
      var m := n - 1;
      match e
      case Lit(_) =>
      case Var(r) => EvalVarCommutes(r, env, m);
      case Select(b, path, def) =>
        assert EvalSquare(b, env, m);
        var v := Eval(b, env, m);
        if v.Ok? {
          SelectCommutes(Forced(v.value), path, def, env, m);
        }
      case Attrs(recursive, attrs) =>
        var inner := if recursive then Env(RecFrame(attrs), env) else env;
        DefThunksCommute(attrs.defs, attrs.froms, inner, env);
        DynamicCommutes(attrs.dyn, inner, DefThunks(attrs.defs, attrs.froms, inner, env), m);
      case Lambda(_) =>
      case Call(fun, args) =>
        assert EvalSquare(fun, env, m);
        var f := Eval(fun, env, m);
        if f.Ok? {
          ApplyCommutes(f.value, args, env, m);
        }
      case Let(attrs, body) => assert EvalSquare(body, Env(RecFrame(attrs), env), m);
      case With(_, scope, body) =>
        var inner := Env(WithFrame(Thunk(scope, env)), env);
        assert BindEnv(inner) == Env(WithFrame(BindThunk(Thunk(scope, env))), BindEnv(env));
        assert EvalSquare(body, inner, m);
    }
  }

  lemma {:induction false} AllSquares(n: nat)
    ensures Squares(n)
  {
    if n == 0 {
    } else {
      AllSquares(n - 1);
    }
    forall e, env ensures EvalSquare(e, env, n) {
      Square(e, env, n);
    }
  }

  /** Main result: for every expression, environment and fuel, evaluating the resolved
      expression in the resolved environment gives the resolved result of ordinary
      scoping, error for error. */
  lemma BindPreservesMeaning(e: Term, env: Env, n: nat)
    ensures Eval(Bind(e, Shape(env)), BindEnv(env), n) == BindResult(Eval(e, env, n))
  {
    AllSquares(n);
    assert EvalSquare(e, env, n);
  }
}
