/** What the written levels, displacements and links point at. */
module BindLookup {
  import opened Optional
  import opened NixSyntax
  import opened NixEval
  import opened BindSpec
  import opened BindRuntime
  import opened BindCorrect
  import opened Closed

  function Depth(env: Env): nat {
    if env.Empty? then 0 else 1 + Depth(env.up)
  }

  function FrameSize(f: Frame): nat {
    match f
    case RecFrame(attrs) => |attrs.defs|
    case CallFrame(params, _, _) => (if params.Arg().Some? then 1 else 0) + |params.Formals()|
    case WithFrame(_) => 1
    case InheritFrame(froms) => |froms|
  }

  /** How far up the enclosing `with` frames are, innermost first. */
  function WithPositions(env: Env, level: nat): seq<nat> {
    match env
    case Empty => []
    case Env(f, up) => (if f.WithFrame? then [level] else []) + WithPositions(up, level + 1)
  }

  /** The frames visited by starting at `level` and following the links. */
  function LinkPositions(level: nat, link: WithLink): seq<nat>
    decreases link
  {
    [level] + if link.parentWith.None? then [] else LinkPositions(level + link.prevWith, link.parentWith.value)
  }

  lemma {:induction false} LinksVisitWiths(env: Env, k: nat)
    ensures NearestWith(Shape(env)).None? ==> WithPositions(env, k) == []
    ensures NearestWith(Shape(env)).Some? ==>
      WithPositions(env, k) == LinkPositions(k + WithLevel(Shape(env)), NearestWith(Shape(env)).value)
  {
    if env.Empty? {
    } else {
      LinksVisitWiths(env.up, k + 1);
    }
  }

  lemma {:induction false} UpInside(env: Env, level: nat)
    ensures Up(env, level).Env? ==> level < Depth(env)
  {
    if level > 0 && env.Env? {
      UpInside(env.up, level - 1);
    }
  }

  /** A lexical binder wins over every `with`, and what is written for it is in range;
      failing that, the links visit exactly the enclosing `with` frames, innermost first;
      the undefined-variable error is what remains. */
  lemma ResolveCases(env: Env, x: Symbol)
    ensures var r := Resolve(Shape(env), x);
      match LexicalFrame(env, x)
      case Env(f, up) =>
        && r.Lexical? && r.level < Depth(env) && Up(env, r.level) == Env(f, up) && r.displ < FrameSize(f)
        && SlotOf(f, up, r.displ) == FrameByName(f, up, x)
      case Empty =>
        if WithPositions(env, 0) == [] then r == Undefined(x)
        else r.FromWith? && r.name == x && LinkPositions(r.level, r.link) == WithPositions(env, 0)
  {
    LexicalMatches(env, x, 0);
    LinksVisitWiths(env, 0);
    var home := LexicalFrame(env, x);
    if home.Env? {
      var p := FindScope(Shape(env), x, 0).value;
      UpInside(env, p.0);
      DisplInRange(env, x, 0);
    } else if NearestWith(Shape(env)).Some? {
      assert WithPositions(env, 0) != [];
    }
  }

  lemma {:induction false} DisplInRange(env: Env, x: Symbol, k: nat)
    requires LexicalFrame(env, x).Env?
    ensures FindScope(Shape(env), x, k).Some?
    ensures FindScope(Shape(env), x, k).value.1 < FrameSize(LexicalFrame(env, x).frame)
  {
    var f, up := env.frame, env.up;
    if !f.WithFrame? {
      ScopeMatchesFrame(f, up, x);
    }
    if f.WithFrame? || !FrameBinds(f, x) {
      DisplInRange(up, x, k + 1);
    } else {
      match f
      case RecFrame(attrs) => DefVarsFind(attrs.defs, x, 0);
      case CallFrame(params, _, _) =>
        SortFinds(ParamVars(params), x);
        if params.Arg().Some? {
          assert ParamVars(params)[1..] == FormalVars(params.Formals(), 1);
          FormalVarsFind(params.Formals(), x, 1);
        } else {
          FormalVarsFind(params.Formals(), x, 0);
        }
      case InheritFrame(_) =>
    }
  }
}
