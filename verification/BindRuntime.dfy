/** Resolution carried over to run-time data: environments, thunks and values. */
module BindRuntime {
  import opened Optional
  import opened NixSyntax
  import opened NixEval
  import opened BindSpec

  /** The static scopes an environment was built under. */
  function Shape(env: Env): Scopes {
    match env
    case Empty => Nil
    case Env(f, up) =>
      match f
      case RecFrame(attrs) => RecScope(attrs.defs, Shape(up))
      case CallFrame(params, _, _) => LamScope(params, Shape(up))
      case WithFrame(_) => Scope(Some(LinkTo(Shape(up))), [], Shape(up))
      case InheritFrame(_) => Scope(None, [], Shape(up))
  }

  function BindEnv(env: Env): Env {
    match env
    case Empty => Empty
    case Env(f, up) =>
      var f' := match f
        case RecFrame(attrs) => RecFrame(BindSet(attrs, Shape(env), Shape(up)))
        case CallFrame(params, actual, actuals) =>
          CallFrame(BindParams(params, Shape(env)), BindThunk(actual), BindNamed(actuals))
        case WithFrame(scope) => WithFrame(BindThunk(scope))
        case InheritFrame(froms) => InheritFrame(BindAll(froms, Shape(up)));
      Env(f', BindEnv(up))
  }

  function BindThunk(t: Thunk): Thunk {
    Thunk(Bind(t.e, Shape(t.env)), BindEnv(t.env))
  }

  function BindNamed(attrs: seq<Named>): (r: seq<Named>)
    ensures |r| == |attrs|
  {
    if attrs == [] then [] else [BindSlot(attrs[0])] + BindNamed(attrs[1..])
  }

  function BindSlot(a: Named): Named {
    Named(a.name, BindThunk(a.thunk))
  }

  function BindValue(v: Value): Value {
    match v
    case VLit(_) => v
    case VAttrs(attrs) => VAttrs(BindNamed(attrs))
    case VClosure(lam, env) => VClosure(BindLam(lam, Shape(env)), BindEnv(env))
  }

  function BindCell(c: Cell): Cell {
    match c
    case Forced(v) => Forced(BindValue(v))
    case Delayed(t) => Delayed(BindThunk(t))
  }

  function BindResult(r: Result<Value>): Result<Value> {
    if r.Ok? then Ok(BindValue(r.value)) else r
  }
}
