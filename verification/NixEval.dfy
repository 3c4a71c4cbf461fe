/** Lazy evaluation, with both ways of reading a variable.

    `ByName` is ordinary lexical scoping and knows nothing about positions; `Lexical` and
    `FromWith` are the runtime's own lookup over levels and displacements.  Everything
    else is shared, so the two readings can be compared expression by expression.
    Evaluation is call-by-name and bounded by a fuel argument. */
module NixEval {
  import opened Optional
  import opened NixSyntax

  datatype Env = Empty | Env(frame: Frame, up: Env)

  datatype Frame =
    | RecFrame(attrs: TermSet)
    | CallFrame(params: TermParams, actual: Thunk, actuals: seq<Named>)
    | WithFrame(scope: Thunk)
    | InheritFrame(froms: seq<Term>)

  datatype Thunk = Thunk(e: Term, env: Env)

  datatype Named = Named(name: Symbol, thunk: Thunk)

  datatype Value = VLit(lit: Literal) | VAttrs(attrs: seq<Named>) | VClosure(lam: TermLam, env: Env)

  datatype Error =
    | UndefinedVariable(name: Symbol)
    | MissingAttribute(name: Symbol)
    | DuplicateAttribute(name: Symbol)
    | MissingArgument(name: Symbol)
    | UnexpectedArgument(name: Symbol)
    | NotAttrs
    | NotString
    | NotFunction
    | BadSlot

  datatype Result<+T> = Ok(value: T) | Err(error: Error) | Timeout {
    predicate IsFailure() { !Ok? }
    function PropagateFailure<U>(): Result<U>
      requires IsFailure()
    {
      if Timeout? then Timeout else Err(error)
    }
    function Extract(): T
      requires Ok?
    {
      value
    }
  }

  datatype Cell = Forced(v: Value) | Delayed(t: Thunk)

  /* ---- attribute and definition tables ---- */

  function FindAttr(attrs: seq<Named>, x: Symbol): Option<Thunk> {
    if attrs == [] then None
    else if attrs[0].name == x then Some(attrs[0].thunk)
    else FindAttr(attrs[1..], x)
  }

  function FindDef(defs: seq<Binding<VarRef, ()>>, x: Symbol): Option<AttrDef<VarRef, ()>> {
    if defs == [] then None
    else if defs[0].name == x then Some(defs[0].def)
    else FindDef(defs[1..], x)
  }

  function FindFormal(formals: seq<Formal<VarRef, ()>>, x: Symbol): Option<Formal<VarRef, ()>> {
    if formals == [] then None
    else if formals[0].name == x then Some(formals[0])
    else FindFormal(formals[1..], x)
  }

  /** The suspended value of a definition; `inner` is the environment the set opens (or the
      surrounding one if it is not recursive), `outer` the surrounding one. */
  function DefThunk(def: AttrDef<VarRef, ()>, froms: seq<Term>, inner: Env, outer: Env): Thunk {
    match def
    case Plain(e) => Thunk(e, inner)
    case Inherited(e) => Thunk(e, outer)
    case InheritedFrom(k, a) =>
      // the parser has already resolved the reference to the source value
      Thunk(Select(Var(Lexical(0, k)), [Static(a)], None), Env(InheritFrame(froms), inner))
  }

  function DefThunks(defs: seq<Binding<VarRef, ()>>, froms: seq<Term>, inner: Env, outer: Env): seq<Named> {
    if defs == [] then []
    else [Named(defs[0].name, DefThunk(defs[0].def, froms, inner, outer))]
         + DefThunks(defs[1..], froms, inner, outer)
  }

  /** The value a formal has in a call: the attribute of that name, else its default. */
  function FormalThunk(f: Formal<VarRef, ()>, actuals: seq<Named>, inner: Env): Option<Thunk> {
    match FindAttr(actuals, f.name)
    case Some(t) => Some(t)
    case None => if f.def.Some? then Some(Thunk(f.def.value, inner)) else None
  }

  /* ---- ordinary scoping: names ---- */

  function FrameByName(f: Frame, up: Env, x: Symbol): Option<Thunk> {
    match f
    case RecFrame(attrs) => (
      match FindDef(attrs.defs, x)
      case Some(def) => Some(DefThunk(def, attrs.froms, Env(f, up), up))
      case None => None)
    case CallFrame(params, actual, actuals) =>
      if params.Arg() == Some(x) then Some(actual) else (
        match FindFormal(params.Formals(), x)
        case Some(formal) => FormalThunk(formal, actuals, Env(f, up))
        case None => None)
    case WithFrame(_) => None
    case InheritFrame(_) => None
  }

  predicate FrameBinds(f: Frame, x: Symbol) {
    match f
    case RecFrame(attrs) => FindDef(attrs.defs, x).Some?
    case CallFrame(params, _, _) => params.Arg() == Some(x) || FindFormal(params.Formals(), x).Some?
    case WithFrame(_) => false
    case InheritFrame(_) => false
  }

  /** The innermost lexical binder of `x`; `with` frames are transparent. */
  function LexicalFrame(env: Env, x: Symbol): Env {
    match env
    case Empty => Empty
    case Env(f, up) => if FrameBinds(f, x) then env else LexicalFrame(up, x)
  }

  /* ---- the runtime's lookup: levels and displacements ---- */

  function Up(env: Env, level: nat): Env {
    if level == 0 || env.Empty? then env else Up(env.up, level - 1)
  }

  function SlotOf(f: Frame, up: Env, displ: nat): Option<Thunk> {
    match f
    case RecFrame(attrs) =>
      if displ < |attrs.defs| then Some(DefThunk(attrs.defs[displ].def, attrs.froms, Env(f, up), up)) else None
    case CallFrame(params, actual, actuals) =>
      var formals := params.Formals();
      var shift := if params.Arg().Some? then 1 else 0;
      if displ < shift then Some(actual)
      else if displ - shift < |formals| then FormalThunk(formals[displ - shift], actuals, Env(f, up))
      else None
    case WithFrame(scope) => if displ == 0 then Some(scope) else None
    case InheritFrame(froms) => if displ < |froms| then Some(Thunk(froms[displ], up)) else None
  }

  function Slot(env: Env, displ: nat): Option<Thunk> {
    if env.Empty? then None else SlotOf(env.frame, env.up, displ)
  }

  /* ---- evaluation ---- */

  function Eval(e: Term, env: Env, n: nat): Result<Value>
    decreases n, 0, 0
  {
    if n == 0 then Timeout else
    match e
    case Lit(lit) => Ok(VLit(lit))
    case Var(r) => EvalVar(r, env, n - 1)
    case Select(b, path, def) =>
      var v :- Eval(b, env, n - 1);
      SelectPath(Forced(v), path, def, env, n - 1)
    case Attrs(recursive, attrs) =>
      var inner := if recursive then Env(RecFrame(attrs), env) else env;
      AddDynamic(attrs.dyn, inner, DefThunks(attrs.defs, attrs.froms, inner, env), n - 1)
    case Lambda(lam) => Ok(VClosure(lam, env))
    case Call(fun, args) =>
      var f :- Eval(fun, env, n - 1);
      Apply(f, args, env, n - 1)
    case Let(attrs, body) => Eval(body, Env(RecFrame(attrs), env), n - 1)
    case With(_, scope, body) => Eval(body, Env(WithFrame(Thunk(scope, env)), env), n - 1)
  }

  function EvalVar(r: VarRef, env: Env, n: nat): Result<Value>
    decreases n, 3, 0
  {
    match r
    case ByName(x) => (
      match LexicalFrame(env, x)
      case Env(f, up) => EvalSlot(FrameByName(f, up, x), n)
      case Empty => SearchWiths(env, x, n))
    case Lexical(level, displ) => EvalSlot(Slot(Up(env, level), displ), n)
    case FromWith(x, level, link) => FollowWiths(Up(env, level), x, link, n)
    case Undefined(x) => Err(UndefinedVariable(x))
  }

  function EvalSlot(t: Option<Thunk>, n: nat): Result<Value>
    decreases n, 1, 0
  {
    if t.Some? then Eval(t.value.e, t.value.env, n) else Err(BadSlot)
  }

  function ForceAttrs(t: Thunk, n: nat): Result<seq<Named>>
    decreases n, 1, 0
  {
    var v :- Eval(t.e, t.env, n);
    if v.VAttrs? then Ok(v.attrs) else Err(NotAttrs)
  }

  /** `with` scoping by name: the enclosing `with` sets, innermost first. */
  function SearchWiths(env: Env, x: Symbol, n: nat): Result<Value>
    decreases n, 2, env
  {
    match env
    case Empty => Err(UndefinedVariable(x))
    case Env(f, up) =>
      if f.WithFrame? then
        var attrs :- ForceAttrs(f.scope, n);
        match FindAttr(attrs, x) {
          case Some(t) => EvalSlot(Some(t), n)
          case None => SearchWiths(up, x, n)
        }
      else SearchWiths(up, x, n)
  }

  /** `with` lookup at run time: start at a `with` frame and follow the recorded links. */
  function FollowWiths(env: Env, x: Symbol, link: WithLink, n: nat): Result<Value>
    decreases n, 2, link
  {
    match Slot(env, 0)
    case None => Err(BadSlot)
    case Some(scope) =>
      var attrs :- ForceAttrs(scope, n);
      match FindAttr(attrs, x) {
        case Some(t) => EvalSlot(Some(t), n)
        case None =>
          if link.parentWith.None? then Err(UndefinedVariable(x))
          else FollowWiths(Up(env, link.prevWith), x, link.parentWith.value, n)
      }
  }

  function ForceCell(c: Cell, n: nat): Result<Value>
    decreases n, 1, 0
  {
    match c
    case Forced(v) => Ok(v)
    case Delayed(t) => Eval(t.e, t.env, n)
  }

  function EvalName(a: AttrName<VarRef, ()>, env: Env, n: nat): Result<Symbol>
    decreases n, 1, 0
  {
    match a
    case Static(s) => Ok(s)
    case Dynamic(e) =>
      var v :- Eval(e, env, n);
      if v.VLit? && v.lit.Str? then Ok(v.lit.s) else Err(NotString)
  }

  function SelectPath(c: Cell, path: seq<AttrName<VarRef, ()>>, def: Option<Term>, env: Env, n: nat): Result<Value>
    decreases n, 2, |path|
  {
    if path == [] then ForceCell(c, n) else
    var name :- EvalName(path[0], env, n);
    var v :- ForceCell(c, n);
    var found := if v.VAttrs? then FindAttr(v.attrs, name) else None;
    match found
    case Some(t) => SelectPath(Delayed(t), path[1..], def, env, n)
    case None =>
      if def.Some? then Eval(def.value, env, n)
      else if v.VAttrs? then Err(MissingAttribute(name)) else Err(NotAttrs)
  }

  function MissingFormal(formals: seq<Formal<VarRef, ()>>, actuals: seq<Named>): Option<Symbol> {
    if formals == [] then None
    else if FindAttr(actuals, formals[0].name).None? && formals[0].def.None? then Some(formals[0].name)
    else MissingFormal(formals[1..], actuals)
  }

  function UnexpectedActual(formals: seq<Formal<VarRef, ()>>, actuals: seq<Named>): Option<Symbol> {
    if actuals == [] then None
    else if FindFormal(formals, actuals[0].name).None? then Some(actuals[0].name)
    else UnexpectedActual(formals, actuals[1..])
  }

  function Apply(f: Value, args: seq<Term>, env: Env, n: nat): Result<Value>
    decreases n, 2, |args|
  {
    if args == [] then Ok(f)
    else if !f.VClosure? then Err(NotFunction)
    else
      var v :- Enter(f.lam, f.env, Thunk(args[0], env), n);
      Apply(v, args[1..], env, n)
  }

  function Enter(lam: TermLam, env: Env, actual: Thunk, n: nat): Result<Value>
    decreases n, 2, 0
  {
    match lam.params
    case Single(_) => Eval(lam.body, Env(CallFrame(lam.params, actual, []), env), n)
    case Pattern(_, formals, ellipsis) =>
      var actuals :- ForceAttrs(actual, n);
      if MissingFormal(formals, actuals).Some? then
        Err(MissingArgument(MissingFormal(formals, actuals).value))
      else if !ellipsis && UnexpectedActual(formals, actuals).Some? then
        Err(UnexpectedArgument(UnexpectedActual(formals, actuals).value))
      else Eval(lam.body, Env(CallFrame(lam.params, actual, actuals), env), n)
  }

  function AddDynamic(dyn: seq<DynAttr<VarRef, ()>>, inner: Env, attrs: seq<Named>, n: nat): Result<Value>
    decreases n, 2, |dyn|
  {
    if dyn == [] then Ok(VAttrs(attrs)) else
    var v :- Eval(dyn[0].nameExpr, inner, n);
    if v == VLit(Null) then AddDynamic(dyn[1..], inner, attrs, n)
    else if !(v.VLit? && v.lit.Str?) then Err(NotString)
    else if FindAttr(attrs, v.lit.s).Some? then Err(DuplicateAttribute(v.lit.s))
    else AddDynamic(dyn[1..], inner, attrs + [Named(v.lit.s, Thunk(dyn[0].valueExpr, inner))], n)
  }
}
