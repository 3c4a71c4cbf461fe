/** Abstract syntax of the part of the Nix language that variable resolution is about.

    The tree is parametric in what a variable occurrence (`V`) and a `with` node (`W`)
    carry, because the pass under study rewrites exactly these annotations and nothing else.
    Symbols are interned names, represented by their index in the symbol table. */
module NixSyntax {
  import opened Optional

  type Symbol = nat

  datatype Literal = Null | Int(i: int) | Str(s: Symbol)

  datatype Expr<V, W> =
    | Lit(lit: Literal)
    | Var(v: V)
    | Select(e: Expr<V, W>, path: seq<AttrName<V, W>>, def: Option<Expr<V, W>>)
    | Attrs(recursive: bool, attrs: AttrSet<V, W>)
    | Lambda(lam: Lam<V, W>)
    | Call(fun: Expr<V, W>, args: seq<Expr<V, W>>)
    | Let(attrs: AttrSet<V, W>, body: Expr<V, W>)
    | With(w: W, scope: Expr<V, W>, body: Expr<V, W>)

  /** One component of `e.a.${b}`: a symbol or an expression that yields it. */
  datatype AttrName<V, W> = Static(s: Symbol) | Dynamic(e: Expr<V, W>)

  /** The bindings between the braces: static definitions in symbol order, the source
      expressions of the `inherit (from)` clauses, and the dynamic definitions. */
  datatype AttrSet<V, W> =
    AttrSet(defs: seq<Binding<V, W>>, froms: seq<Expr<V, W>>, dyn: seq<DynAttr<V, W>>)

  datatype Binding<V, W> = Binding(name: Symbol, def: AttrDef<V, W>)

  /** `a = e;`, `inherit a;`, or `inherit (froms[displ]) a;`. */
  datatype AttrDef<V, W> =
    | Plain(e: Expr<V, W>)
    | Inherited(e: Expr<V, W>)
    | InheritedFrom(displ: nat, attr: Symbol)

  datatype DynAttr<V, W> = DynAttr(nameExpr: Expr<V, W>, valueExpr: Expr<V, W>)

  datatype Formal<V, W> = Formal(name: Symbol, def: Option<Expr<V, W>>)

  /** `x: body`, or `{ a, b ? e, ... }: body` with an optional name for the whole argument. */
  datatype Params<V, W> =
    | Single(arg: Symbol)
    | Pattern(self: Option<Symbol>, formals: seq<Formal<V, W>>, ellipsis: bool)
  {
    function Arg(): Option<Symbol> {
      match this
      case Single(x) => Some(x)
      case Pattern(x, _, _) => x
    }

    function Formals(): seq<Formal<V, W>> {
      if Single? then [] else formals
    }
  }

  datatype Lam<V, W> = Lam(params: Params<V, W>, body: Expr<V, W>)

  /** How a chain of `with` nodes is linked: the distance to the enclosing `with` frame
      and that frame's own link. */
  datatype WithLink = WithLink(prevWith: nat, parentWith: Option<WithLink>)

  /** A variable occurrence: a name, or what resolution turned it into. */
  datatype VarRef =
    | ByName(name: Symbol)
    | Lexical(level: nat, displ: nat)
    | FromWith(name: Symbol, level: nat, link: WithLink)
    | Undefined(name: Symbol)

  type Term = Expr<VarRef, ()>

  type TermSet = AttrSet<VarRef, ()>

  type TermLam = Lam<VarRef, ()>

  type TermParams = Params<VarRef, ()>
}
