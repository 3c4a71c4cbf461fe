/** From the written fields to what the program does. */
module BinderMeaning {
  import opened NixSyntax
  import opened NixEval
  import opened BindSpec
  import opened BindRuntime
  import opened BinderTree
  import opened BinderScope
  import opened BinderParts
  import BindCorrect

  /** What a successful traversal means at run time: the term spelled by the tree's fields,
      evaluated by levels and displacements, gives the result of ordinary scoping. */
  lemma BoundTreeMeans(e: Tree, s: NodeEnv, env: Env, n: nat) returns (t: Term)
    requires Resolved(e, s) && Links(s) == Shape(env)
    ensures Written(e, t)
    ensures Eval(t, BindEnv(env), n) == BindResult(Eval(Names(e), env, n))
  {
    t := Bind(Names(e), Links(s));
    BindCorrect.BindPreservesMeaning(Names(e), env, n);
  }
}
