/** Whole runs: any sequence of accessor calls, through any cursors, over any reopenings. */
module EvalCacheRuns {
  import opened CacheModel
  import opened EvalCache

  /** One call; numbers pick a cursor opened earlier in the same session. */
  datatype Op =
    | NewRoot
    | Child(cursor: nat, name: string)
    | Find(cursor: nat, names: seq<string>)
    | AskString(cursor: nat)
    | AskBool(cursor: nat)
    | AskInt(cursor: nat)
    | AskStrings(cursor: nat)
    | AskAttrs(cursor: nat)
    | Force(cursor: nat)
    | Reopen

  ghost predicate SessionOk(cache: EvalCache, cursors: seq<AttrCursor>, db: AttrDb, root: Val)
    reads cache, db, cache.db, cache.cursors
  {
    && cache.db == db && cache.root == root && cache.Valid()
    && forall i | 0 <= i < |cursors| :: cursors[i] in cache.cursors
  }

  /** After every script the table is still sound and complete, and no id changed its meaning. */
  method Run(db: AttrDb, root: Val, script: seq<Op>)
    requires db.Ok(root)
    modifies db
    ensures db.Ok(root) && Extends(old(db.issued), db.issued)
  {
    var cache := new EvalCache(root, db);
    var cursors: seq<AttrCursor> := [];
    for i := 0 to |script|
      invariant SessionOk(cache, cursors, db, root) && fresh(cache) && fresh(cache.cursors)
      invariant Extends(old(db.issued), db.issued)
    {
      if script[i].Reopen? {
        cache := new EvalCache(root, db);
        cursors := [];
      } else if script[i].NewRoot? {
        var c := cache.GetRoot();
        cursors := cursors + [c];
      } else if script[i].cursor < |cursors| {
        var c := cursors[script[i].cursor];
        assert cache.CursorOk(c);
        var found := Step(c, script[i]);
        if found != null {
          cursors := cursors + [found];
        }
      }
    }
  }

  method Step(c: AttrCursor, op: Op) returns (found: AttrCursor?)
    requires c.Live() && c.cache.db != null && !op.Reopen? && !op.NewRoot?
    modifies c.cache.cursors, c.cache.db, c.cache`cursors
    ensures c.Live() && c.Grows()
    ensures old(c.cache.cursors) <= c.cache.cursors && fresh(c.cache.cursors - old(c.cache.cursors))
    ensures found != null ==> found in c.cache.cursors
  {
    found := null;
    match op {
      case Child(_, name) =>
        var r := c.MaybeGetAttr(name);
        if r.Ok? { found := r.value; }
      case Find(_, names) =>
        var r := c.FindAlongAttrPath(names);
        if r.Ok? { found := r.value; }
      case AskString(_) => var _ := c.GetString();
      case AskBool(_) => var _ := c.GetBool();
      case AskInt(_) => var _ := c.GetInt();
      case AskStrings(_) => var _ := c.GetListOfStrings();
      case AskAttrs(_) => var _ := c.GetAttrs();
      case Force(_) => var _ := c.ForceValue();
    }
  }
}
