/** Where a table makes a difference: sessions on the root, one after the other. */
module CacheSessions {
  import opened Optional
  import opened CacheStrings
  import opened CacheModel
  import opened EvalCache

  method OpenRoot(root: Val, db: AttrDb?) returns (c: AttrCursor)
    requires db != null ==> db.Ok(root)
    ensures c.Live() && c.cache.root == root && c.cache.db == db
    ensures c.path == [] && c.parent == null && c.cached == None
    ensures fresh(c) && fresh(c.cache) && fresh(c.cache.cursors)
    ensures c.Here() == root
  {
    var cache := new EvalCache(root, db);
    c := cache.GetRoot();
    assert cache.CursorOk(c);
  }

  /** An integer asked for in two sessions on one table: exact first, truncated afterwards. */
  method IntTwice(i: int) returns (first: Outcome<int>, second: Outcome<int>)
    ensures first == Ok(i) && second == Ok(ToInt32(i))
    ensures second == first <==> -0x8000_0000 <= i < 0x8000_0000
  {
    hide Sound, Complete, CopyOf, CopyTrue, RowTrue, RowCopy, ToInt32;
    var root := Number(i);
    var db := new AttrDb();
    var c := OpenRoot(root, db);
    first := c.GetInt();
    var again := OpenRoot(root, db);
    second := again.GetInt();
  }

  /** Within one session the copy in memory is exact. */
  method IntAgain(i: int) returns (first: Outcome<int>, second: Outcome<int>)
    ensures first == second == Ok(i)
  {
    hide Sound, Complete, CopyOf, CopyTrue, RowTrue, RowCopy, ToInt32;
    var root := Number(i);
    var db := new AttrDb();
    var c := OpenRoot(root, db);
    first := c.GetInt();
    assert c.cached.Some? && c.cached.value.1 == Int(i);
    second := c.GetInt();
  }

  /** The least integer that is lost. */
  method IntLost() returns (first: Outcome<int>, second: Outcome<int>)
    ensures first == Ok(0x8000_0000) && second == Ok(-0x8000_0000)
  {
    first, second := IntTwice(0x8000_0000);
  }

  function TextList(l: seq<string>): seq<Val> {
    if l == [] then [] else [Text(l[0])] + TextList(l[1..])
  }

  lemma {:induction false} TextsOf(l: seq<string>)
    ensures Texts(TextList(l)) == Some(l) && StringsOf(List(TextList(l))) == Ok(l)
  {
    if l == [] {
    } else {
      TextsOf(l[1..]);
      assert TextList(l)[1..] == TextList(l[1..]) && [l[0]] + l[1..] == l;
    }
    TextsInMeans(TextList(l));
  }

  /** A list of strings asked for in two sessions on one table. */
  method StringsTwice(l: seq<string>) returns (first: Outcome<seq<string>>, second: Outcome<seq<string>>)
    ensures first == Ok(l) && second == Ok(Tokens(Join(l)))
    ensures second == first <==> Storable(l)
  {
    hide Sound, Complete, CopyOf, CopyTrue, RowTrue, RowCopy, Texts, TextsIn, Tokens, Join, Storable;
    TextsOf(l);
    var root := List(TextList(l));
    var db := new AttrDb();
    var c := OpenRoot(root, db);
    first := c.GetListOfStrings();
    var again := OpenRoot(root, db);
    second := again.GetListOfStrings();
  }

  lemma EmptyLost()
    ensures Tokens(Join(["", "a"])) == ["a"]
  {
    assert ["", "a"][1..] == ["a"] && [] + "" == "" && "" + "a" == "a";
    assert JoinTo("", ["a"]) == "a";
    OneToken("", "a");
  }

  /** An empty string is lost. */
  method StringLost() returns (first: Outcome<seq<string>>, second: Outcome<seq<string>>)
    ensures first == Ok(["", "a"]) && second == Ok(["a"])
  {
    first, second := StringsTwice(["", "a"]);
    EmptyLost();
  }

  /** A list that was only forced is refused, although without a table it is returned. */
  method ForcedList(l: seq<string>) returns (without: Outcome<seq<string>>, after: Outcome<seq<string>>)
    ensures without == Ok(l) && after == TypeError
  {
    hide Sound, Complete, CopyOf, CopyTrue, RowTrue, RowCopy, Texts, TextsIn, Tokens, Join, Storable,
      AttrCursor.Recorded, AttrCursor.CopyHere;
    TextsOf(l);
    var root := List(TextList(l));
    var alone := OpenRoot(root, null);
    alone.RecordedStrings();
    without := alone.GetListOfStrings();
    var db := new AttrDb();
    var c := OpenRoot(root, db);
    var _ := c.ForceValue();
    var again := OpenRoot(root, db);
    again.RecordedStrings();
    after := again.GetListOfStrings();
  }

  /** A root that fails: an error without a table, no attributes once the failure is recorded. */
  method FailingRoot(name: string) returns (without: Outcome<bool>, after: Outcome<bool>)
    ensures without == EvalError && after == Ok(false)
  {
    hide Sound, Complete, CopyOf, CopyTrue, RowTrue, RowCopy;
    var alone := OpenRoot(Fails, null);
    var r := alone.MaybeGetAttr(name);
    without := Found(r);
    var db := new AttrDb();
    var c := OpenRoot(Fails, db);
    var _ := c.ForceValue();
    r := c.MaybeGetAttr(name);
    after := Found(r);
  }

  /** The root is known to be a set, and its attribute `name` to fail. */
  ghost predicate FailureRecorded(rows: Rows, name: string) {
    && ROOT_KEY in rows && rows[ROOT_KEY].stored == SPlaceholder
    && Key(rows[ROOT_KEY].id, name) in rows && rows[Key(rows[ROOT_KEY].id, name)].stored == SFailed
  }

  method RecordFailure(root: Val, db: AttrDb, name: string) returns (r: Outcome<bool>)
    requires root == Set(map[name := Fails]) && db.Ok(root) && db.rows == map[]
    modifies db
    ensures db.Ok(root) && FailureRecorded(db.rows, name) && r == Ok(true)
  {
    hide Sound, Complete, CopyOf, CopyTrue, RowTrue, RowCopy;
    var c := OpenRoot(root, db);
    var got := c.MaybeGetAttr(name);
    r := Found(got);
    c.CopyIdPositive();
    ForceFailing(got.value, name);
  }

  /** Forcing the attribute records its failure under the root's row. */
  method ForceFailing(c: AttrCursor, name: string)
    requires c.cache.Valid() && c in c.cache.cursors && c.cache.root == Set(map[name := Fails])
    requires c.cache.db != null && c.parent != null && c.path == [name]
    requires c.parent.cached.Some? && 0 < c.parent.cached.value.0
    requires var rows := c.cache.db.rows;
      ROOT_KEY in rows && rows[ROOT_KEY] == Row(c.parent.cached.value.0, SPlaceholder)
    modifies c.cache.cursors`value, c`cached, c.cache.db
    ensures c.cache.db.Ok(c.cache.root) && FailureRecorded(c.cache.db.rows, name)
  {
    hide Sound, Complete, CopyOf, CopyTrue, RowTrue, RowCopy;
    assert c.cache.CursorOk(c);
    assert c.path == c.parent.path + [c.name] && c.path[0] == name;
    AtChild(c.cache.root, [], name);
    assert [] + [name] == [name];
    var _ := c.ForceValue();
  }

  method AskFailed(root: Val, db: AttrDb, name: string) returns (r: Outcome<bool>)
    requires root == Set(map[name := Fails]) && db.Ok(root) && FailureRecorded(db.rows, name)
    modifies db
    ensures r == CachedFailure
  {
    hide Sound, Complete, CopyOf, CopyTrue, RowTrue;
    var c := OpenRoot(root, db);
    assert c.ChildKnownToFail(name);
    var got := c.MaybeGetAttr(name);
    r := Found(got);
  }

  /** An attribute that fails: handed out as a cursor at first, and refused at once in a later session. */
  method FailingAttr(name: string) returns (before: Outcome<bool>, after: Outcome<bool>)
    ensures before == Ok(true) && after == CachedFailure
  {
    var root := Set(map[name := Fails]);
    var db := new AttrDb();
    before := RecordFailure(root, db, name);
    after := AskFailed(root, db, name);
  }

  function Found(r: Outcome<AttrCursor?>): Outcome<bool> {
    match r
    case Ok(c) => Ok(c != null)
    case EvalError => EvalError
    case TypeError => TypeError
    case CachedFailure => CachedFailure
  }
}
