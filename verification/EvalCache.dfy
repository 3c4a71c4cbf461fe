/** The evaluation cache: a table of attributes and a tree of cursors that fill it. */
module EvalCache {
  import opened Optional
  import opened CacheStrings
  import opened CacheModel

  class AttrDb {
    var rows: Rows
    var nextId: nat
    ghost var issued: Ledger

    ghost predicate Ok(root: Val)
      reads this
    {
      Sound(root, rows, nextId, issued) && Complete(root, rows, issued)
    }

    constructor ()
      ensures forall root :: Ok(root)
      ensures rows == map[]
    {
      rows, nextId, issued := map[], 1, map[];
    }

    method Insert(ghost root: Val, k: Key, stored: Stored) returns (id: nat)
      requires Sound(root, rows, nextId, issued)
      requires HasPath(k, issued) && RowTrue(root, KeyPath(k, issued), stored)
      modifies this
      ensures id == old(nextId) && nextId == id + 1 && id !in old(issued)
      ensures rows == old(rows)[k := Row(id, stored)]
      ensures issued == old(issued[id := Issue(k, KeyPath(k, issued), stored)])
      ensures Sound(root, rows, nextId, issued) && Extends(old(issued), issued)
    {
      InsertSound(root, rows, nextId, issued, k, stored);
      id := nextId;
      rows := rows[k := Row(id, stored)];
      issued := issued[id := Issue(k, KeyPath(k, issued), stored)];
      nextId := nextId + 1;
    }

    /** Any row but a listing of attributes. */
    method Put(ghost root: Val, k: Key, stored: Stored) returns (id: nat)
      requires Ok(root) && MayPut(k, rows, issued)
      requires RowTrue(root, KeyPath(k, issued), stored) && !stored.SFullAttrs?
      modifies this
      ensures Ok(root) && Extends(old(issued), issued)
      ensures id in issued && issued[id] == old(Issue(k, KeyPath(k, issued), stored))
      ensures rows == old(rows)[k := Row(id, stored)]
    {
      PutComplete(root, rows, nextId, issued, k, stored);
      id := Insert(root, k, stored);
    }

    /** A listing, and a placeholder for each attribute under its new id. */
    method PutAttrs(ghost root: Val, k: Key, names: seq<string>) returns (id: nat)
      requires Ok(root) && MayPut(k, rows, issued)
      requires RowTrue(root, KeyPath(k, issued), SFullAttrs)
      requires forall name :: name in names <==> name in At(root, KeyPath(k, issued)).value.attrs
      modifies this
      ensures Ok(root) && Extends(old(issued), issued)
      ensures 0 < id && id in issued && issued[id] == old(Issue(k, KeyPath(k, issued), SFullAttrs))
      ensures ListingRows(old(rows), rows, k, id, names) && forall name :: name in names <==> Key(id, name) in rows
    {
      ghost var before, listing := issued, Issue(k, KeyPath(k, issued), SFullAttrs);
      hide RowTrue, Filling, Complete, Extends, MayPut, ListingRows, Sound;
      FillStart(root, rows, nextId, issued, k);
      MayPutPath(k, rows, issued);
      ListingBegins(root, rows, nextId, issued, k);
      id := Insert(root, k, SFullAttrs);
      PutNames(root, before, id, listing, names, old(rows), k);
      FillingComplete(root, before, rows, nextId, issued, id, listing, names);
      FillingNames(root, before, rows, nextId, issued, id, listing, names);
    }

    /** The loop over the attributes; `rows0` is the table before the listing was begun. */
    method PutNames(ghost root: Val, ghost before: Ledger, id: nat, ghost listing: Issue, names: seq<string>,
        ghost rows0: Rows, ghost k: Key)
      requires Filling(root, before, rows, nextId, issued, id, listing, [])
      requires ListingRows(rows0, rows, k, id, [])
      requires RowTrue(root, listing.path, SFullAttrs) && listing.stored.SFullAttrs?
      requires forall name | name in names :: name in At(root, listing.path).value.attrs
      modifies this
      ensures Filling(root, before, rows, nextId, issued, id, listing, names)
      ensures ListingRows(rows0, rows, k, id, names)
    {
      hide RowTrue, Filling, ListingRows, At;
      for i := 0 to |names|
        invariant Filling(root, before, rows, nextId, issued, id, listing, names[..i])
        invariant ListingRows(rows0, rows, k, id, names[..i])
      {
        assert names[..i] + [names[i]] == names[..i + 1];
        ListingNext(rows0, rows, k, id, names[..i], names[i], nextId);
        PutName(root, before, id, listing, names[..i], names[i]);
      }
      assert names[..|names|] == names;
    }

    method PutName(ghost root: Val, ghost before: Ledger, id: nat, ghost listing: Issue,
        ghost names: seq<string>, name: string)
      requires Filling(root, before, rows, nextId, issued, id, listing, names)
      requires RowTrue(root, listing.path, SFullAttrs) && listing.stored.SFullAttrs?
      requires name in At(root, listing.path).value.attrs
      modifies this
      ensures Filling(root, before, rows, nextId, issued, id, listing, names + [name])
      ensures rows == old(rows)[Key(id, name) := Row(old(nextId), SPlaceholder)]
    {
      FillStep(root, before, rows, nextId, issued, id, listing, names, name);
      FillingSound(root, before, rows, nextId, issued, id, listing, names);
      hide Sound, RowTrue, Filling, At;
      var _ := Insert(root, Key(id, name), SPlaceholder);
    }

    method GetAttr(ghost root: Val, k: Key) returns (r: Option<(nat, Cached)>)
      requires Ok(root)
      ensures r.None? <==> k !in rows
      ensures r.Some? ==> HasPath(k, issued) && CopyOf(root, issued, KeyPath(k, issued), r.value.0, r.value.1)
      ensures r.Some? ==> r.value == RowCopy(k, rows)
    {
      if k !in rows {
        return None;
      }
      assert RowOk(k, rows[k], issued);
      var id := rows[k].id;
      match rows[k].stored {
        case SPlaceholder => r := Some((id, Placeholder));
        case SFullAttrs =>
          assert Listed(root, id, issued[id].path, rows);
          var names := NamesUnder(id, rows);
          assert forall name :: name in names <==> Key(id, name) in rows;
          assert names == At(root, issued[id].path).value.attrs.Keys;
          r := Some((id, FullAttrs(names)));
        case SString(text) => r := Some((id, String(text)));
        case SBool(b) => r := Some((id, Bool(b)));
        case SInt(i) => r := Some((id, Int(i)));
        case SStrings(text) =>
          var l := Tokenize(text);
          r := Some((id, Strings(l)));
        case SMissing => r := Some((id, Missing));
        case SMisc => r := Some((id, Misc));
        case SFailed => r := Some((id, Failed));
      }
    }
  }

  /** The cursors of one session; `root` is what the root evaluates to, `db` may be absent. */
  class EvalCache {
    const root: Val
    const db: AttrDb?
    ghost var cursors: set<AttrCursor>

    ghost predicate Valid()
      reads this, db, cursors
    {
      (db != null ==> db.Ok(root)) && forall c {:trigger CursorOk(c)} | c in cursors :: CursorOk(c)
    }

    ghost predicate CursorOk(c: AttrCursor)
      requires c in cursors
      reads this, db, cursors
    {
      && c.cache == this
      && (if c.parent == null then c.path == [] else c.parent in cursors && c.path == c.parent.path + [c.name])
      && At(root, c.path).Some?
      && (c.value.Some? ==> At(root, c.path) == c.value)
      && (c.cached.Some? ==> db != null && CopyOf(root, db.issued, c.path, c.cached.value.0, c.cached.value.1))
      && (db != null && c.parent != null ==> c.parent.cached.Some?)
    }

    /** Opening a session, possibly on a table written by earlier ones. */
    constructor (root: Val, db: AttrDb?)
      requires db != null ==> db.Ok(root)
      ensures Valid() && this.root == root && this.db == db && cursors == {}
    {
      this.root, this.db, this.cursors := root, db, {};
    }

    method GetRoot() returns (c: AttrCursor)
      requires Valid()
      modifies this
      ensures Valid() && fresh(c) && cursors == old(cursors) + {c} && c.path == []
      ensures c.cache == this && c.parent == null && c.cached == None
    {
      c := new AttrCursor(this, null, "", None, None);
      ghost var before := cursors;
      cursors := cursors + {c};
      forall o | o in cursors ensures CursorOk(o) {
        assert o in before ==> old(CursorOk(o));
      }
    }
  }

  class AttrCursor {
    const cache: EvalCache
    const parent: AttrCursor?
    const name: string
    ghost const path: Path
    var value: Option<Val>
    var cached: Option<(nat, Cached)>

    constructor (cache: EvalCache, parent: AttrCursor?, name: string, value: Option<Val>, cached: Option<(nat, Cached)>)
      ensures this.cache == cache && this.parent == parent && this.name == name
      ensures this.value == value && this.cached == cached
      ensures path == if parent == null then [] else parent.path + [name]
    {
      this.cache, this.parent, this.name, this.value, this.cached := cache, parent, name, value, cached;
      this.path := if parent == null then [] else parent.path + [name];
    }

    ghost predicate Live()
      reads this, cache, cache.db, cache.cursors
    {
      cache.Valid() && this in cache.cursors && cache.CursorOk(this)
    }

    /** What the evaluator finds at this cursor's path. */
    ghost function Here(): Val
      requires Live()
      reads this, cache, cache.db, cache.cursors
    {
      At(cache.root, path).value
    }

    ghost function KeyHere(): Key
      requires Live() && cache.db != null
      reads this, cache, cache.db, cache.cursors
    {
      if parent == null then ROOT_KEY else Key(parent.cached.value.0, name)
    }

    lemma CopyIdPositive()
      requires Live()
      ensures cached.Some? ==> 0 < cached.value.0
    {
    }

    lemma RootKeyHere()
      requires Live()
      ensures cache.db != null && parent == null ==> KeyHere() == ROOT_KEY
    {
    }

    /** Whether this cursor has a row in the table. */
    ghost predicate HasRow()
      requires Live()
      reads this, cache, cache.db, cache.cursors
    {
      cache.db != null && KeyHere() in cache.db.rows
    }

    ghost function RowHere(): Row
      requires Live() && HasRow()
      reads this, cache, cache.db, cache.cursors
    {
      cache.db.rows[KeyHere()]
    }

    /** The copy the accessors start from: the one in memory, or failing that the row read back. */
    ghost function CopyHere(): Option<(nat, Cached)>
      requires Live()
      reads this, cache, cache.db, cache.cursors
    {
      if cache.db == null || cached.Some? then cached
      else if HasRow() then Some(RowCopy(KeyHere(), cache.db.rows))
      else None
    }

    /** What that copy says of the value; a placeholder says nothing. */
    ghost function Recorded(): Option<Cached>
      requires Live()
      reads this, cache, cache.db, cache.cursors
    {
      if CopyHere().None? || CopyHere().value.1.Placeholder? then None else Some(CopyHere().value.1)
    }

    /** This cursor's row tells the truth about this cursor's path. */
    lemma RowHereTrue()
      requires Live() && HasRow()
      ensures RowTrue(cache.root, path, RowHere().stored)
      ensures RowHere().stored.SFullAttrs? ==> NamesUnder(RowHere().id, cache.db.rows) == Here().attrs.Keys
    {
      hide RowTrue, Complete, CopyTrue;
      var k := KeyHere();
      assert RowOk(k, cache.db.rows[k], cache.db.issued);
      if parent != null {
        assert cache.CursorOk(this) && cache.CursorOk(parent);
      }
      if RowHere().stored.SFullAttrs? {
        ListingNames(cache.root, cache.db.rows, cache.db.nextId, cache.db.issued, k);
      }
    }

    /** Whatever is recorded is true, up to what the columns can hold. */
    lemma RecordedTrue()
      requires Live()
      ensures Recorded().Some? ==> CopyTrue(cache.root, path, Recorded().value)
      ensures cache.db == null ==> Recorded().None?
    {
      hide Sound, Complete;
      if cached.None? && HasRow() {
        RowHereTrue();
        ReadTrue(cache.root, path, RowHere().stored, NamesUnder(RowHere().id, cache.db.rows));
      }
    }

    /** Without a table nothing is recorded. */
    lemma Unrecorded()
      requires Live()
      ensures cache.db == null ==> Recorded().None?
    {
    }

    /** What is recorded of an integer; read from the table it is the truncated one. */
    lemma RecordedInt()
      requires Live()
      ensures Recorded().Some? ==> (IntOf(Here()).Ok? <==> Recorded().value.Int?)
      ensures cache.db == null ==> Recorded().None?
      ensures IntOf(Here()).Ok? && cached.None? && HasRow() && !RowHere().stored.SPlaceholder? ==>
        Recorded() == Some(Int(ToInt32(IntOf(Here()).value)))
    {
      hide Sound, Complete, AttrDb.Ok;
      RecordedTrue();
      if cached.None? && HasRow() {
        RowHereTrue();
      }
    }

    /** What is recorded of a list of strings; read from the table it is the joined and split one. */
    lemma RecordedStrings()
      requires Live()
      ensures Recorded().Some? && StringsOf(Here()).Ok? ==> Recorded().value.Strings? || Recorded().value.Misc?
      ensures Recorded().Some? && Recorded().value.Strings? ==> StringsOf(Here()).Ok?
      ensures cache.db == null ==> Recorded().None?
      ensures StringsOf(Here()).Ok? && cached.None? && HasRow() && RowHere().stored.SStrings? ==>
        Recorded() == Some(Strings(Tokens(Join(StringsOf(Here()).value))))
      ensures cached.None? && HasRow() && RowHere().stored.SMisc? ==> Recorded() == Some(Misc)
    {
      hide Sound, Complete, AttrDb.Ok;
      StringsOfMeans(Here());
      RecordedTrue();
      if cached.None? && HasRow() {
        RowHereTrue();
      }
    }

    /** A recorded failure is raised at once, except at the root. */
    ghost predicate KnownToFail()
      requires Live()
      reads this, cache, cache.db, cache.cursors
    {
      parent != null && Recorded() == Some(Failed)
    }

    /** The parent's copy is always there, so the assertion of the fallback never runs. */
    method GetKey() returns (k: Key)
      requires Live() && cache.db != null
      ensures MayPut(k, cache.db.rows, cache.db.issued) && KeyPath(k, cache.db.issued) == path
      ensures k == KeyHere()
    {
      if parent == null {
        return ROOT_KEY;
      }
      assert cache.CursorOk(this) && cache.CursorOk(parent);
      if parent.cached.None? {
        assert false;
      }
      var id := parent.cached.value.0;
      k := Key(id, name);
      AtChild(cache.root, parent.path, name);
      ghost var issued := cache.db.issued;
      if issued[id].stored.SFullAttrs? {
        assert Listed(cache.root, id, issued[id].path, cache.db.rows);
      }
    }

    /** Ids keep their meaning. */
    twostate predicate Grows()
      reads cache, cache.db
    {
      cache.db != null ==> Extends(old(cache.db.issued), cache.db.issued)
    }

    /** The value comes from the parent's; a cursor's attribute is never missing there. */
    method GetValue() returns (v: Val)
      requires Live()
      modifies cache.cursors`value
      decreases |path|
      ensures Live() && v == old(Here())
    {
      hide CopyOf, Sound, Complete, AttrDb.Ok;
      if value.None? {
        if parent != null {
          assert cache.CursorOk(this) && cache.CursorOk(parent);
          AtChild(cache.root, parent.path, name);
          var vParent := parent.GetValue();
          if !vParent.Set? || name !in vParent.attrs {
            assert false;
          }
          SetValue(vParent.attrs[name]);
        } else {
          SetValue(cache.root);
        }
      }
      v := value.value;
    }

    method SetValue(v: Val)
      requires Live() && At(cache.root, path) == Some(v)
      modifies this`value
      ensures Live() && value == Some(v)
    {
      hide CopyOf, At, Sound, Complete, AttrDb.Ok;
      value := Some(v);
      forall o | o in cache.cursors ensures cache.CursorOk(o) {
        assert old(cache.CursorOk(o));
      }
    }

    method SetCopy(id: nat, c: Cached)
      requires Live() && cache.db != null
      requires CopyOf(cache.root, cache.db.issued, path, id, c)
      modifies this`cached
      ensures Live() && cached == Some((id, c))
    {
      hide CopyOf, At, Sound, Complete, AttrDb.Ok;
      cached := Some((id, c));
      forall o | o in cache.cursors ensures cache.CursorOk(o) {
        assert old(cache.CursorOk(o));
      }
    }

    /** A new row only adds to what is known, so every cursor's copy stays true. */
    twostate lemma CursorsStay()
      requires old(Live()) && cache.db != null && cache.db.Ok(cache.root)
      requires Extends(old(cache.db.issued), cache.db.issued)
      requires cache.cursors == old(cache.cursors)
      requires forall c | c in cache.cursors :: c.value == old(c.value) && c.cached == old(c.cached)
      ensures Live()
    {
      hide At, CopyOf, Extends;
      forall c | c in cache.cursors ensures cache.CursorOk(c) {
        assert old(cache.CursorOk(c));
        if c.cached.Some? {
          CopyStays(cache.root, old(cache.db.issued), cache.db.issued, c.path, c.cached.value.0, c.cached.value.1);
        }
      }
    }

    method Store(stored: Stored, c: Cached)
      requires Live() && cache.db != null && !stored.SFullAttrs?
      requires RowTrue(cache.root, path, stored) && CopyTrue(cache.root, path, c) && SameType(c, stored)
      modifies this`cached, cache.db
      ensures Live() && Grows()
      ensures cached.Some? && cached.value.1 == c
      ensures cache.db.rows == old(cache.db.rows)[old(KeyHere()) := Row(cached.value.0, stored)]
      ensures HasRow() && RowHere() == Row(cached.value.0, stored)
    {
      var k := GetKey();
      hide Sound, Complete, RowTrue, CopyTrue, SameType, At, MayPut, KeyPath;
      var id := cache.db.Put(cache.root, k, stored);
      CursorsStay();
      SetCopy(id, c);
    }

    /** The row and copy that describe a value once it has been forced. */
    static function Describe(v: Val): (d: (Stored, Cached))
      requires !v.Set?
    {
      match v
      case Text(s) => (SString(s), String(s))
      case Flag(b) => (SBool(b), Bool(b))
      case Number(i) => (SInt(ToInt32(i)), Int(i))
      case Fails => (SFailed, Failed)
      case _ => (SMisc, Misc)
    }

    /** No copy, or one that says nothing. */
    static predicate Blank(copy: Option<(nat, Cached)>) {
      copy.None? || copy.value.1.Placeholder?
    }

    /** Row and copy both describe `v`. */
    ghost predicate DescribedAs(v: Val)
      requires Live() && !v.Set?
      reads this, cache, cache.db, cache.cursors
    {
      HasRow() && RowHere().stored == Describe(v).0 && cached.Some? && cached.value.1 == Describe(v).1
    }

    /** Row and copy list these names, and each of them has a row. */
    ghost predicate ListedAs(names: set<string>)
      requires Live()
      reads this, cache, cache.db, cache.cursors
    {
      && HasRow() && RowHere().stored == SFullAttrs && cached == Some((RowHere().id, FullAttrs(names)))
      && forall name :: name in names <==> Key(RowHere().id, name) in cache.db.rows
    }

    method ForceValue() returns (r: Outcome<Val>)
      requires Live()
      modifies cache.cursors`value, this`cached, cache.db
      ensures Live() && Grows()
      ensures r == if old(Here()).Fails? then EvalError else Ok(old(Here()))
      ensures if old(Here()).Set? || cache.db == null || (!old(Here()).Fails? && !Blank(old(cached)))
        then cached == old(cached) && (cache.db != null ==> cache.db.rows == old(cache.db.rows))
        else DescribedAs(old(Here())) && cache.db.rows == old(cache.db.rows)[old(KeyHere()) := RowHere()]
    {
      var v := GetValue();
      if cache.db != null && (v.Fails? || (!v.Set? && Blank(cached))) {
        Store(Describe(v).0, Describe(v).1);
      }
      r := if v.Fails? then EvalError else Ok(v);
    }

    /** False when evaluation here is known to fail; the root is exempt. */
    method FetchCachedValue() returns (ok: bool)
      requires Live() && cache.db != null
      modifies this`cached
      ensures Live()
      ensures cached == old(CopyHere())
      ensures ok <==> !old(KnownToFail())
    {
      if cached.None? {
        var k := GetKey();
        var row := cache.db.GetAttr(cache.root, k);
        if row.Some? {
          SetCopy(row.value.0, row.value.1);
        }
      }
      ok := !(cached.Some? && cached.value.1.Failed? && parent != null);
    }

    /** The common start of the typed accessors: a copy that settles the matter, if any. */
    method Known() returns (stop: bool, c: Option<Cached>)
      requires Live()
      modifies this`cached
      ensures Live()
      ensures cached == old(CopyHere())
      ensures cache.db == null ==> !stop && c == None
      ensures cache.db != null ==> stop == old(KnownToFail()) && c == if stop then None else old(Recorded())
      ensures c.Some? ==> CopyTrue(cache.root, path, c.value) && !c.value.Placeholder?
      ensures stop ==> Here().Fails?
      ensures c.None? && !stop ==> cache.db == null || Blank(cached)
    {
      hide Sound, Complete, AttrDb.Ok, RowTrue, KeyPath, RowCopy;
      stop, c := false, None;
      if cache.db != null {
        var ok := FetchCachedValue();
        stop := !ok;
        if ok && cached.Some? && !cached.value.1.Placeholder? {
          c := Some(cached.value.1);
        }
      }
    }

    /** With or without a table, the string the evaluator has, or an error if there is none. */
    method GetString() returns (r: Outcome<string>)
      requires Live()
      modifies cache.cursors`value, this`cached, cache.db
      ensures Live() && Grows()
      ensures var plain := StringOf(old(Here()));
        if plain.Ok? then r == plain else !r.Ok?
      ensures cache.db != null && old(Recorded()).Some? ==> cache.db.rows == old(cache.db.rows)
      ensures r == if old(KnownToFail()) then CachedFailure else match old(Recorded()) {
          case None => StringOf(old(Here()))
          case Some(String(text)) => Ok(text)
          case Some(_) => TypeError
        }
      ensures cache.db != null && !old(Here()).Set? && old(Recorded()).None? ==> DescribedAs(old(Here()))
    {
      hide Sound, Complete, AttrDb.Ok, CopyOf, RowTrue, RowCopy, CopyHere, Recorded, HasRow, KeyHere;
      Unrecorded();
      var stop, c := Known();
      if stop {
        return CachedFailure;
      }
      if c.Some? {
        return if c.value.String? then Ok(c.value.text) else TypeError;
      }
      var v := ForceValue();
      if !v.Ok? {
        return EvalError;
      }
      r := if v.value.Text? then Ok(v.value.s) else TypeError;
    }

    method GetBool() returns (r: Outcome<bool>)
      requires Live()
      modifies cache.cursors`value, this`cached, cache.db
      ensures Live() && Grows()
      ensures var plain := BoolOf(old(Here()));
        if plain.Ok? then r == plain else !r.Ok?
      ensures cache.db != null && old(Recorded()).Some? ==> cache.db.rows == old(cache.db.rows)
      ensures r == if old(KnownToFail()) then CachedFailure else match old(Recorded()) {
          case None => BoolOf(old(Here()))
          case Some(Bool(b)) => Ok(b)
          case Some(_) => TypeError
        }
      ensures cache.db != null && !old(Here()).Set? && old(Recorded()).None? ==> DescribedAs(old(Here()))
    {
      hide Sound, Complete, AttrDb.Ok, CopyOf, RowTrue, RowCopy, CopyHere, Recorded, HasRow, KeyHere;
      Unrecorded();
      var stop, c := Known();
      if stop {
        return CachedFailure;
      }
      if c.Some? {
        return if c.value.Bool? then Ok(c.value.b) else TypeError;
      }
      var v := ForceValue();
      if !v.Ok? {
        return EvalError;
      }
      r := if v.value.Flag? then Ok(v.value.b) else TypeError;
    }

    /** The column holds a C `int`: outside its range a stored integer comes back truncated. The
        result is what is recorded, if anything is, and what the evaluator has otherwise; read
        from the table it is exact precisely in the range of a C `int`. */
    method GetInt() returns (r: Outcome<int>)
      requires Live()
      modifies cache.cursors`value, this`cached, cache.db
      ensures Live() && Grows()
      ensures var plain := IntOf(old(Here()));
        if !plain.Ok? then !r.Ok?
        else if old(Recorded()).Some? then old(Recorded()).value.Int? && r == Ok(old(Recorded()).value.i)
        else r == plain
      ensures var plain := IntOf(old(Here()));
        plain.Ok? && old(cached).None? && old(HasRow() && !RowHere().stored.SPlaceholder?) ==>
          && r == Ok(ToInt32(plain.value))
          && (r == plain <==> -0x8000_0000 <= plain.value < 0x8000_0000)
      ensures cache.db != null && old(Recorded()).Some? ==> cache.db.rows == old(cache.db.rows)
      ensures r == if old(KnownToFail()) then CachedFailure else match old(Recorded()) {
          case None => IntOf(old(Here()))
          case Some(Int(i)) => Ok(i)
          case Some(_) => TypeError
        }
      ensures cache.db != null && !old(Here()).Set? && old(Recorded()).None? ==> DescribedAs(old(Here()))
    {
      hide Sound, Complete, AttrDb.Ok, CopyOf, CopyTrue, RowTrue, RowCopy, CopyHere, Recorded, HasRow, At, ToInt32;
      RecordedInt();
      if IntOf(Here()).Ok? {
        ToInt32Exact(IntOf(Here()).value);
      }
      var stop, c := Known();
      if stop {
        return CachedFailure;
      }
      if c.Some? {
        return if c.value.Int? then Ok(c.value.i) else TypeError;
      }
      var v := ForceValue();
      if !v.Ok? {
        return EvalError;
      }
      r := if v.value.Number? then Ok(v.value.i) else TypeError;
    }

    /** A list of strings. What is recorded decides, if anything is: a list recorded as `Misc` is
        refused although the evaluator has it, and a list read from the table is exact precisely
        if joining and splitting keeps it. */
    method GetListOfStrings() returns (r: Outcome<seq<string>>)
      requires Live()
      modifies cache.cursors`value, this`cached, cache.db
      ensures Live() && Grows()
      ensures var plain := StringsOf(old(Here()));
        if !plain.Ok? then !r.Ok?
        else match old(Recorded())
          case None => r == plain
          case Some(Strings(l)) => r == Ok(l)
          case Some(c) => c.Misc? && r == TypeError
      ensures cache.db != null && old(Recorded()).Some? ==> cache.db.rows == old(cache.db.rows)
      ensures r == if old(KnownToFail()) then CachedFailure else match old(Recorded()) {
          case None => StringsOf(old(Here()))
          case Some(Strings(l)) => Ok(l)
          case Some(_) => TypeError
        }
      ensures var plain := StringsOf(old(Here()));
        plain.Ok? && old(cached).None? && old(HasRow() && RowHere().stored.SStrings?) ==>
          && r == Ok(Tokens(Join(plain.value)))
          && (r == plain <==> Storable(plain.value))
      ensures var plain := StringsOf(old(Here()));
        cache.db != null && plain.Ok? && old(Recorded()).None? ==>
          && HasRow() && RowHere().stored == SStrings(Join(plain.value))
          && cached.Some? && cached.value.1 == Strings(plain.value)
    {
      hide Sound, Complete, AttrDb.Ok, CopyOf, CopyTrue, RowTrue, RowCopy, CopyHere, Recorded, HasRow, At;
      hide Join, Tokens, Storable;
      StringsOfMeans(Here());
      RecordedStrings();
      if StringsOf(Here()).Ok? {
        RoundTrip(StringsOf(Here()).value);
      }
      var stop, c := Known();
      if stop {
        return CachedFailure;
      }
      if c.Some? {
        return if c.value.Strings? then Ok(c.value.l) else TypeError;
      }
      var v := GetValue();
      if !v.List? {
        return if v.Fails? then EvalError else TypeError;
      }
      var texts := CollectTexts(v.elems);
      if !texts.Ok? {
        return texts;
      }
      if cache.db != null {
        var text := Concat(texts.value);
        StringsTrue(cache.root, path, texts.value);
        Store(SStrings(text), Strings(texts.value));
      }
      r := texts;
    }

    static method CollectTexts(elems: seq<Val>) returns (r: Outcome<seq<string>>)
      ensures r == TextsIn(elems)
    {
      var res := [];
      assert elems[0..] == elems;
      AfterNext([], "", TextsIn(elems));
      for i := 0 to |elems|
        invariant TextsIn(elems) == After(res, TextsIn(elems[i..]))
      {
        assert elems[i..][1..] == elems[i + 1..];
        if !elems[i].Text? {
          return if elems[i].Fails? then EvalError else TypeError;
        }
        AfterNext(res, elems[i].s, TextsIn(elems[i + 1..]));
        res := res + [elems[i].s];
      }
      assert elems[|elems|..] == [] && res + [] == res;
      r := Ok(res);
    }

    static method Enumerate(names: set<string>) returns (l: seq<string>)
      ensures forall name :: name in l <==> name in names
    {
      l := [];
      var rest := names;
      while rest != {}
        invariant forall name :: name in names <==> name in l || name in rest
        decreases |rest|
      {
        var name :| name in rest;
        l, rest := l + [name], rest - {name};
      }
    }

    /** The attribute names, as a set. */
    method GetAttrs() returns (r: Outcome<set<string>>)
      requires Live()
      modifies cache.cursors`value, this`cached, cache.db
      ensures Live() && Grows()
      ensures var plain := AttrsOf(old(Here()));
        if plain.Ok? then r == plain else !r.Ok?
      ensures cache.db != null && old(Recorded()).Some? ==> cache.db.rows == old(cache.db.rows)
      ensures r == if old(KnownToFail()) then CachedFailure else match old(Recorded()) {
          case None => AttrsOf(old(Here()))
          case Some(FullAttrs(names)) => Ok(names)
          case Some(_) => TypeError
        }
      ensures cache.db != null && old(Recorded()).None? ==>
        if old(Here()).Set? then ListedAs(old(Here()).attrs.Keys) else DescribedAs(old(Here()))
    {
      hide Sound, Complete, AttrDb.Ok, CopyOf, RowTrue, RowCopy, CopyHere, Recorded, HasRow, KeyHere;
      Unrecorded();
      var stop, c := Known();
      if stop {
        return CachedFailure;
      }
      if c.Some? {
        return if c.value.FullAttrs? then Ok(c.value.names) else TypeError;
      }
      var v := ForceValue();
      if !v.Ok? {
        return EvalError;
      }
      if !v.value.Set? {
        return TypeError;
      }
      r := Ok(v.value.attrs.Keys);
      if cache.db != null {
        StoreAttrs(r.value);
      }
    }

    method StoreAttrs(names: set<string>)
      requires Live() && cache.db != null
      requires Here().Set? && names == Here().attrs.Keys
      modifies this`cached, cache.db
      ensures Live() && Grows() && ListedAs(names)
    {
      hide Sound, Complete, AttrDb.Ok, RowTrue, CopyTrue, CopyOf, At, MayPut, KeyPath, RowCopy, CopyHere, Recorded;
      NamesTrue(names);
      var l := Enumerate(names);
      var k := GetKey();
      var id := cache.db.PutAttrs(cache.root, k, l);
      NamesCopy(cache.root, cache.db.issued, path, id, k, names);
      CursorsStay();
      SetCopy(id, FullAttrs(names));
    }

    lemma NamesTrue(names: set<string>)
      requires Live() && Here().Set? && names == Here().attrs.Keys
      ensures RowTrue(cache.root, path, SFullAttrs) && CopyTrue(cache.root, path, FullAttrs(names))
    {
    }

    static lemma NamesCopy(root: Val, issued: Ledger, path: Path, id: nat, k: Key, names: set<string>)
      requires 0 < id && id in issued && issued[id] == Issue(k, path, SFullAttrs)
      requires CopyTrue(root, path, FullAttrs(names))
      ensures CopyOf(root, issued, path, id, FullAttrs(names))
    {
    }

    /** A cursor for attribute `name`, or null if there is none.  Differences from asking the
        evaluator: a failure already recorded is reported at once, and a root that is
        recorded as failing is treated as having no attributes. */
    method MaybeGetAttr(name: string) returns (r: Outcome<AttrCursor?>)
      requires Live()
      modifies cache.cursors`value, this`cached, cache.db, cache`cursors
      ensures Live() && Grows() && old(cache.cursors) <= cache.cursors && fresh(cache.cursors - old(cache.cursors))
      ensures r.Ok? && r.value != null ==>
        r.value in cache.cursors && r.value.parent == this && r.value.path == path + [name] && r.value.cache == cache
      ensures var here, plain := old(Here()), HasAttr(old(Here()), name);
        if r.Ok? then plain == Ok(r.value != null) || (here.Fails? && parent == null && r.value == null)
        else here.Fails? || (here.Set? && name in here.attrs && here.attrs[name].Fails? && r.CachedFailure?)
      ensures old(Here()).Fails? && parent == null ==> (r.Ok? <==> old(Recorded()) == Some(Failed))
      ensures !r.TypeError? && (r.CachedFailure? <==> old(KnownToFail()) || old(ChildKnownToFail(name)))
      ensures cache.db != null && old(Here()).Set? && old(Recorded()).None? ==> AttrRecorded(name)
      ensures cache.db != null && old(Here()).Set? && parent == null && old(CopyHere()).None? ==>
        cached.Some? && ROOT_KEY in cache.db.rows && cache.db.rows[ROOT_KEY] == Row(cached.value.0, SPlaceholder)
    {
      hide Sound, Complete, AttrDb.Ok, CopyOf, RowTrue;
      var stop, c := Known();
      if stop {
        return CachedFailure;
      }
      if c.Some? {
        if !c.value.FullAttrs? || name !in c.value.names {
          return Ok(null);
        }
        var child := NewChild(name, None, None);
        return Ok(child);
      }
      if cache.db != null && cached.Some? {
        var settled;
        settled, r := LookupRow(name);
        if settled {
          return;
        }
      }
      var v := ForceValue();
      if !v.Ok? {
        return EvalError;
      }
      if !v.value.Set? {
        return Ok(null);
      }
      r := Lookup(name, v.value.attrs);
    }

    /** Under this cursor's row it is recorded whether there is an attribute `name`. */
    ghost predicate AttrRecorded(name: string)
      requires Live() && Here().Set?
      reads this, cache, cache.db, cache.cursors
    {
      && cache.db != null && cached.Some? && cached.value.1.Placeholder?
      && var k := Key(cached.value.0, name);
         k in cache.db.rows && (cache.db.rows[k].stored.SMissing? <==> name !in Here().attrs)
    }

    /** This cursor's copy is a placeholder, and the row of attribute `name` under its id a failure. */
    ghost predicate ChildKnownToFail(name: string)
      requires Live()
      reads this, cache, cache.db, cache.cursors
    {
      && cache.db != null && CopyHere().Some? && CopyHere().value.1.Placeholder?
      && var k := Key(CopyHere().value.0, name);
         k in cache.db.rows && cache.db.rows[k].stored.SFailed?
    }

    /** What the table knows about `name` under this cursor's row. */
    method LookupRow(name: string) returns (settled: bool, r: Outcome<AttrCursor?>)
      requires Live() && cache.db != null && cached.Some? && cached.value.1.Placeholder?
      modifies cache`cursors
      ensures Live() && old(cache.cursors) <= cache.cursors && fresh(cache.cursors - old(cache.cursors))
      ensures settled ==> Here().Set?
      ensures settled && r.Ok? ==> (r.value != null <==> name in Here().attrs)
      ensures settled && !r.Ok? ==> r.CachedFailure? && name in Here().attrs && Here().attrs[name].Fails?
      ensures settled && !r.Ok? <==> ChildKnownToFail(name)
      ensures settled ==> AttrRecorded(name)
      ensures settled && r.Ok? && r.value != null ==>
        r.value in cache.cursors && r.value.parent == this && r.value.path == path + [name] && r.value.cache == cache
    {
      hide Sound, Complete, AttrDb.Ok, CopyOf, CopyTrue, KeyPath, HasPath, At;
      settled, r := false, Ok(null);
      var k := Key(cached.value.0, name);
      KeyBelow(cache.root, cache.db.issued, path, cached.value.0, cached.value.1, name);
      var row := cache.db.GetAttr(cache.root, k);
      if row.Some? {
        settled := true;
        CopyBelow(cache.root, cache.db.issued, path, name, row.value.0, row.value.1);
        if row.value.1.Missing? {
        } else if row.value.1.Failed? {
          r := CachedFailure;
        } else {
          var child := NewChild(name, None, row);
          r := Ok(child);
        }
      }
    }

    method NewChild(name: string, value: Option<Val>, row: Option<(nat, Cached)>) returns (c: AttrCursor)
      requires Live() && (cache.db != null ==> cached.Some?)
      requires At(cache.root, path + [name]).Some? && (value.Some? ==> value == At(cache.root, path + [name]))
      requires row.Some? ==>
        cache.db != null && CopyOf(cache.root, cache.db.issued, path + [name], row.value.0, row.value.1)
      modifies cache`cursors
      ensures Live() && fresh(c) && cache.cursors == old(cache.cursors) + {c}
      ensures c.parent == this && c.path == path + [name] && c.cache == cache
    {
      hide At, CopyOf, Sound, Complete, AttrDb.Ok;
      c := new AttrCursor(cache, this, name, value, row);
      ghost var before := cache.cursors;
      cache.cursors := cache.cursors + {c};
      forall o | o in cache.cursors ensures cache.CursorOk(o) {
        assert o in before ==> old(cache.CursorOk(o));
      }
    }

    /** The set is at hand; what is learned about `name` is recorded under this cursor's row. */
    method Lookup(name: string, attrs: map<string, Val>) returns (r: Outcome<AttrCursor?>)
      requires Live() && Here() == Set(attrs)
      requires cached.Some? ==> cached.value.1.Placeholder?
      modifies this`cached, cache.db, cache`cursors
      ensures Live() && Grows() && old(cache.cursors) <= cache.cursors && fresh(cache.cursors - old(cache.cursors))
      ensures r.Ok? && (r.value != null <==> name in attrs)
      ensures cache.db != null ==> AttrRecorded(name)
      ensures cache.db != null && parent == null && old(cached).None? ==>
        cached.Some? && ROOT_KEY in cache.db.rows && cache.db.rows[ROOT_KEY] == Row(cached.value.0, SPlaceholder)
      ensures r.value != null ==>
        r.value in cache.cursors && r.value.parent == this && r.value.path == path + [name] && r.value.cache == cache
    {
      hide Sound, Complete, AttrDb.Ok, CopyHere, Recorded, HasRow, KeyHere, RowCopy, CopyOf, RowTrue;
      AtChild(cache.root, path, name);
      AttrRow(name);
      var row := None;
      if cache.db != null {
        var id := RecordKnown(name, if name in attrs then SPlaceholder else SMissing);
        row := if name in attrs then Some((id, Placeholder)) else None;
      }
      if name !in attrs {
        return Ok(null);
      }
      var child := NewChild(name, Some(attrs[name]), row);
      r := Ok(child);
    }

    /** Which row tells the truth about an attribute of a set. */
    lemma AttrRow(name: string)
      requires Live() && Here().Set?
      ensures RowTrue(cache.root, path + [name], if name in Here().attrs then SPlaceholder else SMissing)
    {
      AtChild(cache.root, path, name);
      assert (path + [name])[..|path|] == path;
    }

    /** Record what is known about an attribute, under a placeholder for this cursor if it has no row yet. */
    method RecordKnown(name: string, stored: Stored) returns (id: nat)
      requires Live() && cache.db != null && (cached.Some? ==> cached.value.1.Placeholder?)
      requires stored.SPlaceholder? || stored.SMissing?
      requires RowTrue(cache.root, path + [name], stored)
      modifies this`cached, cache.db
      ensures Live() && Grows() && cached.Some? && cached.value.1.Placeholder?
      ensures stored.SPlaceholder? ==> CopyOf(cache.root, cache.db.issued, path + [name], id, Placeholder)
      ensures var k := Key(cached.value.0, name); k in cache.db.rows && cache.db.rows[k].stored == stored
      ensures parent == null && old(cached).None? ==>
        ROOT_KEY in cache.db.rows && cache.db.rows[ROOT_KEY] == Row(cached.value.0, SPlaceholder)
    {
      hide Sound, Complete, AttrDb.Ok, CopyHere, Recorded, HasRow, RowCopy, At;
      RootKeyHere();
      if cached.None? {
        PlaceholderTrue();
        Store(SPlaceholder, Placeholder);
      }
      CopyIdPositive();
      id := RecordAttr(name, stored);
    }

    lemma PlaceholderTrue()
      requires Live()
      ensures RowTrue(cache.root, path, SPlaceholder) && CopyTrue(cache.root, path, Placeholder)
    {
    }

    method RecordAttr(name: string, stored: Stored) returns (id: nat)
      requires Live() && cache.db != null && cached.Some? && cached.value.1.Placeholder?
      requires stored.SPlaceholder? || stored.SMissing?
      requires RowTrue(cache.root, path + [name], stored)
      modifies cache.db
      ensures Live() && Grows()
      ensures id in cache.db.issued && 0 < id && cache.db.issued[id].path == path + [name]
      ensures cache.db.issued[id].stored == stored
      ensures cache.db.rows == old(cache.db.rows)[Key(cached.value.0, name) := Row(id, stored)]
    {
      var k := Key(cached.value.0, name);
      assert MayPut(k, cache.db.rows, cache.db.issued) && KeyPath(k, cache.db.issued) == path + [name];
      hide RowTrue, At, MayPut, KeyPath;
      id := cache.db.Put(cache.root, k, stored);
      CursorsStay();
    }

    /** Walking a path through cursors ends where the evaluator's walk ends. */
    method FindAlongAttrPath(names: seq<string>) returns (r: Outcome<AttrCursor?>)
      requires Live()
      modifies cache.cursors`value, cache.cursors`cached, cache.db, cache`cursors
      ensures Live() && Grows() && old(cache.cursors) <= cache.cursors && fresh(cache.cursors - old(cache.cursors))
      ensures r.Ok? ==> FindFrom(old(Here()), names) == Ok(r.value != null)
      ensures r.Ok? && r.value != null ==> r.value in cache.cursors && r.value.path == path + names
      ensures !r.Ok? ==> !FindFrom(old(Here()), names).Ok? || At(cache.root, path + names) == Some(Fails)
    {
      hide Sound, Complete, AttrDb.Ok, CopyOf, FindFrom, At, RowCopy;
      var res := this;
      ghost var here := Here();
      for i := 0 to |names|
        invariant Live() && Grows() && old(cache.cursors) <= cache.cursors && fresh(cache.cursors - old(cache.cursors))
        invariant res in cache.cursors && res.cache == cache && cache.CursorOk(res)
        invariant res.path == path + names[..i]
        invariant FindFrom(here, names) == FindFrom(At(cache.root, res.path).value, names[i..])
      {
        FindStep(cache.root, res.path, names, i);
        assert names[..i + 1] == names[..i] + [names[i]];
        var child := res.MaybeGetAttr(names[i]);
        if !child.Ok? {
          if i + 1 == |names| {
            assert path + names == res.path + [names[i]];
          } else {
            FindFails(names[i + 1..]);
          }
          return child;
        }
        if child.value == null {
          var suggestions := res.GetAttrs();
          return match suggestions
            case Ok(_) => Ok(null)
            case EvalError => EvalError
            case TypeError => TypeError
            case CachedFailure => CachedFailure;
        }
        res := child.value;
      }
      assert names[..|names|] == names;
      FindEnds(At(cache.root, res.path).value, names);
      r := Ok(res);
    }
  }
}
