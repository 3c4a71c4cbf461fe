/** What the evaluation cache stores, and what it would mean for a stored row to lie. */
module CacheModel {
  import opened Optional
  import opened CacheStrings

  type Path = seq<string>

  /** A lazy value, as the evaluator would reveal it: forcing a node is deterministic. */
  datatype Val =
    | Text(s: string)
    | Flag(b: bool)
    | Number(i: int)
    | Set(attrs: map<string, Val>)
    | List(elems: seq<Val>)
    | Other
    | Fails

  /** The value at an attribute path, if there is one. */
  function At(root: Val, path: Path): (v: Option<Val>)
  {
    if path == [] then Some(root)
    else
      match At(root, path[..|path| - 1])
      case Some(Set(attrs)) =>
        if path[|path| - 1] in attrs then Some(attrs[path[|path| - 1]]) else None
      case _ => None
  }

  lemma AtChild(root: Val, path: Path, name: string)
    ensures At(root, path + [name]) ==
      match At(root, path) {
        case Some(Set(attrs)) => if name in attrs then Some(attrs[name]) else None
        case _ => None
      }
  {
    assert (path + [name])[..|path|] == path;
  }

  /** The column types of a row; `SInt` holds what fits a C `int`. */
  datatype Stored =
    | SPlaceholder
    | SFullAttrs
    | SString(text: string)
    | SBool(b: bool)
    | SInt(i: int)
    | SStrings(text: string)
    | SMissing
    | SMisc
    | SFailed

  /** A cursor's in-memory copy of a row. */
  datatype Cached =
    | Placeholder
    | FullAttrs(names: set<string>)
    | String(text: string)
    | Bool(b: bool)
    | Int(i: int)
    | Strings(l: seq<string>)
    | Missing
    | Misc
    | Failed

  /** Truncation of a 64-bit integer to 32 bits, two's complement. */
  function ToInt32(i: int): (r: int)
    ensures -0x8000_0000 <= r < 0x8000_0000
    ensures r == i <==> -0x8000_0000 <= i < 0x8000_0000
  {
    (i + 0x8000_0000) % 0x1_0000_0000 - 0x8000_0000
  }

  /** The result is the number in that range that differs by a multiple of 2^32. */
  lemma ToInt32Means(i: int, r: int)
    ensures ToInt32(i) == r <==> -0x8000_0000 <= r < 0x8000_0000 && (r - i) % 0x1_0000_0000 == 0
  {
    var m := 0x1_0000_0000;
    var t, q := ToInt32(i), (i + 0x8000_0000) / m;
    assert i + 0x8000_0000 == m * q + (i + 0x8000_0000) % m;
    assert t - i == m * -q;
    assert (m * -q) % m == 0;
    if -0x8000_0000 <= r < 0x8000_0000 && (r - i) % m == 0 {
      var k := (r - i) / m;
      assert r - t == m * (k + q);
      assert k + q == 0;
    }
  }

  lemma ToInt32Exact(i: int)
    ensures ToInt32(i) == i <==> -0x8000_0000 <= i < 0x8000_0000
  {
  }

  function Texts(elems: seq<Val>): Option<seq<string>> {
    if elems == [] then Some([])
    else if !elems[0].Text? then None
    else
      match Texts(elems[1..])
      case Some(l) => Some([elems[0].s] + l)
      case None => None
  }

  /** A set is there, without the last attribute of the path. */
  predicate IsMissing(root: Val, path: Path) {
    && path != [] && At(root, path).None?
    && At(root, path[..|path| - 1]).Some? && At(root, path[..|path| - 1]).value.Set?
  }

  /** The row `stored` tells the truth about the value at `path`. */
  predicate RowTrue(root: Val, path: Path, stored: Stored) {
    match stored
    case SPlaceholder => At(root, path).Some?
    case SFullAttrs => At(root, path).Some? && At(root, path).value.Set?
    case SString(text) => At(root, path) == Some(Text(text))
    case SBool(b) => At(root, path) == Some(Flag(b))
    case SInt(i) => At(root, path).Some? && At(root, path).value.Number? && i == ToInt32(At(root, path).value.i)
    case SStrings(text) =>
      && At(root, path).Some? && At(root, path).value.List?
      && Texts(At(root, path).value.elems).Some? && text == Join(Texts(At(root, path).value.elems).value)
    case SMissing => IsMissing(root, path)
    case SMisc => At(root, path).Some? && (At(root, path).value.List? || At(root, path).value.Other?)
    case SFailed => At(root, path) == Some(Fails)
  }

  /* ---- the table ---- */

  /** The primary key; parent 0 with the empty name is the root. */
  datatype Key = Key(parent: nat, name: string)

  const ROOT_KEY := Key(0, "")

  datatype Row = Row(id: nat, stored: Stored)

  type Rows = map<Key, Row>

  /** What an id was issued for.  Replaced rows keep their entry. */
  datatype Issue = Issue(key: Key, path: Path, stored: Stored)

  type Ledger = map<nat, Issue>

  predicate HasPath(k: Key, issued: Ledger) {
    k == ROOT_KEY || (k.parent != 0 && k.parent in issued)
  }

  function KeyPath(k: Key, issued: Ledger): Path
    requires HasPath(k, issued)
  {
    if k == ROOT_KEY then [] else issued[k.parent].path + [k.name]
  }

  predicate RowOk(k: Key, row: Row, issued: Ledger) {
    && row.id in issued && HasPath(k, issued)
    && issued[row.id] == Issue(k, KeyPath(k, issued), row.stored)
  }

  /** Every id stands for one key and path, and every row ever written is true. */
  predicate Sound(root: Val, rows: Rows, nextId: nat, issued: Ledger) {
    && 0 < nextId
    && (forall id | id in issued :: 0 < id < nextId && RowTrue(root, issued[id].path, issued[id].stored))
    && (forall k | k in rows :: RowOk(k, rows[k], issued))
  }

  /** The rows under an id issued for a listing are exactly the attributes of that set. */
  ghost predicate Listed(root: Val, id: nat, path: Path, rows: Rows) {
    && At(root, path).Some? && At(root, path).value.Set?
    && forall name :: Key(id, name) in rows <==> name in At(root, path).value.attrs
  }

  ghost predicate Complete(root: Val, rows: Rows, issued: Ledger) {
    forall id | id in issued && issued[id].stored.SFullAttrs? :: Listed(root, id, issued[id].path, rows)
  }

  /** A row may be put at `k` without adding an attribute to a listed set. */
  predicate MayPut(k: Key, rows: Rows, issued: Ledger) {
    HasPath(k, issued) && (k.parent in issued && issued[k.parent].stored.SFullAttrs? ==> k in rows)
  }

  lemma MayPutPath(k: Key, rows: Rows, issued: Ledger)
    requires MayPut(k, rows, issued)
    ensures HasPath(k, issued)
  {
  }

  predicate Extends(old_: Ledger, new_: Ledger) {
    forall id | id in old_ :: id in new_ && new_[id] == old_[id]
  }

  /** `insert or replace` gives the row a new id, and no row or id starts to lie. */
  lemma InsertSound(root: Val, rows: Rows, nextId: nat, issued: Ledger, k: Key, stored: Stored)
    requires Sound(root, rows, nextId, issued)
    requires HasPath(k, issued) && RowTrue(root, KeyPath(k, issued), stored)
    ensures var issued' := issued[nextId := Issue(k, KeyPath(k, issued), stored)];
      && Extends(issued, issued')
      && Sound(root, rows[k := Row(nextId, stored)], nextId + 1, issued')
  {
    var issued' := issued[nextId := Issue(k, KeyPath(k, issued), stored)];
    var rows' := rows[k := Row(nextId, stored)];
    forall k' | k' in rows' ensures RowOk(k', rows'[k'], issued') {
      if k' != k {
        assert RowOk(k', rows[k'], issued);
      }
    }
  }

  /** Two keys never share an id. */
  lemma IdsDistinct(root: Val, rows: Rows, nextId: nat, issued: Ledger, k: Key, k': Key)
    requires Sound(root, rows, nextId, issued) && k in rows && k' in rows && rows[k].id == rows[k'].id
    ensures k == k'
  {
    assert RowOk(k, rows[k], issued) && RowOk(k', rows[k'], issued);
  }

  /** While a listing is being written: its id is new, the names so far have rows, and the
      listings made before are untouched. */
  ghost predicate Filling(root: Val, before: Ledger, rows: Rows, nextId: nat, issued: Ledger,
      id: nat, listing: Issue, names: seq<string>)
  {
    && Sound(root, rows, nextId, issued) && Extends(before, issued)
    && id !in before && id in issued && issued[id] == listing
    && (forall o | o in issued && issued[o].stored.SFullAttrs? :: o in before || o == id)
    && (forall o | o in before && before[o].stored.SFullAttrs? :: Listed(root, o, before[o].path, rows))
    && (forall name :: Key(id, name) in rows <==> name in names)
  }

  lemma FillStart(root: Val, rows: Rows, nextId: nat, issued: Ledger, k: Key)
    requires Sound(root, rows, nextId, issued) && Complete(root, rows, issued) && MayPut(k, rows, issued)
    requires RowTrue(root, KeyPath(k, issued), SFullAttrs)
    ensures var listing := Issue(k, KeyPath(k, issued), SFullAttrs);
      Filling(root, issued, rows[k := Row(nextId, SFullAttrs)], nextId + 1, issued[nextId := listing],
              nextId, listing, [])
  {
    InsertSound(root, rows, nextId, issued, k, SFullAttrs);
    var rows' := rows[k := Row(nextId, SFullAttrs)];
    var issued' := issued[nextId := Issue(k, KeyPath(k, issued), SFullAttrs)];
    hide At, RowTrue;
    forall name ensures Key(nextId, name) !in rows' {
      assert Key(nextId, name) in rows ==> RowOk(Key(nextId, name), rows[Key(nextId, name)], issued);
    }
    forall o | o in issued && issued[o].stored.SFullAttrs? ensures Listed(root, o, issued[o].path, rows') {
      assert Listed(root, o, issued[o].path, rows);
    }
  }

  lemma FillKey(root: Val, issued: Ledger, id: nat, listing: Issue, name: string)
    requires 0 < id && id in issued && issued[id] == listing
    requires listing.stored.SFullAttrs? && At(root, listing.path).Some? && At(root, listing.path).value.Set?
    requires name in At(root, listing.path).value.attrs
    ensures var k := Key(id, name); HasPath(k, issued) && RowTrue(root, KeyPath(k, issued), SPlaceholder)
  {
    AtChild(root, listing.path, name);
  }

  lemma FillStep(root: Val, before: Ledger, rows: Rows, nextId: nat, issued: Ledger,
      id: nat, listing: Issue, names: seq<string>, name: string)
    requires Filling(root, before, rows, nextId, issued, id, listing, names)
    requires listing.stored.SFullAttrs? && At(root, listing.path).Some? && At(root, listing.path).value.Set?
    requires name in At(root, listing.path).value.attrs
    ensures var k := Key(id, name);
      && HasPath(k, issued) && RowTrue(root, KeyPath(k, issued), SPlaceholder)
      && Filling(root, before, rows[k := Row(nextId, SPlaceholder)], nextId + 1,
                 issued[nextId := Issue(k, KeyPath(k, issued), SPlaceholder)], id, listing, names + [name])
  {
    hide At, RowTrue, RowOk, HasPath, KeyPath, Sound;
    SoundIds(root, rows, nextId, issued);
    FillKey(root, issued, id, listing, name);
    var k := Key(id, name);
    InsertSound(root, rows, nextId, issued, k, SPlaceholder);
    var rows' := rows[k := Row(nextId, SPlaceholder)];
    forall o | o in before && before[o].stored.SFullAttrs? ensures Listed(root, o, before[o].path, rows') {
      assert Listed(root, o, before[o].path, rows);
    }
  }

  lemma SoundIds(root: Val, rows: Rows, nextId: nat, issued: Ledger)
    requires Sound(root, rows, nextId, issued)
    ensures forall id | id in issued :: 0 < id < nextId
  {
  }

  lemma FillingSound(root: Val, before: Ledger, rows: Rows, nextId: nat, issued: Ledger,
      id: nat, listing: Issue, names: seq<string>)
    requires Filling(root, before, rows, nextId, issued, id, listing, names)
    ensures Sound(root, rows, nextId, issued)
  {
  }

  lemma FillingComplete(root: Val, before: Ledger, rows: Rows, nextId: nat, issued: Ledger,
      id: nat, listing: Issue, names: seq<string>)
    requires Filling(root, before, rows, nextId, issued, id, listing, names)
    requires At(root, listing.path).Some? && At(root, listing.path).value.Set?
    requires forall name :: name in names <==> name in At(root, listing.path).value.attrs
    ensures Sound(root, rows, nextId, issued) && Complete(root, rows, issued) && Extends(before, issued)
    ensures id in issued && issued[id] == listing
  {
    assert Listed(root, id, listing.path, rows);
  }

  /** What writing a listing does to the table: its row, a placeholder for each name under its id, and nothing else. */
  ghost predicate ListingRows(before: Rows, after: Rows, k: Key, id: nat, names: seq<string>) {
    && k.parent != id && k in after && after[k] == Row(id, SFullAttrs)
    && (forall name | name in names :: Key(id, name) in after && after[Key(id, name)].stored == SPlaceholder)
    && (forall q | q != k && q.parent != id :: q in after <==> q in before)
    && (forall q | q != k && q.parent != id && q in before :: after[q] == before[q])
  }

  lemma ListingBegins(root: Val, rows: Rows, nextId: nat, issued: Ledger, k: Key)
    requires Sound(root, rows, nextId, issued) && HasPath(k, issued)
    ensures 0 < nextId && ListingRows(rows, rows[k := Row(nextId, SFullAttrs)], k, nextId, [])
  {
    hide RowTrue, RowOk;
  }

  lemma ListingNext(before: Rows, after: Rows, k: Key, id: nat, names: seq<string>, name: string, n: nat)
    requires ListingRows(before, after, k, id, names)
    ensures ListingRows(before, after[Key(id, name) := Row(n, SPlaceholder)], k, id, names + [name])
  {
  }

  lemma FillingNames(root: Val, before: Ledger, rows: Rows, nextId: nat, issued: Ledger,
      id: nat, listing: Issue, names: seq<string>)
    requires Filling(root, before, rows, nextId, issued, id, listing, names)
    ensures forall name :: name in names <==> Key(id, name) in rows
  {
    hide Sound, Extends, Listed;
  }

  /** Only a listing's own rows matter to it. */
  lemma PutComplete(root: Val, rows: Rows, nextId: nat, issued: Ledger, k: Key, stored: Stored)
    requires Sound(root, rows, nextId, issued) && Complete(root, rows, issued)
    requires MayPut(k, rows, issued) && !stored.SFullAttrs?
    ensures Complete(root, rows[k := Row(nextId, stored)], issued[nextId := Issue(k, KeyPath(k, issued), stored)])
  {
    var rows', issued' := rows[k := Row(nextId, stored)], issued[nextId := Issue(k, KeyPath(k, issued), stored)];
    forall o | o in issued' && issued'[o].stored.SFullAttrs? ensures Listed(root, o, issued'[o].path, rows') {
      assert Listed(root, o, issued[o].path, rows);
    }
  }

  /** The in-memory copy tells the truth, up to what the column can hold. */
  predicate CopyTrue(root: Val, path: Path, c: Cached) {
    match c
    case Placeholder => At(root, path).Some?
    case FullAttrs(names) =>
      At(root, path).Some? && At(root, path).value.Set? && names == At(root, path).value.attrs.Keys
    case String(text) => At(root, path) == Some(Text(text))
    case Bool(b) => At(root, path) == Some(Flag(b))
    case Int(i) =>
      && At(root, path).Some? && At(root, path).value.Number?
      && (i == At(root, path).value.i || i == ToInt32(At(root, path).value.i))
    case Strings(l) =>
      && At(root, path).Some? && At(root, path).value.List?
      && Texts(At(root, path).value.elems).Some?
      && var texts := Texts(At(root, path).value.elems).value; (l == texts || l == Tokens(Join(texts)))
    case Missing => IsMissing(root, path)
    case Misc => At(root, path).Some? && (At(root, path).value.List? || At(root, path).value.Other?)
    case Failed => At(root, path) == Some(Fails)
  }

  /** The copy and the row it came from are of the same type. */
  predicate SameType(c: Cached, stored: Stored) {
    match c
    case Placeholder => stored.SPlaceholder?
    case FullAttrs(_) => stored.SFullAttrs?
    case String(_) => stored.SString?
    case Bool(_) => stored.SBool?
    case Int(_) => stored.SInt?
    case Strings(_) => stored.SStrings?
    case Missing => stored.SMissing?
    case Misc => stored.SMisc?
    case Failed => stored.SFailed?
  }

  /** What a row is read back as; `names` are those of the rows under its id. */
  function ReadAs(stored: Stored, names: set<string>): (c: Cached)
    ensures SameType(c, stored)
  {
    match stored
    case SPlaceholder => Placeholder
    case SFullAttrs => FullAttrs(names)
    case SString(text) => String(text)
    case SBool(b) => Bool(b)
    case SInt(i) => Int(i)
    case SStrings(text) => Strings(Tokens(text))
    case SMissing => Missing
    case SMisc => Misc
    case SFailed => Failed
  }

  function NamesUnder(id: nat, rows: Rows): set<string> {
    set k | k in rows && k.parent == id :: k.name
  }

  /** The id and content obtained by reading the row at `k`. */
  function RowCopy(k: Key, rows: Rows): (nat, Cached)
    requires k in rows
  {
    (rows[k].id, ReadAs(rows[k].stored, NamesUnder(rows[k].id, rows)))
  }

  /** A listing is read back as the names of the set. */
  lemma ListingNames(root: Val, rows: Rows, nextId: nat, issued: Ledger, k: Key)
    requires Sound(root, rows, nextId, issued) && Complete(root, rows, issued)
    requires k in rows && rows[k].stored.SFullAttrs?
    ensures HasPath(k, issued) && At(root, KeyPath(k, issued)).Some? && At(root, KeyPath(k, issued)).value.Set?
    ensures NamesUnder(rows[k].id, rows) == At(root, KeyPath(k, issued)).value.attrs.Keys
  {
    assert RowOk(k, rows[k], issued);
    var id := rows[k].id;
    assert Listed(root, id, issued[id].path, rows);
    assert forall name :: name in NamesUnder(id, rows) <==> Key(id, name) in rows;
  }

  lemma StringsTrue(root: Val, path: Path, l: seq<string>)
    requires At(root, path).Some? && At(root, path).value.List? && Texts(At(root, path).value.elems) == Some(l)
    ensures RowTrue(root, path, SStrings(Join(l))) && CopyTrue(root, path, Strings(l))
  {
  }

  /** Reading a true row back gives a copy that is true up to what the columns can hold. */
  lemma ReadTrue(root: Val, path: Path, stored: Stored, names: set<string>)
    requires RowTrue(root, path, stored)
    requires stored.SFullAttrs? ==> names == At(root, path).value.attrs.Keys
    ensures CopyTrue(root, path, ReadAs(stored, names))
  {
  }

  /** A copy held in memory: a truthful copy of a row once issued for `path`. */
  predicate CopyOf(root: Val, issued: Ledger, path: Path, id: nat, c: Cached) {
    && id in issued && 0 < id && issued[id].path == path
    && CopyTrue(root, path, c) && SameType(c, issued[id].stored)
  }

  /** The keys below a copied row stand for the attributes below its path. */
  lemma KeyBelow(root: Val, issued: Ledger, path: Path, id: nat, c: Cached, name: string)
    requires CopyOf(root, issued, path, id, c)
    ensures HasPath(Key(id, name), issued) && KeyPath(Key(id, name), issued) == path + [name]
  {
  }

  /** What a copy of an attribute's row says about the set it belongs to. */
  lemma CopyBelow(root: Val, issued: Ledger, path: Path, name: string, id: nat, c: Cached)
    requires CopyOf(root, issued, path + [name], id, c) && At(root, path).Some?
    ensures var v := At(root, path).value;
      && v.Set? && (c.Missing? <==> name !in v.attrs) && (c.Failed? ==> v.attrs[name].Fails?)
      && (!c.Missing? ==> At(root, path + [name]).Some?)
  {
    AtChild(root, path, name);
    assert (path + [name])[..|path|] == path;
  }

  lemma CopyStays(root: Val, before: Ledger, after: Ledger, path: Path, id: nat, c: Cached)
    requires CopyOf(root, before, path, id, c) && Extends(before, after)
    ensures CopyOf(root, after, path, id, c)
  {
  }

  /* ---- what the accessors return without a table ---- */

  datatype Outcome<+T> = Ok(value: T) | EvalError | TypeError | CachedFailure

  function StringOf(v: Val): Outcome<string> {
    match v
    case Text(s) => Ok(s)
    case Fails => EvalError
    case _ => TypeError
  }

  function BoolOf(v: Val): Outcome<bool> {
    match v
    case Flag(b) => Ok(b)
    case Fails => EvalError
    case _ => TypeError
  }

  function IntOf(v: Val): Outcome<int> {
    match v
    case Number(i) => Ok(i)
    case Fails => EvalError
    case _ => TypeError
  }

  /** The texts of a list, or what the first element that is none gives. */
  function TextsIn(elems: seq<Val>): Outcome<seq<string>> {
    if elems == [] then Ok([])
    else if elems[0].Fails? then EvalError
    else if !elems[0].Text? then TypeError
    else After([elems[0].s], TextsIn(elems[1..]))
  }

  function After(texts: seq<string>, r: Outcome<seq<string>>): Outcome<seq<string>> {
    if r.Ok? then Ok(texts + r.value) else r
  }

  lemma AfterNext(texts: seq<string>, s: string, r: Outcome<seq<string>>)
    ensures After(texts, After([s], r)) == After(texts + [s], r) && After([], r) == r
  {
    if r.Ok? {
      assert texts + ([s] + r.value) == (texts + [s]) + r.value && [] + r.value == r.value;
    }
  }

  lemma {:induction false} TextsInMeans(elems: seq<Val>)
    ensures TextsIn(elems).Ok? <==> Texts(elems).Some?
    ensures TextsIn(elems).Ok? ==> TextsIn(elems).value == Texts(elems).value
    ensures !TextsIn(elems).CachedFailure?
  {
    if elems == [] {
    } else {
      TextsInMeans(elems[1..]);
    }
  }

  lemma StringsOfMeans(v: Val)
    ensures StringsOf(v).Ok? <==> v.List? && Texts(v.elems).Some?
    ensures StringsOf(v).Ok? ==> StringsOf(v).value == Texts(v.elems).value
    ensures !StringsOf(v).CachedFailure?
  {
    if v.List? {
      TextsInMeans(v.elems);
    }
  }

  function StringsOf(v: Val): Outcome<seq<string>> {
    match v
    case List(elems) => TextsIn(elems)
    case Fails => EvalError
    case _ => TypeError
  }

  function AttrsOf(v: Val): Outcome<set<string>> {
    match v
    case Set(attrs) => Ok(attrs.Keys)
    case Fails => EvalError
    case _ => TypeError
  }

  /** Whether a value has an attribute; anything but a set simply has none. */
  function HasAttr(v: Val, name: string): Outcome<bool> {
    match v
    case Set(attrs) => Ok(name in attrs)
    case Fails => EvalError
    case _ => Ok(false)
  }

  /** Walking an attribute path: is it there?  Anything but a set stops with an error. */
  function FindFrom(v: Val, names: seq<string>): Outcome<bool>
    decreases |names|
  {
    if names == [] then Ok(true)
    else
      match v
      case Set(attrs) => if names[0] in attrs then FindFrom(attrs[names[0]], names[1..]) else Ok(false)
      case Fails => EvalError
      case _ => TypeError
  }

  /** One step of the walk, from the value at `path`. */
  lemma FindStep(root: Val, path: Path, names: seq<string>, i: nat)
    requires At(root, path).Some? && i < |names|
    ensures var v, x, rest := At(root, path).value, names[i], FindFrom(At(root, path).value, names[i..]);
      && (v.Set? && x in v.attrs ==>
            At(root, path + [x]) == Some(v.attrs[x]) && rest == FindFrom(v.attrs[x], names[i + 1..]))
      && (v.Set? && x !in v.attrs ==> rest == Ok(false))
      && (!v.Set? ==> !rest.Ok?)
  {
    AtChild(root, path, names[i]);
    assert names[i..][0] == names[i] && names[i..][1..] == names[i + 1..];
  }

  lemma FindFails(names: seq<string>)
    requires names != []
    ensures !FindFrom(Fails, names).Ok?
  {
  }

  lemma FindEnds(v: Val, names: seq<string>)
    ensures FindFrom(v, names[|names|..]) == Ok(true) && names[0..] == names
  {
  }

  lemma {:induction false} FindReaches(root: Val, path: Path, names: seq<string>)
    requires At(root, path).Some?
    ensures FindFrom(At(root, path).value, names) == Ok(true) <==> At(root, path + names).Some?
    decreases |names|
  {
    if names == [] {
      assert path + names == path;
    } else {
      AtChild(root, path, names[0]);
      assert path + names == path + [names[0]] + names[1..];
      if At(root, path + [names[0]]).Some? {
        FindReaches(root, path + [names[0]], names[1..]);
      } else {
        NothingBelow(root, path + [names[0]], names[1..]);
      }
    }
  }

  lemma {:induction false} NothingBelow(root: Val, path: Path, names: seq<string>)
    requires At(root, path).None?
    ensures At(root, path + names).None?
    decreases |names|
  {
    if names == [] {
      assert path + names == path;
    } else {
      var n := |names| - 1;
      NothingBelow(root, path, names[..n]);
      assert (path + names)[..|path| + n] == path + names[..n];
    }
  }

  /** The integer column is exact precisely for values in the range of a C `int`. */
  lemma StoredIntExact(root: Val, path: Path, i: int)
    requires RowTrue(root, path, SInt(i))
    ensures IntOf(At(root, path).value) == Ok(i) <==>
      -0x8000_0000 <= At(root, path).value.i < 0x8000_0000
  {
    assert i == ToInt32(At(root, path).value.i);
  }

  /** The list column is exact precisely when no string is empty or contains a tab. */
  lemma StoredStringsExact(root: Val, path: Path, text: string)
    requires RowTrue(root, path, SStrings(text))
    ensures StringsOf(At(root, path).value) == Ok(Tokens(text)) <==>
      Storable(Texts(At(root, path).value.elems).value)
  {
    RoundTrip(Texts(At(root, path).value.elems).value);
    StringsOfMeans(At(root, path).value);
  }
}
