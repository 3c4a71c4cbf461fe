/** What an attribute path means as text: components of bare and quoted pieces, joined by dots. */
module AttrText {
  import opened Optional
  import opened AttrPath

  datatype Piece = Bare(text: string) | Quoted(text: string)

  /** How a piece is written. */
  function Written(p: Piece): string {
    match p
    case Bare(t) => t
    case Quoted(t) => "\"" + t + "\""
  }

  predicate MayWrite(p: Piece) {
    match p
    case Bare(t) => forall k | 0 <= k < |t| :: t[k] != '.' && t[k] != '\"'
    case Quoted(t) => forall k | 0 <= k < |t| :: t[k] != '\"'
  }

  /** A component is the pieces written one after the other. */
  function WrittenAll(ps: seq<Piece>): string {
    if ps == [] then "" else Written(ps[0]) + WrittenAll(ps[1..])
  }

  /** What it stands for: the texts, without the quotes. */
  function TextOf(ps: seq<Piece>): string {
    if ps == [] then "" else ps[0].text + TextOf(ps[1..])
  }

  predicate MayWriteAll(ps: seq<Piece>) {
    forall k | 0 <= k < |ps| :: MayWrite(ps[k])
  }

  function Joined(cs: seq<seq<Piece>>): string
    requires cs != []
  {
    if |cs| == 1 then WrittenAll(cs[0]) else WrittenAll(cs[0]) + "." + Joined(cs[1..])
  }

  function TextsOf(cs: seq<seq<Piece>>): (r: seq<string>)
    ensures |r| == |cs| && forall k | 0 <= k < |cs| :: r[k] == TextOf(cs[k])
  {
    seq(|cs|, k requires 0 <= k < |cs| => TextOf(cs[k]))
  }

  /** An empty last component does not count. */
  function Counted(texts: seq<string>): seq<string>
    requires texts != []
  {
    if texts[|texts| - 1] == "" then texts[..|texts| - 1] else texts
  }

  predicate MayJoin(cs: seq<seq<Piece>>) {
    cs != [] && forall k | 0 <= k < |cs| :: MayWriteAll(cs[k])
  }

  /* ---- what is written is read ---- */

  lemma ParsePiece(p: Piece, rest: string, cur: string)
    requires MayWrite(p)
    ensures ParseFrom(Written(p) + rest, cur) == ParseFrom(rest, cur + p.text)
  {
    match p
    case Bare(t) => ParseWord(t, rest, cur);
    case Quoted(t) =>
      var s := Written(p) + rest;
      assert s[1..] == t + "\"" + rest;
      assert s[1..][..|t|] == t;
      QuoteEnds(s[1..], |t|);
      assert s[|t| + 2..] == rest && s[1..|t| + 1] == t;
  }

  lemma {:induction false} ParsePieces(ps: seq<Piece>, rest: string, cur: string)
    requires MayWriteAll(ps)
    ensures ParseFrom(WrittenAll(ps) + rest, cur) == ParseFrom(rest, cur + TextOf(ps))
    decreases |ps|
  {
    hide ParseFrom, Written, MayWrite;
    if ps == [] {
      assert "" + rest == rest && cur + "" == cur;
    } else {
      ParsePiece(ps[0], WrittenAll(ps[1..]) + rest, cur);
      ParsePieces(ps[1..], rest, cur + ps[0].text);
      AppendThree(Written(ps[0]), WrittenAll(ps[1..]), rest);
      AppendThree(cur, ps[0].text, TextOf(ps[1..]));
    }
  }

  /** A path parses to the texts of its components, empty ones included unless they come last. */
  lemma {:induction false} ParseJoined(cs: seq<seq<Piece>>)
    requires MayJoin(cs)
    ensures Parse(Joined(cs)) == Some(Counted(TextsOf(cs)))
    decreases |cs|
  {
    hide WrittenAll, TextOf, MayWriteAll, Parse, Counted, TextsOf;
    if |cs| == 1 {
      ParseLast(cs[0]);
      TextsOfOne(cs);
    } else {
      ParseFirst(cs[0], Joined(cs[1..]));
      ParseJoined(cs[1..]);
      TextsOfCons(cs);
      CountedCons(TextOf(cs[0]), TextsOf(cs[1..]));
    }
  }

  lemma TextsOfOne(cs: seq<seq<Piece>>)
    requires |cs| == 1
    ensures TextsOf(cs) == [TextOf(cs[0])]
  {
  }

  lemma TextsOfCons(cs: seq<seq<Piece>>)
    requires cs != []
    ensures TextsOf(cs) == [TextOf(cs[0])] + TextsOf(cs[1..])
  {
  }

  lemma ParseLast(ps: seq<Piece>)
    requires MayWriteAll(ps)
    ensures Parse(WrittenAll(ps)) == Some(Counted([TextOf(ps)]))
  {
    ParsePieces(ps, "", "");
    assert WrittenAll(ps) + "" == WrittenAll(ps) && "" + TextOf(ps) == TextOf(ps);
  }

  lemma ParseDot(rest: string, cur: string)
    ensures ParseFrom("." + rest, cur) == Prepend([cur], Parse(rest))
  {
    assert ("." + rest)[1..] == rest;
  }

  lemma ParseFirst(ps: seq<Piece>, rest: string)
    requires MayWriteAll(ps)
    ensures Parse(WrittenAll(ps) + "." + rest) == Prepend([TextOf(ps)], Parse(rest))
  {
    hide WrittenAll, TextOf, MayWriteAll, ParseFrom;
    AppendThree(WrittenAll(ps), ".", rest);
    ParsePieces(ps, "." + rest, "");
    ParseDot(rest, TextOf(ps));
    assert "" + TextOf(ps) == TextOf(ps);
  }

  lemma CountedCons(first: string, rest: seq<string>)
    requires rest != []
    ensures Counted([first] + rest) == [first] + Counted(rest)
  {
    var all := [first] + rest;
    assert all[|all| - 1] == rest[|rest| - 1];
    assert all[..|all| - 1] == [first] + rest[..|rest| - 1];
  }

  /* ---- and everything that parses can be written so ---- */

  function AddFirst(p: Piece, cs: seq<seq<Piece>>): seq<seq<Piece>>
    requires cs != []
  {
    [[p] + cs[0]] + cs[1..]
  }

  lemma JoinedFirst(p: Piece, cs: seq<seq<Piece>>)
    requires MayWrite(p) && MayJoin(cs)
    ensures MayJoin(AddFirst(p, cs)) && Joined(AddFirst(p, cs)) == Written(p) + Joined(cs)
  {
    var cs' := AddFirst(p, cs);
    forall k | 0 <= k < |cs'| ensures MayWriteAll(cs'[k]) {
      assert k > 0 ==> cs'[k] == cs[k];
    }
    WrittenFirst(p, cs[0]);
    hide MayWriteAll, WrittenAll, Written;
    if |cs| > 1 {
      assert cs'[1..] == cs[1..];
      AppendThree(Written(p), WrittenAll(cs[0]), "." + Joined(cs[1..]));
      AppendThree(WrittenAll(cs'[0]), ".", Joined(cs[1..]));
      AppendThree(WrittenAll(cs[0]), ".", Joined(cs[1..]));
    }
  }

  lemma WrittenFirst(p: Piece, ps: seq<Piece>)
    ensures WrittenAll([p] + ps) == Written(p) + WrittenAll(ps)
  {
    assert ([p] + ps)[1..] == ps;
  }

  lemma AppendThree(a: string, b: string, c: string)
    ensures (a + b) + c == a + (b + c)
  {
  }

  lemma NoQuotes(t: string)
    ensures FirstQuote(t) == |t| ==> Quotes(t) == 0
  {
    if FirstQuote(t) == |t| {
      assert '\"' !in t;
      assert t[..|t|] == t && t[|t|..] == "";
      QuotesSkip(t, |t|);
    }
  }

  /** A text whose quotes pair up is a path. */
  lemma {:induction false} SomePath(s: string) returns (cs: seq<seq<Piece>>)
    requires Quotes(s) % 2 == 0
    ensures cs != [] && MayJoin(cs) && Joined(cs) == s
    decreases |s|
  {
    hide MayJoin, Joined, MayWrite;
    if s == "" {
      cs := [[]];
      EmptyPath();
    } else if s[0] == '.' {
      var rest := SomePath(s[1..]);
      cs := [[]] + rest;
      DotPath(rest);
      assert "." + s[1..] == s;
    } else if s[0] == '\"' {
      var t := s[1..];
      var q := FirstQuote(t);
      assert '\"' !in t[..q];
      QuotesSkip(t, q);
      NoQuotes(t);
      assert t[q..][1..] == s[q + 2..];
      var rest := SomePath(s[q + 2..]);
      var p := Quoted(t[..q]);
      QuotedMay(t[..q]);
      JoinedFirst(p, rest);
      cs := AddFirst(p, rest);
      assert "\"" + t[..q] + "\"" + s[q + 2..] == s;
    } else {
      var rest := SomePath(s[1..]);
      var p := Bare([s[0]]);
      BareMay(s[0]);
      JoinedFirst(p, rest);
      cs := AddFirst(p, rest);
      assert [s[0]] + s[1..] == s;
    }
  }

  lemma EmptyPath()
    ensures MayJoin([[]]) && Joined([[]]) == ""
  {
  }

  lemma DotPath(rest: seq<seq<Piece>>)
    requires MayJoin(rest)
    ensures MayJoin([[]] + rest) && Joined([[]] + rest) == "." + Joined(rest)
  {
    assert ([[]] + rest)[1..] == rest;
    forall k | 0 <= k < |[[]] + rest| ensures MayWriteAll(([[]] + rest)[k]) {
      assert k > 0 ==> ([[]] + rest)[k] == rest[k - 1];
    }
  }

  lemma QuotedMay(t: string)
    requires '\"' !in t
    ensures MayWrite(Quoted(t))
  {
  }

  lemma BareMay(c: char)
    requires c != '.' && c != '\"'
    ensures MayWrite(Bare([c]))
  {
  }

  /** Every text is a path or not: its quotes pair up, and then it is written in pieces and parses to their
      texts; or one is missing, and it does not parse. */
  lemma ParseMeans(s: string)
    ensures if Quotes(s) % 2 == 0
      then exists cs :: MayJoin(cs) && Joined(cs) == s && Parse(s) == Some(Counted(TextsOf(cs)))
      else Parse(s) == None
  {
    ParsesIffPaired(s, "");
    if Quotes(s) % 2 == 0 {
      var cs := SomePath(s);
      ParseJoined(cs);
    }
  }

  /* ---- round trips ---- */

  predicate Quotable(t: string) { forall k | 0 <= k < |t| :: t[k] != '\"' }

  /** Each component bare, if that is possible, or in quotes. */
  function PieceFor(t: string): Piece {
    if MayWrite(Bare(t)) then Bare(t) else Quoted(t)
  }

  function PiecesFor(ts: seq<string>): (cs: seq<seq<Piece>>)
    ensures |cs| == |ts| && forall k | 0 <= k < |ts| :: cs[k] == [PieceFor(ts[k])]
  {
    seq(|ts|, k requires 0 <= k < |ts| => [PieceFor(ts[k])])
  }

  lemma PieceForOk(t: string)
    requires Quotable(t)
    ensures MayWriteAll([PieceFor(t)]) && TextOf([PieceFor(t)]) == t
  {
    WrittenOne(PieceFor(t));
  }

  /** Any components without quotes come back, dots and empty ones included, if the last is not empty. */
  lemma QuotedRoundTrip(ts: seq<string>)
    requires ts != [] && ts[|ts| - 1] != "" && forall k | 0 <= k < |ts| :: Quotable(ts[k])
    ensures Parse(Joined(PiecesFor(ts))) == Some(ts)
  {
    hide Parse, Joined, Quotable, MayWriteAll, TextOf, PieceFor;
    var cs := PiecesFor(ts);
    forall k | 0 <= k < |cs| ensures MayWriteAll(cs[k]) && TextOf(cs[k]) == ts[k] {
      PieceForOk(ts[k]);
    }
    ParseJoined(cs);
    assert TextsOf(cs) == ts;
  }

  lemma WrittenOne(p: Piece)
    ensures WrittenAll([p]) == Written(p) && TextOf([p]) == p.text
  {
    assert Written(p) + "" == Written(p) && p.text + "" == p.text;
  }

  lemma WrittenTwo(p: Piece, q: Piece)
    ensures WrittenAll([p, q]) == Written(p) + Written(q) && TextOf([p, q]) == p.text + q.text
  {
    assert [p, q][1..] == [q];
    WrittenOne(q);
  }

  lemma JoinedTwo(a: seq<Piece>, b: seq<Piece>)
    ensures Joined([a, b]) == WrittenAll(a) + "." + WrittenAll(b)
  {
    assert [a, b][1..] == [b];
  }

  /** A quoted dot does not separate, and quoted text continues bare text. */
  lemma QuotedDot()
    ensures Parse("a.\"b.c\"") == Some(["a", "b.c"])
    ensures Parse("x\"y z\"") == Some(["xy z"])
  {
    var cs := [[Bare("a")], [Quoted("b.c")]];
    WrittenOne(Bare("a"));
    WrittenOne(Quoted("b.c"));
    JoinedTwo(cs[0], cs[1]);
    ParseJoined(cs);
    assert TextsOf(cs) == ["a", "b.c"];
    assert "a" + "." + ("\"" + "b.c" + "\"") == "a.\"b.c\"";
    var ds := [[Bare("x"), Quoted("y z")]];
    WrittenTwo(Bare("x"), Quoted("y z"));
    ParseJoined(ds);
    assert TextsOf(ds) == ["xy z"] by { assert "x" + "y z" == "xy z"; }
    assert "x" + ("\"" + "y z" + "\"") == "x\"y z\"";
  }

  /** Two dots enclose an empty component; one at the end is dropped. */
  lemma EmptyComponents()
    ensures Parse("a..b") == Some(["a", "", "b"])
    ensures Parse("a.") == Some(["a"])
  {
    var cs: seq<seq<Piece>> := [[Bare("a")], [], [Bare("b")]];
    WrittenOne(Bare("a"));
    WrittenOne(Bare("b"));
    assert cs[1..] == [[], [Bare("b")]];
    JoinedTwo([], [Bare("b")]);
    assert Joined(cs) == "a" + "." + ("" + "." + "b") == "a..b";
    ParseJoined(cs);
    assert TextsOf(cs) == ["a", "", "b"];
    JoinedTwo([Bare("a")], []);
    assert "a" + "." + "" == "a.";
    ParseJoined([[Bare("a")], []]);
    assert TextsOf([[Bare("a")], []]) == ["a", ""];
    assert ["a", ""][..1] == ["a"];
  }

  /* ---- numbers and names as text ---- */

  /** A printed number: its decimal digits, most significant first. */
  lemma DecimalDigitByDigit(n: nat, d: nat)
    requires d < 10
    ensures Decimal(d) == [(48 + d) as char]
    ensures n > 0 ==> Decimal(10 * n + d) == Decimal(n) + [(48 + d) as char]
  {
    assert (10 * n + d) / 10 == n && (10 * n + d) % 10 == d;
  }

  function Zeros(n: nat): string { if n == 0 then "" else Zeros(n - 1) + "0" }

  lemma LastDigit(s: string)
    requires s != "" && AllDigits(s)
    ensures var n, d := |s| - 1, s[|s| - 1] as int - 48;
      && 0 <= d < 10 && s == s[..n] + [(48 + d) as char]
      && AllDigits(s[..n]) && DigitsValue(s) == DigitsValue(s[..n]) * 10 + d
  {
    hide IsDigit;
    DigitCode(s[|s| - 1]);
    assert s == s[..|s| - 1] + [s[|s| - 1]];
  }

  lemma DigitCode(c: char)
    requires IsDigit(c)
    ensures 0 <= c as int - 48 < 10 && (48 + (c as int - 48)) as char == c
  {
  }

  lemma {:induction false} DigitsAreDecimal(s: string) returns (z: nat)
    requires s != "" && AllDigits(s)
    ensures s == Zeros(z) + Decimal(DigitsValue(s))
  {
    var n, d := |s| - 1, s[|s| - 1] as int - 48;
    LastDigit(s);
    if n == 0 {
      z := 0;
      assert DigitsValue(s[..0]) == 0;
      DecimalDigitByDigit(0, d);
    } else {
      hide Decimal, DigitsValue, AllDigits;
      z := DigitsAreDecimal(s[..n]);
      var v := DigitsValue(s[..n]);
      DecimalDigitByDigit(v, d);
      if v == 0 {
        z := z + 1;
        DecimalDigitByDigit(0, 0);
        assert Zeros(z - 1) + "0" == Zeros(z);
      } else {
        AppendThree(Zeros(z), Decimal(v), [(48 + d) as char]);
      }
    }
  }

  lemma {:induction false} ZerosValue(z: nat, s: string)
    requires AllDigits(s)
    ensures AllDigits(Zeros(z) + s) && DigitsValue(Zeros(z) + s) == DigitsValue(s)
    decreases z, |s|
  {
    if s == "" {
      assert Zeros(z) + "" == Zeros(z);
      if z == 0 {
      } else {
        ZerosValue(z - 1, "");
        assert Zeros(z - 1) + "" == Zeros(z - 1);
        assert Zeros(z)[..|Zeros(z - 1)|] == Zeros(z - 1);
      }
    } else {
      var init := s[..|s| - 1];
      ZerosValue(z, init);
      assert (Zeros(z) + s)[..|Zeros(z) + s| - 1] == Zeros(z) + init;
    }
  }

  /** A number below 2^32, perhaps after a plus sign and zeros. */
  ghost predicate IsNumber(s: string, n: nat) {
    n < 4294967296 && exists plus, z :: plus in {"", "+"} && s == plus + (Zeros(z) + Decimal(n))
  }

  /** A component is an index exactly if it is such a number. */
  lemma IndexMeans(s: string, n: nat)
    ensures ParseIndex(s) == Some(n) <==> IsNumber(s, n)
  {
    if ParseIndex(s) == Some(n) {
      IndexIsNumber(s, n);
    }
    if IsNumber(s, n) {
      var plus, z :| plus in {"", "+"} && s == plus + (Zeros(z) + Decimal(n));
      NumberIsIndex(plus, z, n);
    }
  }

  lemma IndexIsNumber(s: string, n: nat)
    requires ParseIndex(s) == Some(n)
    ensures IsNumber(s, n)
  {
    hide Decimal, DigitsValue, AllDigits;
    var d := Unsign(s);
    var z := DigitsAreDecimal(d);
    var plus := if d == s then "" else "+";
    assert s == plus + d;
  }

  lemma NumberIsIndex(plus: string, z: nat, n: nat)
    requires plus in {"", "+"} && n < 4294967296
    ensures ParseIndex(plus + (Zeros(z) + Decimal(n))) == Some(n)
  {
    var d := Zeros(z) + Decimal(n);
    DecimalDigits(n);
    ZerosValue(z, Decimal(n));
    assert d != "" && IsDigit(d[0]);
    hide Decimal, DigitsValue, Zeros;
    if plus == "" {
      assert "" + d == d;
    } else {
      assert ("+" + d)[1..] == d;
    }
  }

  /** The characters of a component, by their codes: A-Z, a-z and _ first; also 0-9, - and + afterwards. */
  lemma ComponentMeans(s: string)
    ensures IsComponent(s) <==>
      s != ""
      && (65 <= s[0] as int <= 90 || 97 <= s[0] as int <= 122 || s[0] as int == 95)
      && forall k | 0 < k < |s| :: 65 <= s[k] as int <= 90 || 97 <= s[k] as int <= 122 || s[k] as int == 95
           || 48 <= s[k] as int <= 57 || s[k] as int == 45 || s[k] as int == 43
  {
  }
}
