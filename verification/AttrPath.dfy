/** Attribute paths: how they are printed while descending, and how they are parsed again. */
module AttrPath {
  import opened Optional

  /** `addToPath`. */
  function AddToPath(s1: string, s2: string): string {
    if s1 == "" then s2 else s1 + "." + s2
  }

  /** The path built by adding one component after the other. */
  function Print(ts: seq<string>): string {
    if ts == [] then "" else AddToPath(Print(ts[..|ts| - 1]), ts[|ts| - 1])
  }

  function FirstQuote(s: string): nat
    ensures FirstQuote(s) <= |s|
    ensures forall k | 0 <= k < FirstQuote(s) :: s[k] != '"'
    ensures FirstQuote(s) < |s| ==> s[FirstQuote(s)] == '"'
  {
    if s == "" || s[0] == '"' then 0 else 1 + FirstQuote(s[1..])
  }

  function Prepend(ts: seq<string>, r: Option<seq<string>>): Option<seq<string>> {
    if r.None? then None else Some(ts + r.value)
  }

  lemma PrependNothing(r: Option<seq<string>>)
    ensures Prepend([], r) == r
  {
    if r.Some? {
      assert [] + r.value == r.value;
    }
  }

  lemma PrependTwice(a: seq<string>, b: seq<string>, r: Option<seq<string>>)
    ensures Prepend(a, Prepend(b, r)) == Prepend(a + b, r)
  {
    if r.Some? {
      assert a + (b + r.value) == (a + b) + r.value;
    }
  }

  /** What is left to parse, with the component read so far; `None` if a quote is not closed. */
  function ParseFrom(s: string, cur: string): Option<seq<string>>
    decreases |s|
  {
    if s == "" then Some(if cur == "" then [] else [cur])
    else if s[0] == '.' then Prepend([cur], ParseFrom(s[1..], ""))
    else if s[0] == '"' then
      var q := FirstQuote(s[1..]);
      if q == |s| - 1 then None else ParseFrom(s[q + 2..], cur + s[1..q + 1])
    else ParseFrom(s[1..], cur + [s[0]])
  }

  function Parse(s: string): Option<seq<string>> { ParseFrom(s, "") }

  /** The characters up to the next quote, or up to the end. */
  method ReadQuoted(s: string, from: nat) returns (i: nat, word: string)
    requires from <= |s|
    ensures from <= i <= |s| && word == s[from..i] && '"' !in word && (i < |s| ==> s[i] == '"')
    ensures s[from..][..|word|] == word
  {
    i, word := from, "";
    while i < |s| && s[i] != '"'
      invariant from <= i <= |s| && word == s[from..i]
      invariant '"' !in word
    {
      assert s[from..i] + [s[i]] == s[from..i + 1];
      word := word + [s[i]];
      i := i + 1;
    }
    assert s[from..][..i - from] == s[from..i];
  }

  /** `parseAttrPath`. */
  method ParseAttrPath(s: string) returns (res: Option<seq<string>>)
    ensures res == Parse(s)
  {
    var out: seq<string>, cur, i := [], "", 0;
    assert s[0..] == s;
    PrependNothing(Parse(s));
    while i < |s|
      invariant 0 <= i <= |s|
      invariant Parse(s) == Prepend(out, ParseFrom(s[i..], cur))
    {
      var at := i;
      assert s[at..][1..] == s[at + 1..];
      if s[i] == '.' {
        ghost var before, word0 := out, cur;
        out := out + [cur];
        cur := "";
        PrependTwice(before, [word0], ParseFrom(s[at + 1..], cur));
      } else if s[i] == '"' {
        var word;
        i, word := ReadQuoted(s, i + 1);
        QuoteEnds(s[at + 1..], |word|);
        if i == |s| {
          return None;
        }
        assert s[at..][1..i - at] == word && s[at..][i - at + 1..] == s[i + 1..];
        cur := cur + word;
      } else {
        cur := cur + [s[i]];
      }
      i := i + 1;
    }
    assert s[i..] == "" && out + [] == out;
    res := Some(if cur != "" then out + [cur] else out);
  }

  lemma {:induction false} QuoteEnds(s: string, k: nat)
    requires k <= |s| && '"' !in s[..k] && (k < |s| ==> s[k] == '"')
    ensures FirstQuote(s) == k
  {
    if k == 0 {
    } else {
      assert s[..k][0] == s[0];
      assert s[1..][..k - 1] == s[..k][1..];
      QuoteEnds(s[1..], k - 1);
    }
  }

  /** A path parses exactly if its quotes pair up. */
  function Quotes(s: string): nat {
    if s == "" then 0 else Quotes(s[1..]) + if s[0] == '"' then 1 else 0
  }

  lemma {:induction false} QuotesSkip(s: string, k: nat)
    requires k <= |s| && '"' !in s[..k]
    ensures Quotes(s) == Quotes(s[k..])
  {
    if k > 0 {
      assert s[..k][0] == s[0];
      assert s[1..][..k - 1] == s[..k][1..] && s[1..][k - 1..] == s[k..];
      QuotesSkip(s[1..], k - 1);
    } else {
      assert s[0..] == s;
    }
  }

  lemma {:induction false} ParsesIffPaired(s: string, cur: string)
    ensures ParseFrom(s, cur).Some? <==> Quotes(s) % 2 == 0
    decreases |s|
  {
    if s == "" {
    } else if s[0] == '.' {
      ParsesIffPaired(s[1..], "");
    } else if s[0] == '"' {
      var rest := s[1..];
      var q := FirstQuote(rest);
      assert '"' !in rest[..q];
      QuotesSkip(rest, q);
      if q < |rest| {
        assert rest[q..][1..] == s[q + 2..];
        ParsesIffPaired(s[q + 2..], cur + s[1..q + 1]);
      } else {
        assert rest[q..] == "";
      }
    } else {
      ParsesIffPaired(s[1..], cur + [s[0]]);
    }
  }

  /* ---- printing and parsing ---- */

  predicate Plain(t: string) { t != "" && '.' !in t && '"' !in t }

  lemma {:induction false} ParseWord(t: string, rest: string, cur: string)
    requires '.' !in t && '"' !in t
    ensures ParseFrom(t + rest, cur) == ParseFrom(rest, cur + t)
  {
    if t == "" {
      assert t + rest == rest && cur + t == cur;
    } else {
      ParseWord(t[1..], rest, cur + [t[0]]);
      assert (t + rest)[1..] == t[1..] + rest;
      assert cur + [t[0]] + t[1..] == cur + t;
      assert (t + rest)[0] == t[0] && t[0] in t;
    }
  }

  lemma {:induction false} PrintNonEmpty(ts: seq<string>)
    requires ts != [] && forall k | 0 <= k < |ts| :: Plain(ts[k])
    ensures Print(ts) != ""
  {
  }

  /** The last component stays open: whatever follows continues it. */
  lemma {:induction false} ParsePrinted(ts: seq<string>, rest: string)
    requires ts != [] && forall k | 0 <= k < |ts| :: Plain(ts[k])
    ensures ParseFrom(Print(ts) + rest, "") == Prepend(ts[..|ts| - 1], ParseFrom(rest, ts[|ts| - 1]))
  {
    var init, last := ts[..|ts| - 1], ts[|ts| - 1];
    if init == [] {
      ParseWord(last, rest, "");
      assert "" + last == last;
      PrependNothing(ParseFrom(rest, last));
    } else {
      PrintNonEmpty(init);
      var tail := "." + last + rest;
      assert Print(ts) + rest == Print(init) + tail;
      ParsePrinted(init, tail);
      assert tail[1..] == last + rest;
      ParseWord(last, rest, "");
      assert "" + last == last;
      PrependTwice(init[..|init| - 1], [init[|init| - 1]], ParseFrom(rest, last));
      assert init[..|init| - 1] + [init[|init| - 1]] == init;
    }
  }

  /** Paths of plain components survive the round trip. */
  lemma RoundTrip(ts: seq<string>)
    requires forall k | 0 <= k < |ts| :: Plain(ts[k])
    ensures Parse(Print(ts)) == Some(ts)
  {
    if ts != [] {
      ParsePrinted(ts, "");
      assert Print(ts) + "" == Print(ts);
      assert ts[..|ts| - 1] + [ts[|ts| - 1]] == ts;
    }
  }

  /* ---- components ---- */

  predicate IsLetter(c: char) { 'A' <= c <= 'Z' || 'a' <= c <= 'z' }

  predicate IsDigit(c: char) { '0' <= c <= '9' }

  predicate InComponent(c: char) { IsLetter(c) || IsDigit(c) || c == '-' || c == '_' || c == '+' }

  /** `isAttrPathComponent`. */
  method IsAttrPathComponent(symbol: string) returns (ok: bool)
    ensures ok == IsComponent(symbol)
  {
    if symbol == "" { return false; }
    if !(IsLetter(symbol[0]) || symbol[0] == '_') { return false; }
    for k := 1 to |symbol|
      invariant forall j | 1 <= j < k :: InComponent(symbol[j])
    {
      if !InComponent(symbol[k]) { return false; }
    }
    return true;
  }

  predicate IsComponent(s: string) {
    s != "" && (IsLetter(s[0]) || s[0] == '_') && forall k | 0 < k < |s| :: InComponent(s[k])
  }

  lemma ComponentPlain(s: string)
    requires IsComponent(s)
    ensures Plain(s) && ParseIndex(s) == None
  {
  }

  /* ---- list indices ---- */

  function Digit(d: nat): char
    requires d < 10
  {
    '0' + d as char
  }

  /** How an index is printed. */
  function Decimal(n: nat): string {
    if n < 10 then [Digit(n)] else Decimal(n / 10) + [Digit(n % 10)]
  }

  predicate AllDigits(s: string) { forall k | 0 <= k < |s| :: IsDigit(s[k]) }

  function DigitsValue(s: string): nat
    requires AllDigits(s)
  {
    if s == "" then 0 else DigitsValue(s[..|s| - 1]) * 10 + (s[|s| - 1] as int - '0' as int)
  }

  const UINT_LIMIT := 0x1_0000_0000

  function Unsign(s: string): string {
    if s != "" && s[0] == '+' then s[1..] else s
  }

  /** Reading a component as an unsigned 32-bit number. */
  function ParseIndex(s: string): Option<nat> {
    var d := Unsign(s);
    if d != "" && AllDigits(d) && DigitsValue(d) < UINT_LIMIT then Some(DigitsValue(d)) else None
  }

  lemma {:induction false} DecimalDigits(n: nat)
    ensures Decimal(n) != "" && AllDigits(Decimal(n)) && DigitsValue(Decimal(n)) == n
  {
    if n >= 10 {
      DecimalDigits(n / 10);
      assert Decimal(n)[..|Decimal(n)| - 1] == Decimal(n / 10);
    } else {
      assert [Digit(n)][..0] == "";
      assert DigitsValue("") == 0;
    }
  }

  /** A printed index is read back exactly if it fits into 32 bits. */
  lemma IndexRoundTrip(n: nat)
    ensures Plain(Decimal(n))
    ensures ParseIndex(Decimal(n)) == if n < UINT_LIMIT then Some(n) else None
  {
    DecimalDigits(n);
    forall k | 0 <= k < |Decimal(n)| ensures Decimal(n)[k] != '.' && Decimal(n)[k] != '"' {
      assert IsDigit(Decimal(n)[k]);
    }
    assert IsDigit(Decimal(n)[0]);
  }
}
