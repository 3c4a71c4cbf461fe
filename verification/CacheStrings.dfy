/** How a list of strings is stored in one column: joined by tabs, read back as tokens. */
module CacheStrings {
  const TAB: char := '\t'

  predicate TabFree(s: string) { '\t' !in s }

  /** Appending `l` to `acc`; a separator is written only once something has been written. */
  function JoinTo(acc: string, l: seq<string>): string
    decreases |l|
  {
    if l == [] then acc else JoinTo(acc + (if acc != [] then [TAB] else []) + l[0], l[1..])
  }

  function Join(l: seq<string>): string { JoinTo([], l) }

  /** The maximal tab-free runs of `cur + s`, `cur` being the run read so far. */
  function TokensAfter(cur: string, s: string): seq<string>
    decreases |s|
  {
    if s == [] then (if cur == [] then [] else [cur])
    else if s[0] == TAB then (if cur == [] then [] else [cur]) + TokensAfter([], s[1..])
    else TokensAfter(cur + [s[0]], s[1..])
  }

  function Tokens(s: string): seq<string> { TokensAfter([], s) }

  function AllTokens(l: seq<string>): seq<string> {
    if l == [] then [] else Tokens(l[0]) + AllTokens(l[1..])
  }

  /** Exactly the lists the column represents faithfully. */
  predicate Storable(l: seq<string>) {
    forall i | 0 <= i < |l| :: l[i] != [] && TabFree(l[i])
  }

  method Concat(l: seq<string>) returns (s: string)
    ensures s == Join(l)
  {
    s := [];
    for i := 0 to |l|
      invariant JoinTo(s, l[i..]) == Join(l)
    {
      assert l[i..][1..] == l[i + 1..];
      if s != [] {
        s := s + [TAB];
      }
      s := s + l[i];
    }
  }

  method Tokenize(s: string) returns (tokens: seq<string>)
    ensures tokens == Tokens(s)
  {
    tokens := [];
    var pos := 0;
    while pos < |s|
      invariant 0 <= pos <= |s|
      invariant tokens + Tokens(s[pos..]) == Tokens(s)
      decreases |s| - pos
    {
      if s[pos] == TAB {
        assert s[pos..][1..] == s[pos + 1..];
        pos := pos + 1;
      } else {
        var end := pos;
        ghost var before := tokens;
        assert s[pos..end] == [];
        while end < |s| && s[end] != TAB
          invariant pos <= end <= |s|
          invariant TokensAfter(s[pos..end], s[end..]) == Tokens(s[pos..])
        {
          assert s[end..][1..] == s[end + 1..];
          assert s[pos..end] + [s[end]] == s[pos..end + 1];
          end := end + 1;
        }
        tokens := tokens + [s[pos..end]];
        if end < |s| {
          assert Tokens(s[pos..]) == [s[pos..end]] + Tokens(s[end..]) by {
            assert s[end..][1..] == s[end + 1..];
          }
        } else {
          assert Tokens(s[pos..]) == [s[pos..end]] + Tokens(s[end..]);
        }
        assert tokens + Tokens(s[end..]) == before + ([s[pos..end]] + Tokens(s[end..]));
        pos := end;
      }
    }
  }

  lemma {:induction false} TokensSplit(cur: string, a: string, b: string)
    ensures TokensAfter(cur, a + [TAB] + b) == TokensAfter(cur, a) + Tokens(b)
    decreases |a|
  {
    var s := a + [TAB] + b;
    if a == [] {
      assert s == [TAB] + b && s[1..] == b;
    } else {
      assert s[1..] == a[1..] + [TAB] + b && s[0] == a[0];
      if a[0] == TAB {
        TokensSplit([], a[1..], b);
      } else {
        TokensSplit(cur + [a[0]], a[1..], b);
      }
    }
  }

  lemma {:induction false} JoinTokens(acc: string, l: seq<string>)
    ensures Tokens(JoinTo(acc, l)) == Tokens(acc) + AllTokens(l)
    decreases |l|
  {
    if l == [] {
    } else {
      var next := acc + (if acc != [] then [TAB] else []) + l[0];
      JoinTokens(next, l[1..]);
      if acc == [] {
        assert next == l[0];
      } else {
        TokensSplit([], acc, l[0]);
      }
      assert Tokens(next) == Tokens(acc) + Tokens(l[0]);
    }
  }

  lemma {:induction false} TokensStorable(cur: string, s: string)
    requires TabFree(cur)
    ensures Storable(TokensAfter(cur, s))
    decreases |s|
  {
    if s == [] {
    } else {
      if s[0] == TAB {
        TokensStorable([], s[1..]);
      } else {
        TokensStorable(cur + [s[0]], s[1..]);
      }
    }
  }

  lemma {:induction false} OneToken(cur: string, s: string)
    requires TabFree(s) && cur + s != []
    ensures TokensAfter(cur, s) == [cur + s]
    decreases |s|
  {
    if s == [] {
      assert cur + s == cur;
    } else {
      OneToken(cur + [s[0]], s[1..]);
      assert cur + [s[0]] + s[1..] == cur + s;
    }
  }

  lemma {:induction false} StorableTokens(l: seq<string>)
    requires Storable(l)
    ensures AllTokens(l) == l
  {
    if l == [] {
    } else {
      OneToken([], l[0]);
      assert [] + l[0] == l[0];
      StorableTokens(l[1..]);
    }
  }

  /** Reading back gives the list that was stored exactly when no string is empty or has a tab. */
  lemma RoundTrip(l: seq<string>)
    ensures Tokens(Join(l)) == l <==> Storable(l)
  {
    JoinTokens([], l);
    assert Tokens(Join(l)) == AllTokens(l);
    if Storable(l) {
      StorableTokens(l);
    }
    TokensStorable([], Join(l));
  }

  /** Each string after a tab. */
  function Tabbed(l: seq<string>): string {
    if l == [] then "" else "\t" + l[0] + Tabbed(l[1..])
  }

  lemma {:induction false} JoinMore(acc: string, l: seq<string>)
    requires acc != []
    ensures JoinTo(acc, l) == acc + Tabbed(l)
    decreases |l|
  {
    if l == [] {
      assert acc + "" == acc;
    } else {
      JoinMore(acc + [TAB] + l[0], l[1..]);
      assert acc + ("\t" + l[0] + Tabbed(l[1..])) == acc + [TAB] + l[0] + Tabbed(l[1..]);
    }
  }

  /** Empty strings at the front leave no trace; from the first other string on, each is set off by a tab. */
  lemma JoinMeans(l: seq<string>)
    ensures l == [] ==> Join(l) == ""
    ensures l != [] && l[0] == "" ==> Join(l) == Join(l[1..])
    ensures l != [] && l[0] != "" ==> Join(l) == l[0] + Tabbed(l[1..])
  {
    if l != [] {
      assert [] + [] + l[0] == l[0];
      if l[0] != "" {
        JoinMore(l[0], l[1..]);
      }
    }
  }

  /** The tokens of a text: nothing for nothing, a word for itself, and a tab separates. */
  lemma TokensMeans(a: string, b: string)
    ensures Tokens("") == []
    ensures TabFree(a) && a != "" ==> Tokens(a) == [a]
    ensures Tokens(a + "\t" + b) == Tokens(a) + Tokens(b)
  {
    if TabFree(a) && a != "" {
      OneToken("", a);
      assert "" + a == a;
    }
    TokensSplit([], a, b);
  }
}
