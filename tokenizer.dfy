// The word tokenizer (src/index/tokenizer/tokenizer.ts): the global matches of
// /[\p{L}\p{N}_]+/gu, left to right.  The Unicode word class is a parameter `isWord`.
// The two stream tokenizers reuse `Matches` for their per-line regex loops.

module Tokenizer {
  /** One regex match: where it starts in the input, and the matched text. */
  datatype Match = Match(index: nat, term: string)

  predicate AllWord(isWord: char -> bool, s: string)
  {
    forall i :: 0 <= i < |s| ==> isWord(s[i])
  }

  /** The length of the run of word characters at the start of `s`. */
  function RunLength(isWord: char -> bool, s: string): (n: nat)
    ensures n <= |s| && AllWord(isWord, s[..n])
    ensures n < |s| ==> !isWord(s[n])
  {
    if s != [] && isWord(s[0]) then 1 + RunLength(isWord, s[1..]) else 0
  }

  /** The matches in `s`, whose first character sits at offset `base` of the input. */
  function Scan(isWord: char -> bool, s: string, base: nat): seq<Match>
    decreases |s|
  {
    if s == [] then []
    else if !isWord(s[0]) then Scan(isWord, s[1..], base + 1)
    else
      var n := RunLength(isWord, s);
      [Match(base, s[..n])] + Scan(isWord, s[n..], base + n)
  }

  function Matches(isWord: char -> bool, s: string): seq<Match>
  {
    Scan(isWord, s, 0)
  }

  function Terms(ms: seq<Match>): (ts: seq<string>)
    ensures |ts| == |ms| && forall k :: 0 <= k < |ms| ==> ts[k] == ms[k].term
  {
    if ms == [] then [] else [ms[0].term] + Terms(ms[1..])
  }

  /** `query.match(re) || []`: the matched texts (no match gives the empty list). */
  function Tokenize(isWord: char -> bool, query: string): seq<string>
  {
    Terms(Matches(isWord, query))
  }

  // ---------------------------------------------------------------------------
  // What a match is
  // ---------------------------------------------------------------------------

  /** Match `m` of a scan of `s` from `base` is a non-empty run of word characters found at its index. */
  predicate FoundIn(isWord: char -> bool, s: string, base: nat, m: Match)
  {
    base <= m.index && m.index - base + |m.term| <= |s|
    && s[m.index - base..m.index - base + |m.term|] == m.term
    && m.term != [] && AllWord(isWord, m.term)
  }

  /** …and it cannot be extended: no word character touches it on either side. */
  predicate Maximal(isWord: char -> bool, s: string, base: nat, m: Match)
    requires base <= m.index && m.index - base + |m.term| <= |s|
  {
    var i, j := m.index - base, m.index - base + |m.term|;
    (i == 0 || !isWord(s[i - 1])) && (j == |s| || !isWord(s[j]))
  }

  lemma ScanFound(isWord: char -> bool, s: string, base: nat)
    ensures forall m :: m in Scan(isWord, s, base) ==> FoundIn(isWord, s, base, m) && Maximal(isWord, s, base, m)
  {
    forall m | m in Scan(isWord, s, base)
      ensures FoundIn(isWord, s, base, m) && Maximal(isWord, s, base, m)
    {
      ScanMatch(isWord, s, base, m);
    }
  }

  /** One match of the scan is a maximal run of word characters at its index. */
  lemma {:induction false} ScanMatch(isWord: char -> bool, s: string, base: nat, m: Match)
    requires m in Scan(isWord, s, base)
    ensures FoundIn(isWord, s, base, m) && Maximal(isWord, s, base, m)
    decreases |s|
  {
    if !isWord(s[0]) {
      ScanMatch(isWord, s[1..], base + 1, m);
      FoundAfter(isWord, s, base, 1, m);
    } else {
      var n := RunLength(isWord, s);
      var rest := Scan(isWord, s[n..], base + n);
      assert Scan(isWord, s, base) == [Match(base, s[..n])] + rest;
      if m == Match(base, s[..n]) {
        assert s[0..n] == s[..n];
      } else {
        assert m in rest;
        ScanMatch(isWord, s[n..], base + n, m);
        var i := m.index - (base + n);
        assert isWord(s[n..][i]);
        assert !isWord(s[n..][0]);
        FoundAfter(isWord, s, base, n, m);
      }
    }
  }

  /**
   * A maximal run found in `s[d..]` is one in `s`, unless it starts right at `d` behind a
   * word character.
   */
  lemma FoundAfter(isWord: char -> bool, s: string, base: nat, d: nat, m: Match)
    requires 0 < d <= |s| && FoundIn(isWord, s[d..], base + d, m) && Maximal(isWord, s[d..], base + d, m)
    requires m.index > base + d || !isWord(s[d - 1])
    ensures FoundIn(isWord, s, base, m) && Maximal(isWord, s, base, m)
  {
    var i := m.index - base;
    var j := i + |m.term|;
    assert s[i..j] == s[d..][i - d..j - d];
    if i > d {
      assert s[i - 1] == s[d..][i - d - 1];
    }
    if j < |s| {
      assert s[j] == s[d..][j - d];
    }
  }

  /** Matches run left to right, with at least one separator between consecutive ones. */
  lemma ScanOrdered(isWord: char -> bool, s: string, base: nat)
    ensures forall k :: 0 <= k < |Scan(isWord, s, base)| ==> base <= Scan(isWord, s, base)[k].index
    ensures forall k :: 0 <= k < |Scan(isWord, s, base)| - 1 ==>
      Scan(isWord, s, base)[k].index + |Scan(isWord, s, base)[k].term| < Scan(isWord, s, base)[k + 1].index
  {
    var r := Scan(isWord, s, base);
    ScanFound(isWord, s, base);
    forall k | 0 <= k < |r|
      ensures base <= r[k].index
    {
      assert r[k] in r;
    }
    ScanGaps(isWord, s, base);
  }

  lemma {:induction false} ScanGaps(isWord: char -> bool, s: string, base: nat)
    ensures var r := Scan(isWord, s, base);
      forall k :: 0 <= k < |r| - 1 ==> r[k].index + |r[k].term| < r[k + 1].index
    decreases |s|
  {
    if s != [] {
      if !isWord(s[0]) {
        ScanGaps(isWord, s[1..], base + 1);
        assert Scan(isWord, s, base) == Scan(isWord, s[1..], base + 1);
      } else {
        var n := RunLength(isWord, s);
        var rest := Scan(isWord, s[n..], base + n);
        var r := Scan(isWord, s, base);
        assert r == [Match(base, s[..n])] + rest;
        ScanGaps(isWord, s[n..], base + n);
        if rest != [] {
          FirstMatchAfterRun(isWord, s, base, n, rest);
        }
        forall k | 0 <= k < |r| - 1
          ensures r[k].index + |r[k].term| < r[k + 1].index
        {
          if k > 0 {
            assert r[k] == rest[k - 1] && r[k + 1] == rest[k];
          } else {
            assert r[0].index + |r[0].term| == base + n && r[1] == rest[0];
          }
        }
      }
    }
  }

  /** The match after a run of word characters starts past the separator that ends the run. */
  lemma FirstMatchAfterRun(isWord: char -> bool, s: string, base: nat, n: nat, rest: seq<Match>)
    requires s != [] && isWord(s[0]) && n == RunLength(isWord, s)
    requires rest == Scan(isWord, s[n..], base + n) && rest != []
    ensures base + n < rest[0].index
  {
    assert rest[0] in rest;
    ScanMatch(isWord, s[n..], base + n, rest[0]);
    var i := rest[0].index - (base + n);
    assert isWord(s[n..][i]);
    assert !isWord(s[n..][0]);
  }

  // ---------------------------------------------------------------------------
  // Tokens and separators
  // ---------------------------------------------------------------------------

  function Flatten(ts: seq<string>): string
  {
    if ts == [] then [] else ts[0] + Flatten(ts[1..])
  }

  /** The input with every non-word character deleted. */
  function WordChars(isWord: char -> bool, s: string): string
  {
    if s == [] then [] else (if isWord(s[0]) then [s[0]] else []) + WordChars(isWord, s[1..])
  }

  lemma {:induction false} WordCharsAppend(isWord: char -> bool, a: string, b: string)
    ensures WordChars(isWord, a + b) == WordChars(isWord, a) + WordChars(isWord, b)
  {
    if a == [] {
      assert a + b == b;
    } else {
      var h := if isWord(a[0]) then [a[0]] else [];
      var wa, wb := WordChars(isWord, a[1..]), WordChars(isWord, b);
      WordCharsAppend(isWord, a[1..], b);
      assert WordChars(isWord, a + b) == h + (wa + wb) by {
        assert (a + b)[0] == a[0] && (a + b)[1..] == a[1..] + b;
      }
      assert WordChars(isWord, a) == h + wa;
      assert h + (wa + wb) == (h + wa) + wb;
    }
  }

  lemma {:induction false} WordCharsOfWord(isWord: char -> bool, a: string)
    requires AllWord(isWord, a)
    ensures WordChars(isWord, a) == a
  {
    if a != [] {
      WordCharsOfWord(isWord, a[1..]);
    }
  }

  lemma {:induction false} ScanCovers(isWord: char -> bool, s: string, base: nat)
    ensures Flatten(Terms(Scan(isWord, s, base))) == WordChars(isWord, s)
    decreases |s|
  {
    if s != [] {
      if !isWord(s[0]) {
        ScanCovers(isWord, s[1..], base + 1);
      } else {
        var n := RunLength(isWord, s);
        var ms := Scan(isWord, s, base);
        ScanCovers(isWord, s[n..], base + n);
        assert Terms(ms)[1..] == Terms(Scan(isWord, s[n..], base + n));
        assert s == s[..n] + s[n..];
        WordCharsAppend(isWord, s[..n], s[n..]);
        WordCharsOfWord(isWord, s[..n]);
      }
    }
  }

  /** Deleting every non-word character from the input leaves exactly the tokens, concatenated. */
  lemma TokensAreTheWordCharacters(isWord: char -> bool, query: string)
    ensures Flatten(Tokenize(isWord, query)) == WordChars(isWord, query)
  {
    ScanCovers(isWord, query, 0);
  }

  /** Each token is a non-empty maximal run of word characters, found at its match index. */
  lemma TokensAreMaximalRuns(isWord: char -> bool, query: string)
    ensures forall m :: m in Matches(isWord, query) ==> FoundIn(isWord, query, 0, m) && Maximal(isWord, query, 0, m)
    ensures forall k :: 0 <= k < |Matches(isWord, query)| - 1 ==>
      Matches(isWord, query)[k].index + |Matches(isWord, query)[k].term| < Matches(isWord, query)[k + 1].index
  {
    ScanFound(isWord, query, 0);
    ScanOrdered(isWord, query, 0);
  }

  /** Input without word characters (empty, blanks, punctuation) has no tokens. */
  lemma {:induction false} NoWordsNoTokens(isWord: char -> bool, query: string)
    requires forall i :: 0 <= i < |query| ==> !isWord(query[i])
    ensures Tokenize(isWord, query) == []
    decreases |query|
  {
    if query != [] {
      NoWordsNoTokens(isWord, query[1..]);
      assert Matches(isWord, query) == Matches(isWord, query[1..]) by {
        ScanBaseFree(isWord, query[1..], 1, 0);
      }
    }
  }

  /** Where a scan starts changes the indices only. */
  lemma {:induction false} ScanBaseFree(isWord: char -> bool, s: string, b: nat, b': nat)
    ensures Terms(Scan(isWord, s, b)) == Terms(Scan(isWord, s, b'))
    ensures Scan(isWord, s, b) == [] <==> Scan(isWord, s, b') == []
    decreases |s|
  {
    if s != [] {
      if !isWord(s[0]) {
        ScanBaseFree(isWord, s[1..], b + 1, b' + 1);
      } else {
        var n := RunLength(isWord, s);
        ScanBaseFree(isWord, s[n..], b + n, b' + n);
      }
    }
  }

  // ---------------------------------------------------------------------------
  // Idempotence
  // ---------------------------------------------------------------------------

  /** `tokens.join(' ')`. */
  function JoinSpaced(ts: seq<string>): string
  {
    if ts == [] then []
    else if |ts| == 1 then ts[0]
    else ts[0] + " " + JoinSpaced(ts[1..])
  }

  lemma {:induction false} RunOfWord(isWord: char -> bool, t: string, rest: string)
    requires AllWord(isWord, t)
    requires rest == [] || !isWord(rest[0])
    ensures RunLength(isWord, t + rest) == |t|
    decreases |t|
  {
    if t != [] {
      assert (t + rest)[1..] == t[1..] + rest;
      RunOfWord(isWord, t[1..], rest);
    }
  }

  /** Space-joined word runs tokenize back to the same runs. */
  lemma {:induction false} TokenizeJoined(isWord: char -> bool, ts: seq<string>)
    requires !isWord(' ')
    requires forall k :: 0 <= k < |ts| ==> ts[k] != [] && AllWord(isWord, ts[k])
    ensures Tokenize(isWord, JoinSpaced(ts)) == ts
    decreases |ts|
  {
    if |ts| == 1 {
      var t := ts[0];
      RunOfWord(isWord, t, []);
      assert t + [] == t;
      assert isWord(t[0]);
      assert t[..|t|] == t && t[|t|..] == [];
      assert Scan(isWord, t, 0) == [Match(0, t)] + Scan(isWord, [], |t|);
    } else if |ts| > 1 {
      var t, rest := ts[0], JoinSpaced(ts[1..]);
      var s := t + " " + rest;
      assert s == t + (" " + rest);
      RunOfWord(isWord, t, " " + rest);
      assert s[..|t|] == t && s[|t|..] == " " + rest;
      assert (" " + rest)[1..] == rest && (" " + rest)[0] == ' ';
      assert s[0] == t[0] && isWord(s[0]);
      assert Scan(isWord, s, 0) == [Match(0, t)] + Scan(isWord, " " + rest, |t|);
      assert Scan(isWord, " " + rest, |t|) == Scan(isWord, rest, |t| + 1);
      TokenizeJoined(isWord, ts[1..]);
      ScanBaseFree(isWord, rest, |t| + 1, 0);
      assert Tokenize(isWord, s) == [t] + Terms(Scan(isWord, rest, |t| + 1));
    }
  }

  /** Tokenizing the space-joined tokens gives the same tokens back. */
  lemma TokenizeIdempotent(isWord: char -> bool, query: string)
    requires !isWord(' ')
    ensures Tokenize(isWord, JoinSpaced(Tokenize(isWord, query))) == Tokenize(isWord, query)
  {
    ScanFound(isWord, query, 0);
    var ms := Matches(isWord, query);
    forall k | 0 <= k < |ms|
      ensures Tokenize(isWord, query)[k] != [] && AllWord(isWord, Tokenize(isWord, query)[k])
    {
      assert ms[k] in ms;
    }
    TokenizeJoined(isWord, Tokenize(isWord, query));
  }
}
