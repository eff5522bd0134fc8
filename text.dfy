// The few JavaScript string operations the core relies on: whitespace trimming
// (`trim`, and the leading skip of `parseInt`), `indexOf` of a character, and `split` on a
// one-character separator; and `length` and `index`, which JavaScript counts in UTF-16 code
// units, where a Dafny string counts characters.

module Text {
  import opened Wrappers

  /** JavaScript's white space and line terminators: what `trim` and `parseInt` skip. */
  predicate IsJsSpace(c: char)
  {
    || c == ' ' || c == '\t' || c == '\n' || c == '\r' || c == '\U{000B}' || c == '\U{000C}'
    || c == '\U{00A0}' || c == '\U{1680}' || ('\U{2000}' <= c <= '\U{200A}')
    || c == '\U{2028}' || c == '\U{2029}' || c == '\U{202F}' || c == '\U{205F}'
    || c == '\U{3000}' || c == '\U{FEFF}'
  }

  predicate AllSpace(s: string)
  {
    forall i :: 0 <= i < |s| ==> IsJsSpace(s[i])
  }

  function TrimStart(s: string): (r: string)
    ensures |r| <= |s| && r == s[|s| - |r|..] && AllSpace(s[..|s| - |r|])
    ensures r != [] ==> !IsJsSpace(r[0])
  {
    if s != [] && IsJsSpace(s[0]) then TrimStart(s[1..]) else s
  }

  function TrimEnd(s: string): (r: string)
    ensures |r| <= |s| && r == s[..|r|] && AllSpace(s[|r|..])
    ensures r != [] ==> !IsJsSpace(r[|r| - 1])
  {
    if s != [] && IsJsSpace(s[|s| - 1]) then TrimEnd(s[..|s| - 1]) else s
  }

  /** `s.trim()`. */
  function Trim(s: string): string
  {
    TrimEnd(TrimStart(s))
  }

  /** `trim` removes only surrounding white space: the input is the result padded with white space. */
  lemma TrimMeaning(s: string)
    ensures exists a, b :: AllSpace(a) && AllSpace(b) && s == a + Trim(s) + b
  {
    var t := TrimStart(s);
    var r := TrimEnd(t);
    var a, b := s[..|s| - |t|], t[|r|..];
    Padded(s, a, t, r, b);
    assert AllSpace(a) && AllSpace(b) && s == a + Trim(s) + b;
  }

  lemma Padded(s: string, a: string, t: string, r: string, b: string)
    requires |t| <= |s| && t == s[|s| - |t|..] && a == s[..|s| - |t|]
    requires |r| <= |t| && r == t[..|r|] && b == t[|r|..]
    ensures s == a + r + b
  {
    assert t == r + b;
    assert s == a + t;
  }

  /** …and the result neither starts nor ends with white space. */
  lemma TrimEdges(s: string)
    ensures Trim(s) != [] ==> !IsJsSpace(Trim(s)[0]) && !IsJsSpace(Trim(s)[|Trim(s)| - 1])
  {
    var t := TrimStart(s);
    var r := TrimEnd(t);
    if r != [] {
      assert r[0] == t[0];
    }
  }

  /** `trim` of a word padded with white space is the word. */
  lemma TrimPadded(a: string, w: string, b: string)
    requires AllSpace(a) && AllSpace(b)
    requires w != [] && !IsJsSpace(w[0]) && !IsJsSpace(w[|w| - 1])
    ensures Trim(a + w + b) == w
  {
    assert a + w + b == a + (w + b);
    TrimStartSpaces(a, w + b);
    TrimEndSpaces(w, b);
  }

  lemma {:induction false} TrimStartSpaces(a: string, s: string)
    requires AllSpace(a) && s != [] && !IsJsSpace(s[0])
    ensures TrimStart(a + s) == s
  {
    if a != [] {
      assert (a + s)[1..] == a[1..] + s;
      TrimStartSpaces(a[1..], s);
    } else {
      assert a + s == s;
    }
  }

  lemma {:induction false} TrimEndSpaces(s: string, b: string)
    requires AllSpace(b) && s != [] && !IsJsSpace(s[|s| - 1])
    ensures TrimEnd(s + b) == s
  {
    if b != [] {
      var n := |b| - 1;
      assert (s + b)[..|s + b| - 1] == s + b[..n];
      TrimEndSpaces(s, b[..n]);
    } else {
      assert s + b == s;
    }
  }

  /** White space alone trims to the empty string. */
  lemma {:induction false} AllSpaceTrimsAway(s: string)
    requires AllSpace(s)
    ensures Trim(s) == []
  {
    if s != [] {
      AllSpaceTrimsAway(s[1..]);
    }
  }

  /** The first index of `c` in `s`, if any. */
  function IndexOf(s: string, c: char): (r: Option<nat>)
    ensures r.None? ==> c !in s
    ensures r.Some? ==> r.value < |s| && s[r.value] == c && c !in s[..r.value]
  {
    if s == [] then None
    else if s[0] == c then Some(0)
    else match IndexOf(s[1..], c)
      case None => None
      case Some(i) => assert s[..i + 1] == [s[0]] + s[1..][..i]; Some(i + 1)
  }

  /** `s.split(sep)`: the pieces between separators; the empty string splits to one empty piece. */
  function Split(s: string, sep: char): (r: seq<string>)
    ensures |r| >= 1
    ensures forall k :: 0 <= k < |r| ==> sep !in r[k]
    decreases |s|
  {
    match IndexOf(s, sep)
    case None => [s]
    case Some(i) => [s[..i]] + Split(s[i + 1..], sep)
  }

  /** `parts.join(sep)`. */
  function Join(parts: seq<string>, sep: char): string
    requires |parts| >= 1
  {
    if |parts| == 1 then parts[0] else parts[0] + [sep] + Join(parts[1..], sep)
  }

  /** Joining the pieces with the separator gives back the string. */
  lemma {:induction false} SplitJoin(s: string, sep: char)
    ensures Join(Split(s, sep), sep) == s
    decreases |s|
  {
    match IndexOf(s, sep)
    case None =>
    case Some(i) =>
      var rest := Split(s[i + 1..], sep);
      SplitJoin(s[i + 1..], sep);
      var parts := [s[..i]] + rest;
      assert Split(s, sep) == parts;
      assert parts[0] == s[..i] && parts[1..] == rest;
      assert Join(parts, sep) == s[..i] + [sep] + Join(rest, sep);
      assert s == s[..i] + [sep] + s[i + 1..];
  }

  /** Splitting a join of separator-free pieces gives back the pieces. */
  lemma {:induction false} JoinSplit(parts: seq<string>, sep: char)
    requires |parts| >= 1 && forall k :: 0 <= k < |parts| ==> sep !in parts[k]
    ensures Split(Join(parts, sep), sep) == parts
  {
    if |parts| > 1 {
      var p, rest := parts[0], Join(parts[1..], sep);
      JoinSplit(parts[1..], sep);
      SplitAt(p, rest, sep);
    } else {
      assert IndexOf(parts[0], sep).None?;
    }
  }

  /** A separator-free prefix ending at a separator is the first piece. */
  lemma SplitAt(a: string, rest: string, sep: char)
    requires sep !in a
    ensures Split(a + [sep] + rest, sep) == [a] + Split(rest, sep)
  {
    var s := a + [sep] + rest;
    IndexOfAfter(a, [sep] + rest, sep);
    assert s == a + ([sep] + rest);
    assert s[..|a|] == a && s[|a| + 1..] == rest;
  }

  lemma {:induction false} IndexOfAfter(a: string, b: string, sep: char)
    requires sep !in a && b != [] && b[0] == sep
    ensures IndexOf(a + b, sep) == Some(|a|)
  {
    if a != [] {
      assert (a + b)[1..] == a[1..] + b;
      IndexOfAfter(a[1..], b, sep);
    }
  }

  // ---------------------------------------------------------------------------
  // UTF-16 lengths
  // ---------------------------------------------------------------------------

  /** The UTF-16 code units of one character: two outside the Basic Multilingual Plane. */
  function CodeUnits(c: char): nat
  {
    if c as int >= 0x1_0000 then 2 else 1
  }

  /** `s.length`: the number of UTF-16 code units, between one and two per character. */
  function Utf16Length(s: string): (n: nat)
    ensures |s| <= n <= 2 * |s|
  {
    if s == [] then 0 else CodeUnits(s[0]) + Utf16Length(s[1..])
  }

  /** The UTF-16 offset of character `i` of `s`, as a regex match's `index` reports it. */
  function Utf16Offset(s: string, i: nat): nat
  {
    if i == 0 || s == [] then 0 else CodeUnits(s[0]) + Utf16Offset(s[1..], i - 1)
  }

  /** Lengths add up over concatenation. */
  lemma {:induction false} Utf16LengthAppend(a: string, b: string)
    ensures Utf16Length(a + b) == Utf16Length(a) + Utf16Length(b)
  {
    if a == [] {
      assert a + b == b;
    } else {
      assert (a + b)[1..] == a[1..] + b;
      Utf16LengthAppend(a[1..], b);
    }
  }

  /** The offset of character `i` is the length of the text before it. */
  lemma {:induction false} Utf16OffsetPrefix(s: string, i: nat)
    requires i <= |s|
    ensures Utf16Offset(s, i) == Utf16Length(s[..i])
  {
    if i > 0 {
      Utf16OffsetPrefix(s[1..], i - 1);
      assert s[..i][1..] == s[1..][..i - 1];
    }
  }

  /** A longer prefix has a larger UTF-16 length. */
  lemma Utf16PrefixGrows(s: string, j: nat, i: nat)
    requires j < i <= |s|
    ensures Utf16Length(s[..j]) < Utf16Length(s[..i])
  {
    assert s[..i] == s[..j] + s[j..i];
    Utf16LengthAppend(s[..j], s[j..i]);
  }

  /** "𝐀x b": the letter U+1D400 takes two code units, so the string has length 5 and "b" sits at offset 4. */
  lemma AstralCharCountsTwice()
    ensures Utf16Length("\U{1D400}x") == 3
    ensures Utf16Offset("\U{1D400}x b", 3) == 4 && Utf16Length("\U{1D400}x b") == 5
  {
    assert "\U{1D400}x"[1..] == "x";
    assert "\U{1D400}x b"[1..] == "x b";
    assert "x b"[1..] == " b";
    assert " b"[1..] == "b";
    assert "b"[1..] == "";
  }
}
