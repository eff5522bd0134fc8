// The two stream tokenizers.  Each consumes a document one line per `_transform` call
// and pushes one token per regex match of the line.
//  - src/index/tokenizer.ts numbers words across the whole document (`pos` = word ordinal);
//  - src/index/tokenizer/tokenizer.stream.ts records each word's character offset in its line.
// Lengths and offsets are JavaScript's, counted in UTF-16 code units.
// A stream's pushes are kept in a ghost log; the pushed tokens of the whole stream are a
// fold over the lines seen.

module WordOrdinalTokenizer {
  import opened Tokenizer
  import opened Text

  datatype Token = Token(term: string, line: nat, pos: nat, len: nat)

  /** The tokens of one line, numbered on from the `before` words already seen. */
  function LineTokens(isWord: char -> bool, line: string, lineNo: nat, before: nat): (r: seq<Token>)
    ensures |r| == |Tokenize(isWord, line)|
  {
    var ts := Tokenize(isWord, line);
    seq(|ts|, k requires 0 <= k < |ts| => Token(ts[k], lineNo, before + k + 1, Utf16Length(ts[k])))
  }

  /** Everything pushed for the lines `lines`, the first numbered line 1. */
  function StreamTokens(isWord: char -> bool, lines: seq<string>): seq<Token>
  {
    if lines == [] then []
    else
      var prev := StreamTokens(isWord, lines[..|lines| - 1]);
      prev + LineTokens(isWord, lines[|lines| - 1], |lines|, |prev|)
  }

  class TokenizerStream {
    var lineCounter: nat
    var wordPosCounter: nat
    const isWord: char -> bool
    ghost var lines: seq<string>
    ghost var pushed: seq<Token>

    ghost predicate Valid()
      reads this
    {
      lineCounter == |lines| && pushed == StreamTokens(isWord, lines) && wordPosCounter == |pushed|
    }

    constructor (isWord: char -> bool)
      ensures Valid() && this.isWord == isWord && lines == [] && pushed == []
    {
      this.isWord := isWord;
      lineCounter := 0;
      wordPosCounter := 0;
      lines := [];
      pushed := [];
    }

    method Transform(line: string) returns (out: seq<Token>)
      requires Valid()
      modifies this
      ensures Valid()
      ensures lines == old(lines) + [line] && pushed == old(pushed) + out
      ensures out == LineTokens(isWord, line, lineCounter, old(wordPosCounter))
    {
      lineCounter := lineCounter + 1;
      var ms := Matches(isWord, line);
      ghost var expected := LineTokens(isWord, line, lineCounter, wordPosCounter);
      out := [];
      var k := 0;
      while k < |ms|
        invariant 0 <= k <= |ms|
        invariant wordPosCounter == old(wordPosCounter) + k
        invariant out == expected[..k]
        invariant lines == old(lines) && pushed == old(pushed) && lineCounter == old(lineCounter) + 1
      {
        assert expected[k] == Token(ms[k].term, lineCounter, wordPosCounter + 1, Utf16Length(ms[k].term));
        wordPosCounter := wordPosCounter + 1;
        var term := ms[k].term;
        out := out + [Token(term, lineCounter, wordPosCounter, Utf16Length(term))];
        k := k + 1;
      }
      assert out == expected;
      lines := lines + [line];
      pushed := pushed + out;
      assert lines[..|lines| - 1] == old(lines);
    }
  }

  /**
   * Over a whole stream the k-th token (from 0) has pos k + 1: positions run 1, 2, 3, …
   * with no gaps and no reset at line breaks; `line` is 1-based and never decreases, and
   * `len` is the term's length in UTF-16 code units.
   */
  lemma {:induction false} StreamNumbering(isWord: char -> bool, lines: seq<string>)
    ensures forall k :: 0 <= k < |StreamTokens(isWord, lines)| ==>
      var t := StreamTokens(isWord, lines)[k];
      t.pos == k + 1 && 1 <= t.line <= |lines| && t.len == Utf16Length(t.term)
    ensures forall j, k :: 0 <= j < k < |StreamTokens(isWord, lines)| ==>
      StreamTokens(isWord, lines)[j].line <= StreamTokens(isWord, lines)[k].line
  {
    if lines != [] {
      StreamNumbering(isWord, lines[..|lines| - 1]);
    }
  }
}

module OffsetTokenizer {
  import opened Tokenizer
  import opened Text

  datatype Token = Token(term: string, line: nat, position: nat, length: nat)

  /** One token per match of the line: its text, the line number, its UTF-16 offset in the line and its UTF-16 length. */
  function LineTokens(isWord: char -> bool, line: string, lineNo: nat): (r: seq<Token>)
    ensures |r| == |Matches(isWord, line)|
  {
    var ms := Matches(isWord, line);
    seq(|ms|, k requires 0 <= k < |ms| => Token(ms[k].term, lineNo, Utf16Offset(line, ms[k].index), Utf16Length(ms[k].term)))
  }

  function StreamTokens(isWord: char -> bool, lines: seq<string>): seq<Token>
  {
    if lines == [] then []
    else StreamTokens(isWord, lines[..|lines| - 1]) + LineTokens(isWord, lines[|lines| - 1], |lines|)
  }

  class TokenizerStream {
    var lineCounter: nat
    const isWord: char -> bool
    ghost var lines: seq<string>
    ghost var pushed: seq<Token>

    ghost predicate Valid()
      reads this
    {
      lineCounter == |lines| && pushed == StreamTokens(isWord, lines)
    }

    constructor (isWord: char -> bool)
      ensures Valid() && this.isWord == isWord && lines == [] && pushed == []
    {
      this.isWord := isWord;
      lineCounter := 0;
      lines := [];
      pushed := [];
    }

    method Transform(line: string) returns (out: seq<Token>)
      requires Valid()
      modifies this
      ensures Valid()
      ensures lines == old(lines) + [line] && pushed == old(pushed) + out
      ensures out == LineTokens(isWord, line, lineCounter)
    {
      lineCounter := lineCounter + 1;
      var ms := Matches(isWord, line);
      ghost var expected := LineTokens(isWord, line, lineCounter);
      out := [];
      for k := 0 to |ms|
        invariant out == expected[..k]
        invariant lines == old(lines) && pushed == old(pushed) && lineCounter == old(lineCounter) + 1
      {
        var term := ms[k].term;
        var position := Utf16Offset(line, ms[k].index);
        out := out + [Token(term, lineCounter, position, Utf16Length(term))];
      }
      assert out == expected;
      lines := lines + [line];
      pushed := pushed + out;
      assert lines[..|lines| - 1] == old(lines);
    }
  }

  /**
   * Every token of a line names the line and is a maximal word run of it; its position is
   * the UTF-16 length of the text before the run and its length the run's UTF-16 length,
   * so it ends inside the line, and tokens do not overlap: the next starts past the end of
   * the previous.
   */
  lemma LineTokensInLine(isWord: char -> bool, line: string, lineNo: nat)
    ensures forall k :: 0 <= k < |LineTokens(isWord, line, lineNo)| ==>
      var t, m := LineTokens(isWord, line, lineNo)[k], Matches(isWord, line)[k];
      && t.term == m.term && t.line == lineNo && t.term != []
      && m.index + |m.term| <= |line| && line[m.index..m.index + |m.term|] == t.term
      && (m.index == 0 || !isWord(line[m.index - 1]))
      && (m.index + |m.term| == |line| || !isWord(line[m.index + |m.term|]))
      && t.position == Utf16Length(line[..m.index]) && t.length == Utf16Length(t.term)
      && t.position + t.length <= Utf16Length(line)
    ensures forall k :: 0 <= k < |LineTokens(isWord, line, lineNo)| - 1 ==>
      LineTokens(isWord, line, lineNo)[k].position + LineTokens(isWord, line, lineNo)[k].length
        < LineTokens(isWord, line, lineNo)[k + 1].position
  {
    var ts := LineTokens(isWord, line, lineNo);
    forall k | 0 <= k < |ts| {
      LineTokenAt(isWord, line, lineNo, k);
    }
    forall k | 0 <= k < |ts| - 1 {
      LineTokensApart(isWord, line, lineNo, k);
    }
  }

  /** The k-th token of a line: its match, its maximality and its UTF-16 offsets. */
  lemma LineTokenAt(isWord: char -> bool, line: string, lineNo: nat, k: nat)
    requires k < |LineTokens(isWord, line, lineNo)|
    ensures var t, m := LineTokens(isWord, line, lineNo)[k], Matches(isWord, line)[k];
      && t.term == m.term && t.line == lineNo && t.term != []
      && m.index + |m.term| <= |line| && line[m.index..m.index + |m.term|] == t.term
      && (m.index == 0 || !isWord(line[m.index - 1]))
      && (m.index + |m.term| == |line| || !isWord(line[m.index + |m.term|]))
      && t.position == Utf16Length(line[..m.index]) && t.length == Utf16Length(t.term)
      && t.position + t.length == Utf16Length(line[..m.index + |m.term|])
      && t.position + t.length <= Utf16Length(line)
  {
    TokensAreMaximalRuns(isWord, line);
    var ms := Matches(isWord, line);
    assert ms[k] in ms;
    var i, j := ms[k].index, ms[k].index + |ms[k].term|;
    Utf16OffsetPrefix(line, i);
    assert line[..j] == line[..i] + line[i..j];
    Utf16LengthAppend(line[..i], line[i..j]);
    assert line == line[..j] + line[j..];
    Utf16LengthAppend(line[..j], line[j..]);
  }

  /** Where the k-th token of a line starts and ends, in UTF-16 code units. */
  lemma LineTokenSpan(isWord: char -> bool, line: string, lineNo: nat, k: nat)
    requires k < |LineTokens(isWord, line, lineNo)|
    ensures var t, m := LineTokens(isWord, line, lineNo)[k], Matches(isWord, line)[k];
      && m.index + |m.term| <= |line|
      && t.position == Utf16Length(line[..m.index])
      && t.position + t.length == Utf16Length(line[..m.index + |m.term|])
  {
    var ms := Matches(isWord, line);
    ScanMatch(isWord, line, 0, ms[k]);
    var i, j := ms[k].index, ms[k].index + |ms[k].term|;
    Utf16OffsetPrefix(line, i);
    assert line[..j] == line[..i] + line[i..j];
    Utf16LengthAppend(line[..i], line[i..j]);
  }

  /** Consecutive tokens of a line leave at least one code unit between them. */
  lemma LineTokensApart(isWord: char -> bool, line: string, lineNo: nat, k: nat)
    requires k + 1 < |LineTokens(isWord, line, lineNo)|
    ensures LineTokens(isWord, line, lineNo)[k].position + LineTokens(isWord, line, lineNo)[k].length
      < LineTokens(isWord, line, lineNo)[k + 1].position
  {
    LineTokenSpan(isWord, line, lineNo, k);
    LineTokenSpan(isWord, line, lineNo, k + 1);
    var ms := Matches(isWord, line);
    ScanGaps(isWord, line, 0);
    assert ms == Scan(isWord, line, 0) && k + 1 < |ms|;
    var j, i' := ms[k].index + |ms[k].term|, ms[k + 1].index;
    assert j < i';
    Utf16PrefixGrows(line, j, i');
  }
}
