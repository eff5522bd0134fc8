// Query and index normalization (src/index/normalizer/normalizer.ts): terms become lemmas
// through the document-information service, stop words are dropped, and in boolean mode
// parentheses and operators pass through.  `toLowerCase` and `toUpperCase` are
// parameters.

module Normalizer {
  import opened Wrappers
  import opened DocInfo

  /** `val ? val : term.toLowerCase()`: a missing or empty lemma falls back to the lowercased term. */
  function Resolve(lower: string -> string, term: string, val: Option<string>): string
  {
    if val.Some? && val.value != "" then val.value else lower(term)
  }

  /** fetchLemmas: each term's stored lemma, or its lowercased self. */
  function LemmasFor(lower: string -> string, terms: seq<string>, s: Store): (r: seq<string>)
    ensures |r| == |terms|
  {
    seq(|terms|, i requires 0 <= i < |terms| => Resolve(lower, terms[i], s.Lemma(terms[i])))
  }

  /** The lemmas whose stop-word flag is false, in order and with repeats. */
  function KeepNonStop(lemmas: seq<string>, isStop: seq<bool>): seq<string>
    requires |isStop| == |lemmas|
  {
    if lemmas == [] then []
    else
      var n := |lemmas| - 1;
      KeepNonStop(lemmas[..n], isStop[..n]) + (if isStop[n] then [] else [lemmas[n]])
  }

  /** normalizeTerms outside boolean mode. */
  function PlainTerms(lower: string -> string, terms: seq<string>, s: Store): seq<string>
  {
    var lemmas := LemmasFor(lower, terms, s);
    KeepNonStop(lemmas, s.StopFlags(lemmas))
  }

  predicate IsParen(t: string)
  {
    t == "(" || t == ")"
  }

  /** `BOOL_OPS.has(t.toUpperCase())`. */
  predicate IsOperatorWord(upper: string -> string, t: string)
  {
    upper(t) == "AND" || upper(t) == "OR" || upper(t) == "NOT"
  }

  /** The lexemes to lemmatize: everything but parentheses and operators, in order. */
  function Lexemes(upper: string -> string, terms: seq<string>): seq<string>
  {
    if terms == [] then []
    else
      var t := terms[|terms| - 1];
      Lexemes(upper, terms[..|terms| - 1]) + (if IsParen(t) || IsOperatorWord(upper, t) then [] else [t])
  }

  /** The output of the second boolean-mode loop: parentheses kept, operators uppercased, lexemes replaced in turn. */
  function Rebuild(upper: string -> string, terms: seq<string>, lemmas: seq<string>): seq<string>
    requires |lemmas| == |Lexemes(upper, terms)|
  {
    if terms == [] then []
    else
      var n := |terms| - 1;
      var t := terms[n];
      if IsParen(t) then Rebuild(upper, terms[..n], lemmas) + [t]
      else if IsOperatorWord(upper, t) then Rebuild(upper, terms[..n], lemmas) + [upper(t)]
      else Rebuild(upper, terms[..n], lemmas[..|lemmas| - 1]) + [lemmas[|lemmas| - 1]]
  }

  /** normalizeTerms in boolean mode. */
  function BooleanTerms(lower: string -> string, upper: string -> string, terms: seq<string>, s: Store): seq<string>
  {
    Rebuild(upper, terms, LemmasFor(lower, Lexemes(upper, terms), s))
  }

  /** normalizeForIndexing: one entry per term, None (null) where the lemma is a stop word. */
  function IndexingForms(lower: string -> string, terms: seq<string>, s: Store): (r: seq<Option<string>>)
    ensures |r| == |terms|
  {
    var lemmas := LemmasFor(lower, terms, s);
    seq(|terms|, i requires 0 <= i < |terms| => if s.IsStopWord(lemmas[i]) then None else Some(lemmas[i]))
  }

  /** A request the normalizer makes, or nothing when it has no terms to ask about. */
  function LemmaCall(terms: seq<string>): seq<Call>
  {
    if terms == [] then [] else [Lemmas(terms)]
  }

  function StopCall(lemmas: seq<string>): seq<Call>
  {
    if lemmas == [] then [] else [StopWords(lemmas)]
  }

  class Normalizer {
    const docInfo: DocumentInfoService
    const lower: string -> string
    const upper: string -> string

    constructor (docInfo: DocumentInfoService, lower: string -> string, upper: string -> string)
      ensures this.docInfo == docInfo && this.lower == lower && this.upper == upper
    {
      this.docInfo := docInfo;
      this.lower := lower;
      this.upper := upper;
    }

    method NormalizeTerms(terms: seq<string>, isBooleanQuery: bool) returns (out: seq<string>)
      modifies docInfo
      ensures !isBooleanQuery ==> out == PlainTerms(lower, terms, docInfo.store)
      ensures !isBooleanQuery ==>
        docInfo.calls == old(docInfo.calls) + LemmaCall(terms) + StopCall(LemmasFor(lower, terms, docInfo.store))
      ensures isBooleanQuery ==> out == BooleanTerms(lower, upper, terms, docInfo.store)
      ensures isBooleanQuery ==> docInfo.calls == old(docInfo.calls) + LemmaCall(Lexemes(upper, terms))
    {
      if !isBooleanQuery {
        var lemmas := FetchLemmas(terms);
        var isStop := CheckStopWords(lemmas);
        out := [];
        for i := 0 to |terms|
          invariant out == KeepNonStop(lemmas[..i], isStop[..i])
        {
          assert lemmas[..i + 1][..i] == lemmas[..i] && isStop[..i + 1][..i] == isStop[..i];
          if !isStop[i] {
            out := out + [lemmas[i]];
          }
        }
        assert lemmas[..|terms|] == lemmas && isStop[..|terms|] == isStop;
        return;
      }
      var termValues := [];
      for i := 0 to |terms|
        invariant termValues == Lexemes(upper, terms[..i])
      {
        var t := terms[i];
        assert terms[..i + 1][..i] == terms[..i];
        if t == "(" || t == ")" {
          continue;
        }
        if IsOperatorWord(upper, t) {
          continue;
        }
        termValues := termValues + [t];
      }
      assert terms[..|terms|] == terms;
      var lemmas := FetchLemmas(termValues);
      out := Substitute(terms, lemmas);
    }

    /** The second boolean-mode loop, with its `termPtr` cursor into the lemmas. */
    method Substitute(terms: seq<string>, lemmas: seq<string>) returns (out: seq<string>)
      requires |lemmas| == |Lexemes(upper, terms)|
      ensures out == Rebuild(upper, terms, lemmas)
    {
      out := [];
      var termPtr := 0;
      for i := 0 to |terms|
        invariant termPtr == |Lexemes(upper, terms[..i])| <= |lemmas|
        invariant out == Rebuild(upper, terms[..i], lemmas[..termPtr])
      {
        var t := terms[i];
        assert terms[..i + 1][..i] == terms[..i];
        LexemesPrefix(upper, terms, i + 1);
        LexemesPrefixBound(upper, terms, i + 1);
        if t == "(" || t == ")" {
          out := out + [t];
          continue;
        }
        if IsOperatorWord(upper, t) {
          out := out + [upper(t)];
          continue;
        }
        assert lemmas[..termPtr + 1][..termPtr] == lemmas[..termPtr];
        out := out + [lemmas[termPtr]];
        termPtr := termPtr + 1;
      }
      assert terms[..|terms|] == terms;
      assert lemmas[..termPtr] == lemmas;
    }

    method NormalizeForIndexing(terms: seq<string>) returns (r: seq<Option<string>>)
      modifies docInfo
      ensures r == IndexingForms(lower, terms, docInfo.store)
      ensures docInfo.calls
        == old(docInfo.calls) + LemmaCall(terms) + StopCall(LemmasFor(lower, terms, docInfo.store))
    {
      var lemmas := FetchLemmas(terms);
      var isStop := CheckStopWords(lemmas);
      r := seq(|terms|, i requires 0 <= i < |terms| => if isStop[i] then None else Some(lemmas[i]));
    }

    method FetchLemmas(terms: seq<string>) returns (lemmas: seq<string>)
      modifies docInfo
      ensures lemmas == LemmasFor(lower, terms, docInfo.store)
      ensures docInfo.calls == old(docInfo.calls) + LemmaCall(terms)
    {
      if |terms| == 0 {
        return [];
      }
      var vals := docInfo.GetLemmas(terms);
      lemmas := seq(|vals|, i requires 0 <= i < |vals| => if vals[i].Some? && vals[i].value != "" then vals[i].value else lower(terms[i]));
    }

    method CheckStopWords(lemmas: seq<string>) returns (isStop: seq<bool>)
      modifies docInfo
      ensures isStop == docInfo.store.StopFlags(lemmas)
      ensures docInfo.calls == old(docInfo.calls) + StopCall(lemmas)
    {
      if |lemmas| == 0 {
        return [];
      }
      isStop := docInfo.AreStopWords(lemmas);
    }
  }

  lemma {:induction false} LexemesPrefix(upper: string -> string, terms: seq<string>, i: nat)
    requires 0 < i <= |terms|
    ensures Lexemes(upper, terms[..i]) == Lexemes(upper, terms[..i - 1])
      + (if IsParen(terms[i - 1]) || IsOperatorWord(upper, terms[i - 1]) then [] else [terms[i - 1]])
  {
    assert terms[..i][..i - 1] == terms[..i - 1];
  }

  lemma {:induction false} LexemesPrefixBound(upper: string -> string, terms: seq<string>, k: nat)
    requires k <= |terms|
    ensures |Lexemes(upper, terms[..k])| <= |Lexemes(upper, terms)|
  {
    if k < |terms| {
      var n := |terms| - 1;
      LexemesPrefixBound(upper, terms[..n], k);
      assert terms[..n][..k] == terms[..k];
    } else {
      assert terms[..k] == terms;
    }
  }

  // ---------------------------------------------------------------------------
  // Properties
  // ---------------------------------------------------------------------------

  /**
   * Outside boolean mode a lemma survives iff it is not a stop word; the output never
   * grows, and a lemma keeps its position relative to the others.
   */
  lemma {:induction false} KeepNonStopMeaning(lemmas: seq<string>, s: Store)
    ensures |KeepNonStop(lemmas, s.StopFlags(lemmas))| <= |lemmas|
    ensures forall x :: x in KeepNonStop(lemmas, s.StopFlags(lemmas)) <==> x in lemmas && !s.IsStopWord(x)
  {
    if lemmas != [] {
      var n := |lemmas| - 1;
      assert s.StopFlags(lemmas)[..n] == s.StopFlags(lemmas[..n]);
      KeepNonStopMeaning(lemmas[..n], s);
      assert lemmas == lemmas[..n] + [lemmas[n]];
    }
  }

  /** A normalized query term is a lemma of some query term that is not a stop word, and every such lemma is kept. */
  lemma PlainTermsMeaning(lower: string -> string, terms: seq<string>, s: Store)
    ensures |PlainTerms(lower, terms, s)| <= |terms|
    ensures forall x :: (x in PlainTerms(lower, terms, s)
      <==> (exists i :: 0 <= i < |terms| && x == Resolve(lower, terms[i], s.Lemma(terms[i]))) && !s.IsStopWord(x))
  {
    var lemmas := LemmasFor(lower, terms, s);
    KeepNonStopMeaning(lemmas, s);
    forall x
      ensures x in lemmas <==> exists i :: 0 <= i < |terms| && x == Resolve(lower, terms[i], s.Lemma(terms[i]))
    {
      if x in lemmas {
        var i :| 0 <= i < |lemmas| && lemmas[i] == x;
      }
      if exists i :: 0 <= i < |terms| && x == Resolve(lower, terms[i], s.Lemma(terms[i])) {
        var i :| 0 <= i < |terms| && x == Resolve(lower, terms[i], s.Lemma(terms[i]));
        assert lemmas[i] == x;
      }
    }
  }

  lemma {:induction false} LexemesBound(upper: string -> string, terms: seq<string>)
    ensures |Lexemes(upper, terms)| <= |terms|
  {
    if terms != [] {
      LexemesBound(upper, terms[..|terms| - 1]);
    }
  }

  /**
   * Boolean mode keeps one output per input: a parenthesis stays, an operator word is
   * uppercased, and the i-th other lexeme is replaced by the i-th lemma.
   */
  lemma RebuildShape(upper: string -> string, terms: seq<string>, lemmas: seq<string>)
    requires |lemmas| == |Lexemes(upper, terms)|
    ensures |Rebuild(upper, terms, lemmas)| == |terms|
    ensures forall i :: 0 <= i < |terms| ==>
      var out := Rebuild(upper, terms, lemmas);
      (IsParen(terms[i]) ==> out[i] == terms[i])
      && (!IsParen(terms[i]) && IsOperatorWord(upper, terms[i]) ==> out[i] == upper(terms[i]))
      && (!IsParen(terms[i]) && !IsOperatorWord(upper, terms[i]) ==>
            |Lexemes(upper, terms[..i])| < |lemmas| && out[i] == lemmas[|Lexemes(upper, terms[..i])|])
  {
    RebuildLength(upper, terms, lemmas);
    forall i | 0 <= i < |terms|
      ensures var out := Rebuild(upper, terms, lemmas);
        (IsParen(terms[i]) ==> out[i] == terms[i])
        && (!IsParen(terms[i]) && IsOperatorWord(upper, terms[i]) ==> out[i] == upper(terms[i]))
        && (!IsParen(terms[i]) && !IsOperatorWord(upper, terms[i]) ==>
              |Lexemes(upper, terms[..i])| < |lemmas| && out[i] == lemmas[|Lexemes(upper, terms[..i])|])
    {
      RebuildAt(upper, terms, lemmas, i);
    }
  }

  lemma {:induction false} RebuildLength(upper: string -> string, terms: seq<string>, lemmas: seq<string>)
    requires |lemmas| == |Lexemes(upper, terms)|
    ensures |Rebuild(upper, terms, lemmas)| == |terms|
  {
    if terms != [] {
      var n := |terms| - 1;
      var t := terms[n];
      var init := if IsParen(t) || IsOperatorWord(upper, t) then lemmas else lemmas[..|lemmas| - 1];
      RebuildLength(upper, terms[..n], init);
    }
  }

  /** One position of `RebuildShape`. */
  lemma {:induction false} RebuildAt(upper: string -> string, terms: seq<string>, lemmas: seq<string>, i: nat)
    requires |lemmas| == |Lexemes(upper, terms)| && i < |terms|
    requires |Rebuild(upper, terms, lemmas)| == |terms|
    ensures var out := Rebuild(upper, terms, lemmas);
      (IsParen(terms[i]) ==> out[i] == terms[i])
      && (!IsParen(terms[i]) && IsOperatorWord(upper, terms[i]) ==> out[i] == upper(terms[i]))
      && (!IsParen(terms[i]) && !IsOperatorWord(upper, terms[i]) ==>
            |Lexemes(upper, terms[..i])| < |lemmas| && out[i] == lemmas[|Lexemes(upper, terms[..i])|])
  {
    var n := |terms| - 1;
    var t := terms[n];
    var init := if IsParen(t) || IsOperatorWord(upper, t) then lemmas else lemmas[..|lemmas| - 1];
    RebuildLength(upper, terms[..n], init);
    var out := Rebuild(upper, terms, lemmas);
    var prev := Rebuild(upper, terms[..n], init);
    assert out[..n] == prev;
    if i < n {
      RebuildAt(upper, terms[..n], init, i);
      assert terms[..n][i] == terms[i] && terms[..n][..i] == terms[..i];
      assert out[i] == prev[i];
      if !IsParen(terms[i]) && !IsOperatorWord(upper, terms[i]) {
        LexemesBound(upper, terms[..n]);
        assert init[|Lexemes(upper, terms[..i])|] == lemmas[|Lexemes(upper, terms[..i])|];
      }
    } else {
      assert terms[..i] == terms[..n];
    }
  }

  /** The lexemes sent for lemmas are exactly the inputs that are neither parentheses nor operators. */
  lemma {:induction false} LexemesMeaning(upper: string -> string, terms: seq<string>)
    ensures forall x :: x in Lexemes(upper, terms) <==> x in terms && !IsParen(x) && !IsOperatorWord(upper, x)
  {
    if terms != [] {
      var n := |terms| - 1;
      LexemesMeaning(upper, terms[..n]);
      assert terms == terms[..n] + [terms[n]];
    }
  }

  /** Indexing and search agree: the kept indexing forms, in order, are the normalized query terms. */
  lemma {:induction false} IndexingMatchesSearch(lower: string -> string, terms: seq<string>, s: Store)
    ensures Somes(IndexingForms(lower, terms, s)) == PlainTerms(lower, terms, s)
    decreases |terms|
  {
    if terms != [] {
      var n := |terms| - 1;
      IndexingMatchesSearch(lower, terms[..n], s);
      var lemmas := LemmasFor(lower, terms, s);
      assert LemmasFor(lower, terms[..n], s) == lemmas[..n];
      assert s.StopFlags(lemmas)[..n] == s.StopFlags(lemmas[..n]);
      assert IndexingForms(lower, terms, s)[..n] == IndexingForms(lower, terms[..n], s);
    }
  }

  /** The values of the present entries, in order. */
  function Somes(xs: seq<Option<string>>): seq<string>
  {
    if xs == [] then []
    else Somes(xs[..|xs| - 1]) + (if xs[|xs| - 1].Some? then [xs[|xs| - 1].value] else [])
  }
}
