// The lemma stage of the indexing pipeline (src/index/normalizer/normalizer-stream.ts): it
// buffers the tokenizer's tokens, and every 200 tokens (and once more at the end of the
// stream) it looks up the batch's lemmas and stop-word flags in two requests and pushes
// each token whose lemma is not a stop word, tagged with that lemma.
// The stream's input and pushes are kept in ghost logs.

module NormalizerStream {
  import opened DocInfo
  import opened WordOrdinalTokenizer
  import N = Normalizer

  /** `batchSize`: a batch is processed once it holds this many tokens. */
  const BatchSize: nat := 200

  /** A token with the lemma it is indexed under (`{...token, lemma}`; `lemma` is a Dafny keyword). */
  datatype NormalizedToken = NormalizedToken(token: Token, lemmaValue: string)

  function TermsOf(tokens: seq<Token>): (r: seq<string>)
    ensures |r| == |tokens|
  {
    seq(|tokens|, i requires 0 <= i < |tokens| => tokens[i].term)
  }

  /** The lemma a token's term is indexed under: its stored lemma, or its lowercased self. */
  function LemmaOf(lower: string -> string, t: Token, s: Store): string
  {
    N.Resolve(lower, t.term, s.Lemma(t.term))
  }

  /** What the stage pushes for `tokens`, judged one token at a time. */
  function Normalized(lower: string -> string, tokens: seq<Token>, s: Store): seq<NormalizedToken>
  {
    if tokens == [] then []
    else
      var n := |tokens| - 1;
      var lemmaText := LemmaOf(lower, tokens[n], s);
      Normalized(lower, tokens[..n], s) + (if s.IsStopWord(lemmaText) then [] else [NormalizedToken(tokens[n], lemmaText)])
  }

  /** The requests one processed batch makes: the lemmas of its terms, then the stop flags of those lemmas. */
  function BatchCalls(lower: string -> string, tokens: seq<Token>, s: Store): seq<Call>
  {
    N.LemmaCall(TermsOf(tokens)) + N.StopCall(N.LemmasFor(lower, TermsOf(tokens), s))
  }

  class TermNormalizerStream {
    var batch: seq<Token>
    const normalizer: N.Normalizer
    /** Every token written so far. */
    ghost var input: seq<Token>
    /** The tokens whose batch has been processed. */
    ghost var processed: seq<Token>
    ghost var pushed: seq<NormalizedToken>

    ghost predicate Valid()
      reads this
    {
      |batch| < BatchSize && input == processed + batch
      && pushed == Normalized(normalizer.lower, processed, normalizer.docInfo.store)
    }

    constructor (docInfo: DocumentInfoService, lower: string -> string, upper: string -> string)
      ensures Valid() && input == [] && pushed == []
      ensures normalizer.docInfo == docInfo && normalizer.lower == lower
    {
      batch := [];
      normalizer := new N.Normalizer(docInfo, lower, upper);
      input := [];
      processed := [];
      pushed := [];
    }

    /** `_transform`: buffer the token; a full batch is processed at once. */
    method Write(chunk: Token) returns (out: seq<NormalizedToken>)
      requires Valid()
      modifies this, normalizer.docInfo
      ensures Valid()
      ensures input == old(input) + [chunk] && pushed == old(pushed) + out
      ensures |old(batch)| + 1 < BatchSize ==>
        batch == old(batch) + [chunk] && out == [] && normalizer.docInfo.calls == old(normalizer.docInfo.calls)
      ensures |old(batch)| + 1 == BatchSize ==>
        var full := old(batch) + [chunk];
        batch == [] && out == Normalized(normalizer.lower, full, normalizer.docInfo.store)
        && normalizer.docInfo.calls
          == old(normalizer.docInfo.calls) + BatchCalls(normalizer.lower, full, normalizer.docInfo.store)
    {
      batch := batch + [chunk];
      input := input + [chunk];
      out := [];
      if |batch| >= BatchSize {
        out := ProcessBatch();
      }
    }

    /** `_flush`: the last, partial batch is processed at the end of the stream. */
    method Flush() returns (out: seq<NormalizedToken>)
      requires Valid()
      modifies this, normalizer.docInfo
      ensures Valid() && batch == [] && input == old(input)
      ensures pushed == old(pushed) + out
      ensures pushed == Normalized(normalizer.lower, input, normalizer.docInfo.store)
      ensures out == Normalized(normalizer.lower, old(batch), normalizer.docInfo.store)
      ensures normalizer.docInfo.calls
        == old(normalizer.docInfo.calls) + BatchCalls(normalizer.lower, old(batch), normalizer.docInfo.store)
    {
      out := [];
      if |batch| > 0 {
        out := ProcessBatch();
      }
      assert processed + [] == processed;
    }

    method ProcessBatch() returns (out: seq<NormalizedToken>)
      requires input == processed + batch
      requires pushed == Normalized(normalizer.lower, processed, normalizer.docInfo.store)
      modifies this, normalizer.docInfo
      ensures Valid() && batch == [] && input == old(input)
      ensures processed == old(processed) + old(batch) && pushed == old(pushed) + out
      ensures out == Normalized(normalizer.lower, old(batch), normalizer.docInfo.store)
      ensures normalizer.docInfo.calls
        == old(normalizer.docInfo.calls) + BatchCalls(normalizer.lower, old(batch), normalizer.docInfo.store)
    {
      if |batch| == 0 {
        assert processed + batch == processed;
        return [];
      }
      var terms := TermsOf(batch);
      var lemmas := normalizer.FetchLemmas(terms);
      var isStopWordFlags := normalizer.CheckStopWords(lemmas);
      ghost var s := normalizer.docInfo.store;
      out := [];
      for i := 0 to |batch|
        invariant out == Normalized(normalizer.lower, batch[..i], s)
      {
        assert batch[..i + 1][..i] == batch[..i];
        assert lemmas[i] == LemmaOf(normalizer.lower, batch[i], s);
        if !isStopWordFlags[i] {
          out := out + [NormalizedToken(batch[i], lemmas[i])];
        }
      }
      assert batch[..|batch|] == batch;
      NormalizedAppend(normalizer.lower, processed, batch, s);
      processed := processed + batch;
      pushed := pushed + out;
      batch := [];
      assert processed + [] == processed;
    }
  }

  /** Where the batch boundaries fall does not change what is pushed. */
  lemma {:induction false} NormalizedAppend(lower: string -> string, a: seq<Token>, b: seq<Token>, s: Store)
    ensures Normalized(lower, a + b, s) == Normalized(lower, a, s) + Normalized(lower, b, s)
    decreases |b|
  {
    if b == [] {
      assert a + b == a;
    } else {
      var n := |b| - 1;
      assert (a + b)[..|a + b| - 1] == a + b[..n];
      NormalizedAppend(lower, a, b[..n], s);
    }
  }

  /**
   * A token is pushed iff its lemma is not a stop word, and then with that lemma; the
   * pushed tokens keep their input order.
   */
  lemma {:induction false} NormalizedMeaning(lower: string -> string, tokens: seq<Token>, s: Store)
    ensures |Normalized(lower, tokens, s)| <= |tokens|
    ensures forall x :: x in Normalized(lower, tokens, s) <==>
      x.token in tokens && x.lemmaValue == LemmaOf(lower, x.token, s) && !s.IsStopWord(x.lemmaValue)
  {
    if tokens != [] {
      var n := |tokens| - 1;
      NormalizedMeaning(lower, tokens[..n], s);
      assert tokens == tokens[..n] + [tokens[n]];
    }
  }

  function LemmasOf(ts: seq<NormalizedToken>): (r: seq<string>)
    ensures |r| == |ts|
  {
    seq(|ts|, i requires 0 <= i < |ts| => ts[i].lemmaValue)
  }

  /** The lemmas the stage pushes are exactly what query normalization makes of the same terms. */
  lemma {:induction false} IndexedLemmasMatchQueryTerms(lower: string -> string, tokens: seq<Token>, s: Store)
    ensures LemmasOf(Normalized(lower, tokens, s)) == N.PlainTerms(lower, TermsOf(tokens), s)
  {
    if tokens != [] {
      var n := |tokens| - 1;
      IndexedLemmasMatchQueryTerms(lower, tokens[..n], s);
      var terms := TermsOf(tokens);
      var lemmas := N.LemmasFor(lower, terms, s);
      assert TermsOf(tokens[..n]) == terms[..n];
      assert N.LemmasFor(lower, terms[..n], s) == lemmas[..n];
      assert s.StopFlags(lemmas)[..n] == s.StopFlags(lemmas[..n]);
      assert lemmas[n] == LemmaOf(lower, tokens[n], s);
      var prev := Normalized(lower, tokens[..n], s);
      var last := LemmaOf(lower, tokens[n], s);
      if !s.IsStopWord(last) {
        assert LemmasOf(prev + [NormalizedToken(tokens[n], last)]) == LemmasOf(prev) + [last];
      } else {
        assert prev + [] == prev;
      }
    }
  }
}
