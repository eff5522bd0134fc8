// The keyword strategy (src/search/strategies/keyword.ts): TF-IDF.  Every posting entry of
// a query term adds tf(term, doc) * log10(totalDocs / df) to its document's score.
// The logarithm is a parameter: the model computes over exact reals.

module KeywordSearch {
  import opened DocInfo

  /** `Math.log10(totalDocs / docIds.length)`, for a non-empty posting list. */
  function Idf(log10: real -> real, totalDocs: int, df: nat): real
    requires df > 0
  {
    log10(totalDocs as real / df as real)
  }

  /** `docScores.get(docId) || 0`. */
  function Get(m: map<DocId, real>, d: DocId): real
  {
    if d in m then m[d] else 0.0
  }

  /** `tf * idf`: what one posting entry of `term` adds to document `d`. */
  function Weight(s: Store, term: string, d: DocId, idf: real): real
  {
    s.Frequency(term, d) as real * idf
  }

  /** One term's posting entries, added in order to the running scores. */
  function AddPostings(m: map<DocId, real>, docIds: seq<DocId>, term: string, idf: real, s: Store): map<DocId, real>
  {
    if docIds == [] then m
    else
      var d := docIds[|docIds| - 1];
      var acc := AddPostings(m, docIds[..|docIds| - 1], term, idf, s);
      acc[d := Get(acc, d) + Weight(s, term, d, idf)]
  }

  /** The scores after each term in turn; a term no document holds adds nothing. */
  function KeywordScores(log10: real -> real, terms: seq<string>, s: Store): map<DocId, real>
  {
    if terms == [] then map[]
    else
      var t := terms[|terms| - 1];
      var m := KeywordScores(log10, terms[..|terms| - 1], s);
      var ds := s.DocIds(t);
      if ds == [] then m else AddPostings(m, ds, t, Idf(log10, s.totalDocs, |ds|), s)
  }

  // ---------------------------------------------------------------------------
  // An independent reference: a document's score is a plain sum over the terms
  // ---------------------------------------------------------------------------

  function Occurrences(ds: seq<DocId>, d: DocId): nat
  {
    if ds == [] then 0 else Occurrences(ds[..|ds| - 1], d) + (if ds[|ds| - 1] == d then 1 else 0)
  }

  /** `w` once per entry of `d` in `ds`. */
  function PostingSum(ds: seq<DocId>, d: DocId, w: real): real
  {
    if ds == [] then 0.0 else PostingSum(ds[..|ds| - 1], d, w) + (if ds[|ds| - 1] == d then w else 0.0)
  }

  lemma {:induction false} PostingSumCounts(ds: seq<DocId>, d: DocId, w: real)
    ensures PostingSum(ds, d, w) == Occurrences(ds, d) as real * w
  {
    if ds != [] {
      PostingSumCounts(ds[..|ds| - 1], d, w);
      var k := Occurrences(ds[..|ds| - 1], d) as real;
      assert (k + 1.0) * w == k * w + w;
    }
  }

  /** What one term adds to `d`: tf * idf, once per entry of `d` in the term's posting list. */
  function Contribution(log10: real -> real, t: string, s: Store, d: DocId): real
  {
    var ds := s.DocIds(t);
    if ds == [] then 0.0 else PostingSum(ds, d, Weight(s, t, d, Idf(log10, s.totalDocs, |ds|)))
  }

  function TermSum(log10: real -> real, terms: seq<string>, s: Store, d: DocId): real
  {
    if terms == [] then 0.0 else Contribution(log10, terms[0], s, d) + TermSum(log10, terms[1..], s, d)
  }

  lemma {:induction false} AddPostingsMeaning(m: map<DocId, real>, ds: seq<DocId>, t: string, idf: real, s: Store, d: DocId)
    ensures d in AddPostings(m, ds, t, idf, s) <==> d in m || d in ds
    ensures Get(AddPostings(m, ds, t, idf, s), d) == Get(m, d) + PostingSum(ds, d, Weight(s, t, d, idf))
  {
    if ds != [] {
      var init, x := ds[..|ds| - 1], ds[|ds| - 1];
      var acc := AddPostings(m, init, t, idf, s);
      AddPostingsMeaning(m, init, t, idf, s, d);
      assert AddPostings(m, ds, t, idf, s) == acc[x := Get(acc, x) + Weight(s, t, x, idf)];
      assert d in ds <==> d in init || d == x by {
        assert ds == init + [x];
      }
    }
  }

  lemma {:induction false} TermSumSnoc(log10: real -> real, terms: seq<string>, s: Store, d: DocId)
    requires terms != []
    ensures TermSum(log10, terms, s, d)
         == TermSum(log10, terms[..|terms| - 1], s, d) + Contribution(log10, terms[|terms| - 1], s, d)
  {
    if |terms| > 1 {
      TermSumSnoc(log10, terms[1..], s, d);
      assert terms[1..][..|terms[1..]| - 1] == terms[..|terms| - 1][1..];
    }
  }

  /**
   * A document is scored iff some query term's posting list holds it, and its score is
   * the sum of every term's tf * idf, counted once per posting entry.
   */
  lemma {:induction false} KeywordScoresMeaning(log10: real -> real, terms: seq<string>, s: Store, d: DocId)
    ensures d in KeywordScores(log10, terms, s) <==> exists i :: 0 <= i < |terms| && d in s.DocIds(terms[i])
    ensures Get(KeywordScores(log10, terms, s), d) == TermSum(log10, terms, s, d)
  {
    if terms != [] {
      var n := |terms| - 1;
      var t := terms[n];
      var ds := s.DocIds(t);
      KeywordScoresMeaning(log10, terms[..n], s, d);
      TermSumSnoc(log10, terms, s, d);
      if ds != [] {
        AddPostingsMeaning(KeywordScores(log10, terms[..n], s), ds, t, Idf(log10, s.totalDocs, |ds|), s, d);
      }
      if exists i :: 0 <= i < |terms| && d in s.DocIds(terms[i]) {
        var i :| 0 <= i < |terms| && d in s.DocIds(terms[i]);
        if i < n {
          assert terms[..n][i] == terms[i];
        }
      }
      if exists i :: 0 <= i < n && d in s.DocIds(terms[..n][i]) {
        var i :| 0 <= i < n && d in s.DocIds(terms[..n][i]);
        assert terms[i] == terms[..n][i];
      }
    }
  }

  // ---------------------------------------------------------------------------
  // Term order does not matter
  // ---------------------------------------------------------------------------

  lemma {:induction false} TermSumAppend(log10: real -> real, a: seq<string>, b: seq<string>, s: Store, d: DocId)
    ensures TermSum(log10, a + b, s, d) == TermSum(log10, a, s, d) + TermSum(log10, b, s, d)
  {
    if a == [] {
      assert a + b == b;
    } else {
      assert (a + b)[0] == a[0];
      assert (a + b)[1..] == a[1..] + b;
      TermSumAppend(log10, a[1..], b, s, d);
      assert TermSum(log10, a + b, s, d) == Contribution(log10, a[0], s, d) + TermSum(log10, a[1..] + b, s, d);
      assert TermSum(log10, a, s, d) == Contribution(log10, a[0], s, d) + TermSum(log10, a[1..], s, d);
    }
  }

  lemma TermSumRemove(log10: real -> real, b: seq<string>, k: nat, s: Store, d: DocId)
    requires k < |b|
    ensures TermSum(log10, b, s, d) == Contribution(log10, b[k], s, d) + TermSum(log10, b[..k] + b[k + 1..], s, d)
  {
    assert b == b[..k] + b[k..];
    TermSumAppend(log10, b[..k], b[k..], s, d);
    TermSumAppend(log10, b[..k], b[k + 1..], s, d);
    assert b[k..][0] == b[k] && b[k..][1..] == b[k + 1..];
  }

  lemma MultisetRemove(a: seq<string>, b: seq<string>, k: nat)
    requires multiset(a) == multiset(b) && a != [] && k < |b| && b[k] == a[0]
    ensures multiset(a[1..]) == multiset(b[..k] + b[k + 1..])
  {
    assert a == [a[0]] + a[1..];
    assert b == b[..k] + [b[k]] + b[k + 1..];
    var rest := b[..k] + b[k + 1..];
    assert multiset(b) == multiset(rest) + multiset{b[k]};
    assert multiset(a) == multiset(a[1..]) + multiset{a[0]};
    assert multiset(a[1..]) == multiset(a) - multiset{a[0]};
    assert multiset(rest) == multiset(b) - multiset{b[k]};
  }

  lemma {:induction false} TermSumPermutation(log10: real -> real, a: seq<string>, b: seq<string>, s: Store, d: DocId)
    requires multiset(a) == multiset(b)
    ensures TermSum(log10, a, s, d) == TermSum(log10, b, s, d)
    decreases |a|
  {
    if a == [] {
      assert b == [] by {
        assert |b| == |multiset(b)|;
      }
    } else {
      assert a[0] in multiset(b);
      var k :| 0 <= k < |b| && b[k] == a[0];
      MultisetRemove(a, b, k);
      TermSumPermutation(log10, a[1..], b[..k] + b[k + 1..], s, d);
      TermSumRemove(log10, b, k, s, d);
    }
  }

  /** Reordering (or permuting) the query terms gives the same scores. */
  lemma TermOrderFree(log10: real -> real, terms: seq<string>, terms': seq<string>, s: Store)
    requires multiset(terms) == multiset(terms')
    ensures KeywordScores(log10, terms, s) == KeywordScores(log10, terms', s)
  {
    var m, m' := KeywordScores(log10, terms, s), KeywordScores(log10, terms', s);
    forall d
      ensures d in m <==> d in m'
      ensures d in m ==> m[d] == m'[d]
    {
      KeywordScoresMeaning(log10, terms, s, d);
      KeywordScoresMeaning(log10, terms', s, d);
      TermSumPermutation(log10, terms, terms', s, d);
      if exists i :: 0 <= i < |terms| && d in s.DocIds(terms[i]) {
        var i :| 0 <= i < |terms| && d in s.DocIds(terms[i]);
        assert terms[i] in multiset(terms');
        var j :| 0 <= j < |terms'| && terms'[j] == terms[i];
        assert d in s.DocIds(terms'[j]);
      }
      if exists j :: 0 <= j < |terms'| && d in s.DocIds(terms'[j]) {
        var j :| 0 <= j < |terms'| && d in s.DocIds(terms'[j]);
        assert terms'[j] in multiset(terms);
        var i :| 0 <= i < |terms| && terms[i] == terms'[j];
        assert d in s.DocIds(terms[i]);
      }
    }
    assert m.Keys == m'.Keys;
  }

  /** A term held by every document has idf log10(1) = 0: a one-term query then scores every document 0. */
  lemma UbiquitousTermScoresZero(log10: real -> real, t: string, s: Store, d: DocId)
    requires log10(1.0) == 0.0
    requires s.DocIds(t) != [] && |s.DocIds(t)| == s.totalDocs
    ensures d in KeywordScores(log10, [t], s) <==> d in s.DocIds(t)
    ensures d in KeywordScores(log10, [t], s) ==> KeywordScores(log10, [t], s)[d] == 0.0
  {
    KeywordScoresMeaning(log10, [t], s, d);
    assert [t][1..] == [];
    PostingSumCounts(s.DocIds(t), d, 0.0);
    assert s.totalDocs as real / |s.DocIds(t)| as real == 1.0;
  }

  // ---------------------------------------------------------------------------
  // The requests the strategy makes
  // ---------------------------------------------------------------------------

  function FrequencyCalls(t: string, ds: seq<DocId>): (r: seq<Call>)
    ensures |r| == |ds| && forall i :: 0 <= i < |ds| ==> r[i] == TermFrequency(t, ds[i])
  {
    seq(|ds|, i requires 0 <= i < |ds| => TermFrequency(t, ds[i]))
  }

  /** Per term: its posting list, then one frequency per posting entry. */
  function KeywordCalls(terms: seq<string>, s: Store): seq<Call>
  {
    if terms == [] then []
    else
      var t := terms[|terms| - 1];
      KeywordCalls(terms[..|terms| - 1], s) + [DocIdsForTerm(t)] + FrequencyCalls(t, s.DocIds(t))
  }

  /**
   * Every request after the one total-documents read asks for a query term's posting list,
   * or for the frequency of a term in a document its posting list holds.
   */
  lemma {:induction false} KeywordCallsShape(terms: seq<string>, s: Store)
    ensures TotalDocuments !in KeywordCalls(terms, s)
    ensures forall c :: c in KeywordCalls(terms, s) ==>
      (c.DocIdsForTerm? && c.term in terms) || (c.TermFrequency? && c.term in terms && c.doc in s.DocIds(c.term))
    ensures |KeywordCalls(terms, s)| >= |terms|
  {
    if terms != [] {
      var n := |terms| - 1;
      KeywordCallsShape(terms[..n], s);
      assert forall x :: x in terms[..n] ==> x in terms;
      var t := terms[n];
      forall c | c in FrequencyCalls(t, s.DocIds(t))
        ensures c.TermFrequency? && c.term in terms && c.doc in s.DocIds(c.term)
      {
        var i :| 0 <= i < |s.DocIds(t)| && c == FrequencyCalls(t, s.DocIds(t))[i];
      }
    }
  }

  lemma CallsAppend(start: seq<Call>, a: seq<Call>, b: seq<Call>, c: seq<Call>)
    ensures start + a + b + c == start + (a + b + c)
  {
  }

  lemma AddPostingsStep(m: map<DocId, real>, ds: seq<DocId>, j: nat, t: string, idf: real, s: Store)
    requires j < |ds|
    ensures var acc := AddPostings(m, ds[..j], t, idf, s);
      AddPostings(m, ds[..j + 1], t, idf, s) == acc[ds[j] := Get(acc, ds[j]) + Weight(s, t, ds[j], idf)]
  {
    assert ds[..j + 1][..j] == ds[..j];
  }

  lemma FrequencyCallsStep(t: string, ds: seq<DocId>, j: nat)
    requires j < |ds|
    ensures FrequencyCalls(t, ds[..j + 1]) == FrequencyCalls(t, ds[..j]) + [TermFrequency(t, ds[j])]
  {
  }

  lemma KeywordCallsStep(terms: seq<string>, k: nat, s: Store)
    requires k < |terms|
    ensures KeywordCalls(terms[..k + 1], s)
      == KeywordCalls(terms[..k], s) + [DocIdsForTerm(terms[k])] + FrequencyCalls(terms[k], s.DocIds(terms[k]))
  {
    assert terms[..k + 1][..k] == terms[..k];
  }

  /** The inner loop: one term's posting entries, each with its own frequency request. */
  method AddTermScores(docScores: map<DocId, real>, term: string, docIds: seq<DocId>, idf: real, svc: DocumentInfoService)
    returns (scores: map<DocId, real>)
    modifies svc
    ensures scores == AddPostings(docScores, docIds, term, idf, svc.store)
    ensures svc.calls == old(svc.calls) + FrequencyCalls(term, docIds)
  {
    scores := docScores;
    for j := 0 to |docIds|
      invariant scores == AddPostings(docScores, docIds[..j], term, idf, svc.store)
      invariant svc.calls == old(svc.calls) + FrequencyCalls(term, docIds[..j])
    {
      var docId := docIds[j];
      ghost var done := svc.calls;
      var tf := svc.GetTermFrequency(term, docId);
      var score := tf as real * idf;
      assert score == Weight(svc.store, term, docId, idf);
      var currentScore := if docId in scores then scores[docId] else 0.0;
      assert docIds[..j + 1][..j] == docIds[..j] && docIds[..j + 1][j] == docId;
      FrequencyCallsStep(term, docIds, j);
      AddPostingsStep(docScores, docIds, j, term, idf, svc.store);
      assert done + [TermFrequency(term, docId)]
        == old(svc.calls) + (FrequencyCalls(term, docIds[..j]) + [TermFrequency(term, docId)]);
      scores := scores[docId := currentScore + score];
    }
    assert docIds[..|docIds|] == docIds;
  }

  method SearchKeyword(terms: seq<string>, svc: DocumentInfoService, log10: real -> real)
    returns (docScores: map<DocId, real>)
    modifies svc
    ensures docScores == KeywordScores(log10, terms, svc.store)
    ensures svc.calls == old(svc.calls) + [TotalDocuments] + KeywordCalls(terms, svc.store)
  {
    docScores := map[];
    var totalDocs := svc.GetTotalDocuments();
    ghost var start := svc.calls;
    for k := 0 to |terms|
      invariant docScores == KeywordScores(log10, terms[..k], svc.store)
      invariant svc.calls == start + KeywordCalls(terms[..k], svc.store)
    {
      var term := terms[k];
      assert terms[..k + 1][..k] == terms[..k];
      ghost var done := KeywordCalls(terms[..k], svc.store);
      KeywordCallsStep(terms, k, svc.store);
      var docIds := svc.GetDocIdsForTerm(term);
      if |docIds| == 0 {
        assert FrequencyCalls(term, docIds) == [];
        CallsAppend(start, done, [DocIdsForTerm(term)], []);
        continue;
      }
      var idf := log10(totalDocs as real / |docIds| as real);
      docScores := AddTermScores(docScores, term, docIds, idf, svc);
      CallsAppend(start, done, [DocIdsForTerm(term)], FrequencyCalls(term, docIds));
    }
    assert terms[..|terms|] == terms;
  }
}
