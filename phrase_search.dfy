// The phrase search strategy (src/search/strategies/phrase.ts): intersect the terms'
// posting lists, read each candidate's positions back from the "line:pos:len" records, and
// keep the documents where the terms occur at consecutive positions p, p+1, p+2, …

module PhraseSearch {
  import opened Wrappers
  import opened DocInfo
  import opened Decimal
  import opened Text
  import Indexer

  // ---------------------------------------------------------------------------
  // Positions: parseInt(entry.split(':')[1], 10)
  // ---------------------------------------------------------------------------

  /** A parsed position: a number, or NaN when the field does not start with digits. */
  datatype Position = At(value: int) | NaN

  /** `startPos + i`: NaN stays NaN. */
  function Shift(p: Position, k: nat): Position
  {
    match p
    case At(n) => At(n + k)
    case NaN => NaN
  }

  /** parseInt(s, 10): optional sign, then the longest run of digits; none gives NaN. */
  function ParseInt(s: string): Position
  {
    var t := TrimStart(s);
    var negative := t != [] && t[0] == '-';
    var body := if t != [] && (t[0] == '-' || t[0] == '+') then t[1..] else t;
    var digits := DigitPrefix(body);
    if digits == [] then NaN
    else if negative then At(-(DigitsValue(digits) as int))
    else At(DigitsValue(digits))
  }

  /** `e.split(':')[1]`: the second colon-separated field; None (undefined) without a colon. */
  function SecondField(e: string): Option<string>
  {
    var fields := Split(e, ':');
    if |fields| >= 2 then Some(fields[1]) else None
  }

  /** parseInt of an absent field reads "undefined", which is NaN. */
  function ParsePosition(e: string): Position
  {
    match SecondField(e)
    case None => NaN
    case Some(f) => ParseInt(f)
  }

  function ParsePositions(entries: seq<string>): (r: seq<Position>)
    ensures |r| == |entries| && forall i :: 0 <= i < |entries| ==> r[i] == ParsePosition(entries[i])
  {
    seq(|entries|, i requires 0 <= i < |entries| => ParsePosition(entries[i]))
  }

  lemma DigitPrefixAll(s: string)
    requires AllDigits(s)
    ensures DigitPrefix(s) == s
  {
  }

  lemma SecondFieldOfRecord(l: string, p: string, n: string)
    requires AllDigits(l) && AllDigits(p) && AllDigits(n)
    ensures SecondField(l + ":" + p + ":" + n) == Some(p)
  {
    assert ':' !in l && ':' !in p && ':' !in n by {
      assert !IsDigit(':');
    }
    assert l + ":" + p + ":" + n == l + [':'] + (p + [':'] + n);
    SplitAt(l, p + [':'] + n, ':');
    SplitAt(p, n, ':');
  }

  /** parseInt of a plain run of digits is its decimal value. */
  lemma ParseDigits(p: string)
    requires p != [] && AllDigits(p)
    ensures ParseInt(p) == At(DigitsValue(p))
  {
    assert IsDigit(p[0]);
    assert !IsJsSpace(p[0]);
    assert TrimStart(p) == p;
    DigitPrefixAll(p);
  }

  /** Reading the position back out of an indexer record gives the position written. */
  lemma RecordPosition(line: nat, pos: nat, len: nat)
    ensures ParsePosition(Indexer.Record(line, pos, len)) == At(pos)
  {
    var p := NatToString(pos);
    SecondFieldOfRecord(NatToString(line), p, NatToString(len));
    ParseDigits(p);
    DigitsRoundTrip(pos);
  }

  // ---------------------------------------------------------------------------
  // hasPhraseMatch
  // ---------------------------------------------------------------------------

  /** `positionsMap.get(t) || []`. */
  function Lookup(pm: map<string, seq<Position>>, t: string): seq<Position>
  {
    if t in pm then pm[t] else []
  }

  /** Term i of the phrase occurs at p + i, for every i ≥ 1. */
  predicate RunFrom(terms: seq<string>, pm: map<string, seq<Position>>, p: Position)
  {
    forall i :: 1 <= i < |terms| ==> terms[i] in pm && Shift(p, i) in pm[terms[i]]
  }

  /** Some position of the first term starts a run. */
  predicate PhraseMatch(terms: seq<string>, pm: map<string, seq<Position>>)
  {
    terms != [] && exists p :: p in Lookup(pm, terms[0]) && RunFrom(terms, pm, p)
  }

  /** The inner loop of hasPhraseMatch: does a run start at `startPos`? */
  method RunsFrom(terms: seq<string>, pm: map<string, seq<Position>>, startPos: Position) returns (isMatch: bool)
    requires terms != []
    ensures isMatch == RunFrom(terms, pm, startPos)
  {
    isMatch := true;
    var i := 1;
    while i < |terms|
      invariant 1 <= i <= |terms|
      invariant isMatch ==> forall j :: 1 <= j < i ==> terms[j] in pm && Shift(startPos, j) in pm[terms[j]]
      invariant !isMatch ==> !RunFrom(terms, pm, startPos)
    {
      if terms[i] !in pm || Shift(startPos, i) !in pm[terms[i]] {
        isMatch := false;
        break;
      }
      i := i + 1;
    }
  }

  method HasPhraseMatch(terms: seq<string>, pm: map<string, seq<Position>>) returns (found: bool)
    ensures found == PhraseMatch(terms, pm)
  {
    if |terms| == 0 {
      return false;
    }
    var first := Lookup(pm, terms[0]);
    var k := 0;
    while k < |first|
      invariant 0 <= k <= |first|
      invariant forall m :: 0 <= m < k ==> !RunFrom(terms, pm, first[m])
    {
      var isMatch := RunsFrom(terms, pm, first[k]);
      if isMatch {
        return true;
      }
      k := k + 1;
    }
    found := false;
  }

  // ---------------------------------------------------------------------------
  // searchPhrase
  // ---------------------------------------------------------------------------

  /** The posting list of each term, in order. */
  function DocSets(terms: seq<string>, s: Store): (r: seq<seq<DocId>>)
    ensures |r| == |terms| && forall i :: 0 <= i < |terms| ==> r[i] == s.DocIds(terms[i])
  {
    seq(|terms|, i requires 0 <= i < |terms| => s.DocIds(terms[i]))
  }

  /** `xs.filter(id => new Set(ys).has(id))`. */
  function FilterIn(xs: seq<DocId>, ys: seq<DocId>): seq<DocId>
  {
    if xs == [] then [] else FilterIn(xs[..|xs| - 1], ys) + (if xs[|xs| - 1] in ys then [xs[|xs| - 1]] else [])
  }

  /** The entries of `xs`, in order and with repeats, that occur in every list but the first. */
  function KeepCommon(xs: seq<DocId>, sets: seq<seq<DocId>>): seq<DocId>
  {
    if xs == [] then []
    else
      var x := xs[|xs| - 1];
      KeepCommon(xs[..|xs| - 1], sets) + (if InLater(x, sets) then [x] else [])
  }

  /** `x` occurs in every list but the first. */
  predicate InLater(x: DocId, sets: seq<seq<DocId>>)
  {
    forall k :: 1 <= k < |sets| ==> x in sets[k]
  }

  /** The candidate documents: the first posting list, filtered by all the others. */
  function Candidates(sets: seq<seq<DocId>>): seq<DocId>
    requires sets != []
  {
    KeepCommon(sets[0], sets)
  }

  /** Each term's parsed positions in one document. */
  function PositionsFor(terms: seq<string>, d: DocId, s: Store): map<string, seq<Position>>
  {
    map t | t in terms :: ParsePositions(s.Positions(t, d))
  }

  /** Scores the candidates one by one, as the source's loop does. */
  function ScoreCandidates(terms: seq<string>, cands: seq<DocId>, s: Store): map<DocId, real>
  {
    if cands == [] then map[]
    else
      var d := cands[|cands| - 1];
      var m := ScoreCandidates(terms, cands[..|cands| - 1], s);
      if PhraseIn(terms, d, s) then m[d := 1.0] else m
  }

  /** The scored documents are exactly the candidates holding the phrase, each scored 1.0. */
  lemma {:induction false} ScoreCandidatesMeaning(terms: seq<string>, cands: seq<DocId>, s: Store)
    ensures forall d :: d in ScoreCandidates(terms, cands, s) <==> d in cands && PhraseIn(terms, d, s)
    ensures forall d :: d in ScoreCandidates(terms, cands, s) ==> ScoreCandidates(terms, cands, s)[d] == 1.0
  {
    if cands != [] {
      ScoreCandidatesMeaning(terms, cands[..|cands| - 1], s);
      assert cands == cands[..|cands| - 1] + [cands[|cands| - 1]];
    }
  }

  /** The phrase occurs in document `d`. */
  predicate PhraseIn(terms: seq<string>, d: DocId, s: Store)
  {
    PhraseMatch(terms, PositionsFor(terms, d, s))
  }

  /**
   * searchPhrase as written: with no terms there are no posting lists, `docSets[0]` is
   * undefined and reading its length throws.
   */
  function PhraseAsWritten(terms: seq<string>, s: Store): Result<map<DocId, real>, string>
  {
    var sets := DocSets(terms, s);
    if exists i :: 0 <= i < |sets| && sets[i] == [] then Ok(map[])
    else if sets == [] then Err("TypeError: cannot read properties of undefined (reading 'length')")
    else
      var cands := Candidates(sets);
      if cands == [] then Ok(map[]) else Ok(ScoreCandidates(terms, cands, s))
  }

  /** searchPhrase with the missing guard: no terms, no results. */
  function PhraseScores(terms: seq<string>, s: Store): map<DocId, real>
  {
    if terms == [] then map[]
    else
      var sets := DocSets(terms, s);
      if exists i :: 0 <= i < |sets| && sets[i] == [] then map[]
      else ScoreCandidates(terms, Candidates(sets), s)
  }

  // ---------------------------------------------------------------------------
  // The requests searchPhrase makes
  // ---------------------------------------------------------------------------

  /** One posting-list request per term, in term order. */
  function DocSetCalls(terms: seq<string>): seq<Call>
  {
    seq(|terms|, i requires 0 <= i < |terms| => DocIdsForTerm(terms[i]))
  }

  /** One position request per term for document `d`, in term order. */
  function PositionCalls(terms: seq<string>, d: DocId): seq<Call>
  {
    seq(|terms|, j requires 0 <= j < |terms| => TermPositions(terms[j], d))
  }

  /** The position requests of the candidate loop: candidate by candidate, term by term. */
  function ScoreCalls(terms: seq<string>, cands: seq<DocId>): seq<Call>
  {
    if cands == [] then [] else ScoreCalls(terms, cands[..|cands| - 1]) + PositionCalls(terms, cands[|cands| - 1])
  }

  /** Every request searchPhrase (with the empty-phrase guard) makes, in order. */
  function PhraseCalls(terms: seq<string>, s: Store): seq<Call>
  {
    if terms == [] then []
    else
      var sets := DocSets(terms, s);
      if exists i :: 0 <= i < |sets| && sets[i] == [] then DocSetCalls(terms)
      else DocSetCalls(terms) + ScoreCalls(terms, Candidates(sets))
  }

  /** One more term adds its position request. */
  lemma PositionCallsStep(terms: seq<string>, d: DocId, j: nat)
    requires j < |terms|
    ensures PositionCalls(terms[..j + 1], d) == PositionCalls(terms[..j], d) + [TermPositions(terms[j], d)]
  {
  }

  /** One more candidate is scored iff it holds the phrase. */
  lemma ScoreCandidatesStep(terms: seq<string>, cands: seq<DocId>, k: nat, s: Store)
    requires k < |cands|
    ensures ScoreCandidates(terms, cands[..k + 1], s)
      == if PhraseIn(terms, cands[k], s) then ScoreCandidates(terms, cands[..k], s)[cands[k] := 1.0]
         else ScoreCandidates(terms, cands[..k], s)
  {
    assert cands[..k + 1][..k] == cands[..k];
  }

  /** One more candidate adds its position requests. */
  lemma ScoreCallsStep(terms: seq<string>, cands: seq<DocId>, k: nat)
    requires k < |cands|
    ensures ScoreCalls(terms, cands[..k + 1]) == ScoreCalls(terms, cands[..k]) + PositionCalls(terms, cands[k])
  {
    assert cands[..k + 1][..k] == cands[..k];
  }

  /** The candidate loop asks once per (candidate, term) pair, and only about those pairs. */
  lemma {:induction false} ScoreCallsShape(terms: seq<string>, cands: seq<DocId>)
    ensures |ScoreCalls(terms, cands)| == |cands| * |terms|
    ensures forall k :: 0 <= k < |ScoreCalls(terms, cands)| ==>
      ScoreCalls(terms, cands)[k].TermPositions? && ScoreCalls(terms, cands)[k].term in terms
      && ScoreCalls(terms, cands)[k].doc in cands
    decreases |cands|
  {
    if cands != [] {
      var init := cands[..|cands| - 1];
      var d := cands[|cands| - 1];
      ScoreCallsShape(terms, init);
      assert |ScoreCalls(terms, cands)| == |init| * |terms| + |terms|;
      assert |cands| * |terms| == (|init| + 1) * |terms|;
      forall k | 0 <= k < |ScoreCalls(terms, cands)|
        ensures ScoreCalls(terms, cands)[k].TermPositions? && ScoreCalls(terms, cands)[k].term in terms
        ensures ScoreCalls(terms, cands)[k].doc in cands
      {
        if k < |ScoreCalls(terms, init)| {
          assert ScoreCalls(terms, cands)[k] == ScoreCalls(terms, init)[k];
          assert ScoreCalls(terms, init)[k].doc in init;
        } else {
          var j := k - |ScoreCalls(terms, init)|;
          assert ScoreCalls(terms, cands)[k] == TermPositions(terms[j], d);
        }
      }
    }
  }

  /**
   * What searchPhrase asks the service: first every term's posting list, in term order; after
   * that only position requests, one per (candidate, term) pair, each about a term of the
   * phrase and a document in every term's posting list.  Without a candidate nothing follows
   * the posting lists, and an empty phrase asks nothing.
   */
  lemma PhraseCallsShape(terms: seq<string>, s: Store)
    ensures terms == [] ==> PhraseCalls(terms, s) == []
    ensures terms != [] ==>
      |terms| <= |PhraseCalls(terms, s)| && PhraseCalls(terms, s)[..|terms|] == DocSetCalls(terms)
    ensures terms != [] && (exists i :: 0 <= i < |terms| && s.DocIds(terms[i]) == []) ==>
      PhraseCalls(terms, s) == DocSetCalls(terms)
    ensures terms != [] && (forall i :: 0 <= i < |terms| ==> s.DocIds(terms[i]) != []) ==>
      |PhraseCalls(terms, s)| == |terms| + |Candidates(DocSets(terms, s))| * |terms|
    ensures forall k :: |terms| <= k < |PhraseCalls(terms, s)| ==>
      PhraseCalls(terms, s)[k].TermPositions? && PhraseCalls(terms, s)[k].term in terms
      && forall i :: 0 <= i < |terms| ==> PhraseCalls(terms, s)[k].doc in s.DocIds(terms[i])
  {
    if terms != [] {
      var sets := DocSets(terms, s);
      if exists i :: 0 <= i < |sets| && sets[i] == [] {
        var i :| 0 <= i < |sets| && sets[i] == [];
        assert s.DocIds(terms[i]) == [];
      } else {
        var cands := Candidates(sets);
        var calls := PhraseCalls(terms, s);
        ScoreCallsShape(terms, cands);
        assert calls == DocSetCalls(terms) + ScoreCalls(terms, cands);
        assert calls[..|terms|] == DocSetCalls(terms);
        forall k | |terms| <= k < |calls|
          ensures calls[k].TermPositions? && calls[k].term in terms
          ensures forall i :: 0 <= i < |terms| ==> calls[k].doc in s.DocIds(terms[i])
        {
          var c := ScoreCalls(terms, cands)[k - |terms|];
          assert calls[k] == c;
          CandidatesMembers(sets, c.doc);
        }
      }
    }
  }

  /** The as-written strategy fails exactly on the empty phrase. */
  lemma EmptyPhraseCrashes(terms: seq<string>, s: Store)
    ensures PhraseAsWritten(terms, s).Err? <==> terms == []
  {
  }

  /** The guarded strategy returns no scores for no terms, and agrees with the source otherwise. */
  lemma GuardedPhraseAgrees(terms: seq<string>, s: Store)
    ensures terms == [] ==> PhraseScores(terms, s) == map[]
    ensures terms != [] ==> PhraseAsWritten(terms, s) == Ok(PhraseScores(terms, s))
  {
    if terms != [] {
      var sets := DocSets(terms, s);
      if !(exists i :: 0 <= i < |sets| && sets[i] == []) && Candidates(sets) == [] {
        assert ScoreCandidates(terms, Candidates(sets), s) == map[];
      }
    }
  }

  lemma {:induction false} FilterStep(xs: seq<DocId>, sets: seq<seq<DocId>>, i: nat)
    requires 1 <= i < |sets|
    ensures FilterIn(KeepCommon(xs, sets[..i]), sets[i]) == KeepCommon(xs, sets[..i + 1])
    decreases |xs|
  {
    if xs != [] {
      var n := |xs| - 1;
      var x := xs[n];
      FilterStep(xs[..n], sets, i);
      InLaterStep(x, sets, i);
      var prev := KeepCommon(xs[..n], sets[..i]);
      if InLater(x, sets[..i]) {
        assert KeepCommon(xs, sets[..i]) == prev + [x];
        assert (prev + [x])[..|prev|] == prev;
      } else {
        assert KeepCommon(xs, sets[..i]) == prev;
      }
    }
  }

  lemma InLaterStep(x: DocId, sets: seq<seq<DocId>>, i: nat)
    requires 1 <= i < |sets|
    ensures InLater(x, sets[..i + 1]) <==> InLater(x, sets[..i]) && x in sets[i]
  {
    assert forall k :: 1 <= k < i ==> sets[..i][k] == sets[..i + 1][k];
    assert sets[..i + 1][i] == sets[i];
  }

  lemma {:induction false} KeepCommonMembers(xs: seq<DocId>, sets: seq<seq<DocId>>, d: DocId)
    ensures d in KeepCommon(xs, sets) <==> d in xs && forall k :: 1 <= k < |sets| ==> d in sets[k]
    decreases |xs|
  {
    if xs != [] {
      KeepCommonMembers(xs[..|xs| - 1], sets, d);
      assert xs == xs[..|xs| - 1] + [xs[|xs| - 1]];
    }
  }

  /** A document is a candidate iff every term's posting list holds it. */
  lemma CandidatesMembers(sets: seq<seq<DocId>>, d: DocId)
    requires sets != []
    ensures d in Candidates(sets) <==> forall k :: 0 <= k < |sets| ==> d in sets[k]
  {
    KeepCommonMembers(sets[0], sets, d);
  }

  /** Builds one document's term -> positions map, asking the service per term. */
  method PositionsOf(terms: seq<string>, docId: DocId, svc: DocumentInfoService)
    returns (pm: map<string, seq<Position>>)
    modifies svc
    ensures pm == PositionsFor(terms, docId, svc.store)
    ensures svc.calls == old(svc.calls) + PositionCalls(terms, docId)
  {
    pm := map[];
    var j := 0;
    while j < |terms|
      invariant 0 <= j <= |terms|
      invariant svc.calls == old(svc.calls) + PositionCalls(terms[..j], docId)
      invariant forall t :: t in pm <==> t in terms[..j]
      invariant forall t :: t in pm ==> pm[t] == ParsePositions(svc.store.Positions(t, docId))
    {
      var entries := svc.GetTermPositions(terms[j], docId);
      pm := pm[terms[j] := ParsePositions(entries)];
      assert terms[..j + 1] == terms[..j] + [terms[j]];
      PositionCallsStep(terms, docId, j);
      j := j + 1;
    }
    assert terms[..j] == terms;
  }

  /** Asks the service for every term's posting list, in order. */
  method FetchDocSets(terms: seq<string>, svc: DocumentInfoService) returns (docSets: seq<seq<DocId>>)
    modifies svc
    ensures docSets == DocSets(terms, svc.store)
    ensures svc.calls == old(svc.calls) + DocSetCalls(terms)
  {
    docSets := [];
    for i := 0 to |terms|
      invariant docSets == DocSets(terms[..i], svc.store)
      invariant svc.calls == old(svc.calls) + DocSetCalls(terms[..i])
    {
      var ids := svc.GetDocIdsForTerm(terms[i]);
      docSets := docSets + [ids];
      assert DocSetCalls(terms[..i + 1]) == DocSetCalls(terms[..i]) + [DocIdsForTerm(terms[i])];
    }
    assert terms[..|terms|] == terms;
  }

  /** Filters the first posting list by each of the others in turn. */
  method Intersect(docSets: seq<seq<DocId>>) returns (candidateDocs: seq<DocId>)
    requires docSets != []
    ensures candidateDocs == Candidates(docSets)
  {
    candidateDocs := docSets[0];
    KeepCommonAll(docSets[0], docSets[..1]);
    for i := 1 to |docSets|
      invariant candidateDocs == KeepCommon(docSets[0], docSets[..i])
    {
      FilterStep(docSets[0], docSets, i);
      candidateDocs := FilterIn(candidateDocs, docSets[i]);
    }
    assert docSets[..|docSets|] == docSets;
  }

  /** One pass of the candidate loop: the candidate's positions, then the phrase test. */
  method MatchesIn(terms: seq<string>, docId: DocId, svc: DocumentInfoService) returns (isMatch: bool)
    modifies svc
    ensures isMatch == PhraseIn(terms, docId, svc.store)
    ensures svc.calls == old(svc.calls) + PositionCalls(terms, docId)
  {
    var pm := PositionsOf(terms, docId, svc);
    isMatch := HasPhraseMatch(terms, pm);
  }

  /** Scores 1.0 every candidate whose positions hold the phrase. */
  method ScorePhrase(terms: seq<string>, candidateDocs: seq<DocId>, svc: DocumentInfoService)
    returns (docScores: map<DocId, real>)
    modifies svc
    ensures docScores == ScoreCandidates(terms, candidateDocs, svc.store)
    ensures svc.calls == old(svc.calls) + ScoreCalls(terms, candidateDocs)
  {
    docScores := map[];
    for k := 0 to |candidateDocs|
      invariant docScores == ScoreCandidates(terms, candidateDocs[..k], svc.store)
      invariant svc.calls == old(svc.calls) + ScoreCalls(terms, candidateDocs[..k])
    {
      var docId := candidateDocs[k];
      var isMatch := MatchesIn(terms, docId, svc);
      ScoreCandidatesStep(terms, candidateDocs, k, svc.store);
      ScoreCallsStep(terms, candidateDocs, k);
      if isMatch {
        docScores := docScores[docId := 1.0];
      }
    }
    assert candidateDocs[..|candidateDocs|] == candidateDocs;
  }

  /** searchPhrase, with an explicit guard for an empty phrase. */
  method SearchPhrase(terms: seq<string>, svc: DocumentInfoService) returns (docScores: map<DocId, real>)
    modifies svc
    ensures docScores == PhraseScores(terms, svc.store)
    ensures svc.calls == old(svc.calls) + PhraseCalls(terms, svc.store)
  {
    docScores := map[];
    if |terms| == 0 {
      return;
    }
    var docSets := FetchDocSets(terms, svc);
    if exists i :: 0 <= i < |docSets| && |docSets[i]| == 0 {
      assert PhraseCalls(terms, svc.store) == DocSetCalls(terms);
      return;
    }
    assert PhraseCalls(terms, svc.store) == DocSetCalls(terms) + ScoreCalls(terms, Candidates(docSets));
    var candidateDocs := Intersect(docSets);
    if |candidateDocs| == 0 {
      assert DocSetCalls(terms) + ScoreCalls(terms, candidateDocs) == DocSetCalls(terms);
      return;
    }
    docScores := ScorePhrase(terms, candidateDocs, svc);
  }

  /** With only the first list there is nothing to filter by. */
  lemma {:induction false} KeepCommonAll(xs: seq<DocId>, sets: seq<seq<DocId>>)
    requires |sets| <= 1
    ensures KeepCommon(xs, sets) == xs
    decreases |xs|
  {
    if xs != [] {
      KeepCommonAll(xs[..|xs| - 1], sets);
    }
  }

  /** A document is scored iff the phrase is non-empty, every term's posting list holds it and the phrase occurs in it; every score is 1.0. */
  lemma PhraseScoresMeaning(terms: seq<string>, s: Store, d: DocId)
    ensures d in PhraseScores(terms, s)
        <==> terms != [] && (forall i :: 0 <= i < |terms| ==> d in s.DocIds(terms[i])) && PhraseIn(terms, d, s)
    ensures d in PhraseScores(terms, s) ==> PhraseScores(terms, s)[d] == 1.0
  {
    if terms != [] {
      var sets := DocSets(terms, s);
      var inAll := forall i :: 0 <= i < |terms| ==> d in s.DocIds(terms[i]);
      if exists i :: 0 <= i < |sets| && sets[i] == [] {
        var i :| 0 <= i < |sets| && sets[i] == [];
        assert PhraseScores(terms, s) == map[];
        assert !inAll by {
          assert d !in s.DocIds(terms[i]);
        }
      } else {
        assert PhraseScores(terms, s) == ScoreCandidates(terms, Candidates(sets), s);
        CandidatesMembers(sets, d);
        assert d in Candidates(sets) <==> inAll;
        ScoreCandidatesMeaning(terms, Candidates(sets), s);
      }
    }
  }

  /** A one-word phrase occurs wherever the word has any position at all. */
  lemma SingleTermPhrase(t: string, pm: map<string, seq<Position>>)
    ensures PhraseMatch([t], pm) <==> Lookup(pm, t) != []
  {
    if Lookup(pm, t) != [] {
      assert RunFrom([t], pm, Lookup(pm, t)[0]);
    }
  }

  /** Only which positions a term has matters, not their order or repeats. */
  lemma PhraseMatchOrderFree(terms: seq<string>, pm: map<string, seq<Position>>, pm': map<string, seq<Position>>)
    requires pm.Keys == pm'.Keys
    requires forall t :: t in pm ==> (set p | p in pm[t]) == (set p | p in pm'[t])
    ensures PhraseMatch(terms, pm) <==> PhraseMatch(terms, pm')
  {
    if PhraseMatch(terms, pm) {
      SamePositionsMatch(terms, pm, pm');
    }
    if PhraseMatch(terms, pm') {
      SamePositionsMatch(terms, pm', pm);
    }
  }

  lemma SameElements(x: Position, a: seq<Position>, b: seq<Position>)
    requires (set y | y in a) == (set y | y in b) && x in a
    ensures x in b
  {
    var sa, sb := set y | y in a, set y | y in b;
    assert x in sa;
    assert x in sb;
  }

  lemma SamePositionsMatch(terms: seq<string>, q: map<string, seq<Position>>, q': map<string, seq<Position>>)
    requires q.Keys == q'.Keys
    requires forall t :: t in q ==> (set p | p in q[t]) == (set p | p in q'[t])
    requires PhraseMatch(terms, q)
    ensures PhraseMatch(terms, q')
  {
    var p :| p in Lookup(q, terms[0]) && RunFrom(terms, q, p);
    assert terms[0] in q;
    SameElements(p, q[terms[0]], q'[terms[0]]);
    forall i | 1 <= i < |terms|
      ensures terms[i] in q' && Shift(p, i) in q'[terms[i]]
    {
      SameElements(Shift(p, i), q[terms[i]], q'[terms[i]]);
    }
    assert RunFrom(terms, q', p);
  }

  /** "a b" occurs where a is at 5 and b at 6, and not where b is at 7. */
  lemma ConsecutiveOnly(a: string, b: string)
    requires a != b
    ensures PhraseMatch([a, b], map[a := [At(5)], b := [At(6)]])
    ensures !PhraseMatch([a, b], map[a := [At(5)], b := [At(7)]])
  {
    var pm := map[a := [At(5)], b := [At(6)]];
    assert RunFrom([a, b], pm, At(5));
    var pm' := map[a := [At(5)], b := [At(7)]];
    forall p | p in Lookup(pm', a)
      ensures !RunFrom([a, b], pm', p)
    {
      assert p == At(5);
      assert Shift(p, 1) !in pm'[b];
    }
  }

  /** A record without a second field, or whose second field is not a number, parses to NaN. */
  lemma MalformedRecordsParseToNaN()
    ensures ParsePosition("1") == NaN && ParsePosition("1:x:2") == NaN
  {
    assert IndexOf("1", ':') == None;
    assert SecondField("1") == None;
    SecondFieldX();
    ParseIntX();
  }

  lemma SecondFieldX()
    ensures SecondField("1:x:2") == Some("x")
  {
    assert "1:x:2" == "1" + [':'] + ("x" + [':'] + "2");
    SplitAt("1", "x" + [':'] + "2", ':');
    SplitAt("x", "2", ':');
  }

  lemma ParseIntX()
    ensures ParseInt("x") == NaN
  {
    var x := "x";
    assert x[0] == 'x' && !IsJsSpace(x[0]);
    assert TrimStart(x) == x;
    assert !IsDigit(x[0]);
    assert DigitPrefix(x) == [];
  }

  /** NaN matches NaN, so NaN positions chain into any phrase. */
  lemma NaNPositionsChain(a: string, b: string)
    requires a != b
    ensures PhraseMatch([a, b], map[a := [NaN], b := [NaN]])
  {
    assert RunFrom([a, b], map[a := [NaN], b := [NaN]], NaN);
  }
}
