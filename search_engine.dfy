// The search entry point (src/search/search-engine.ts): tokenize the query, normalize the
// terms, run the strategy of the chosen mode, then rank the scored documents by descending
// score, keep the first `limit` of them and attach each document's stored path.
// The strategies' maps are unordered here, so the insertion order a JavaScript Map iterates
// in is left open: ranking is stated for every listing of the map's entries.

module SearchEngines {
  import opened Wrappers
  import opened DocInfo
  import opened Tokenizer
  import N = Normalizer
  import KeywordSearch
  import PhraseSearch
  import BooleanSearch
  import BooleanQuery

  datatype SearchMode = Keyword | Phrase | Boolean

  datatype SearchOptions = SearchOptions(limit: Option<int>, mode: Option<SearchMode>)

  datatype SearchResult = SearchResult(docId: DocId, path: string, score: real)

  /** One `[docId, score]` entry of a strategy's result map. */
  type Entry = (DocId, real)

  function Min(a: int, b: int): int
  {
    if a <= b then a else b
  }

  /** `options.mode ?? SearchMode.Keyword`. */
  function ModeOf(options: SearchOptions): (mode: SearchMode)
    ensures options.mode.None? ==> mode == Keyword
    ensures options.mode.Some? ==> mode == options.mode.value
  {
    match options.mode
    case None => Keyword
    case Some(m) => m
  }

  // ---------------------------------------------------------------------------
  // Ranking
  // ---------------------------------------------------------------------------

  predicate SortedDesc(xs: seq<Entry>)
  {
    forall i, j :: 0 <= i < j < |xs| ==> xs[i].1 >= xs[j].1
  }

  /** `e` placed before the first entry that does not outscore it. */
  function Insert(e: Entry, xs: seq<Entry>): (r: seq<Entry>)
    requires SortedDesc(xs)
    ensures |r| == |xs| + 1 && SortedDesc(r)
    ensures multiset(r) == multiset(xs) + multiset{e}
  {
    if xs == [] || xs[0].1 <= e.1 then [e] + xs
    else
      var rest := Insert(e, xs[1..]);
      assert multiset(xs) == multiset{xs[0]} + multiset(xs[1..]) by {
        assert xs == [xs[0]] + xs[1..];
      }
      BoundedBy(xs[0].1, e, xs[1..], rest);
      SortedCons(xs[0], rest);
      [xs[0]] + rest
  }

  /** A rearrangement of `ys` and `e`, all scoring at most `b`, still scores at most `b`. */
  lemma BoundedBy(b: real, e: Entry, ys: seq<Entry>, rest: seq<Entry>)
    requires multiset(rest) == multiset(ys) + multiset{e}
    requires e.1 <= b && forall k :: 0 <= k < |ys| ==> ys[k].1 <= b
    ensures forall k :: 0 <= k < |rest| ==> rest[k].1 <= b
  {
    forall k | 0 <= k < |rest|
      ensures rest[k].1 <= b
    {
      assert rest[k] in multiset(rest);
      if rest[k] != e {
        assert rest[k] in multiset(ys);
      }
    }
  }

  lemma SortedCons(x: Entry, rest: seq<Entry>)
    requires SortedDesc(rest) && forall k :: 0 <= k < |rest| ==> rest[k].1 <= x.1
    ensures SortedDesc([x] + rest)
  {
  }

  /** `sort((a, b) => b[1] - a[1])`: the entries by non-increasing score. */
  function SortDesc(xs: seq<Entry>): (r: seq<Entry>)
    ensures |r| == |xs| && SortedDesc(r) && multiset(r) == multiset(xs)
  {
    if xs == [] then []
    else
      assert xs == [xs[0]] + xs[1..];
      Insert(xs[0], SortDesc(xs[1..]))
  }

  /** How many ranked entries are kept: `Math.min(length, limit || length)`, none when negative. */
  function Taken(limit: Option<int>, n: nat): (k: nat)
    ensures k <= n
    ensures limit.None? || limit.value == 0 ==> k == n
    ensures limit.Some? && limit.value > 0 ==> k <= limit.value && (k == n || k == limit.value)
    ensures limit.Some? && limit.value < 0 ==> k == 0
  {
    var finalLimit := if limit.None? || limit.value == 0 then n else limit.value;
    if finalLimit < 0 then 0 else Min(n, finalLimit)
  }

  /** The key of a document's path, `doc:${docId}:path`. */
  function PathKey(docId: DocId): string
  {
    "doc:" + docId + ":path"
  }

  /** `path || 'Unknown'`: a missing or empty stored path reads as 'Unknown'. */
  function PathOf(paths: map<string, string>, docId: DocId): (path: string)
    ensures PathKey(docId) !in paths ==> path == "Unknown"
    ensures PathKey(docId) in paths && paths[PathKey(docId)] != "" ==> path == paths[PathKey(docId)]
    ensures PathKey(docId) in paths && paths[PathKey(docId)] == "" ==> path == "Unknown"
  {
    var key := PathKey(docId);
    if key in paths && paths[key] != "" then paths[key] else "Unknown"
  }

  function ResultOf(e: Entry, paths: map<string, string>): SearchResult
  {
    SearchResult(e.0, PathOf(paths, e.0), e.1)
  }

  /** The first `Taken` ranked entries as results. */
  function Formatted(sorted: seq<Entry>, limit: Option<int>, paths: map<string, string>): (r: seq<SearchResult>)
    ensures |r| == Taken(limit, |sorted|)
  {
    seq(Taken(limit, |sorted|), i requires 0 <= i < Taken(limit, |sorted|) => ResultOf(sorted[i], paths))
  }

  /** What `formatResults` returns for the entries listed in `entries`. */
  function Ranked(entries: seq<Entry>, limit: Option<int>, paths: map<string, string>): (r: seq<SearchResult>)
    ensures |r| == Taken(limit, |entries|)
  {
    Formatted(SortDesc(entries), limit, paths)
  }

  /** `entries` lists each entry of `m` exactly once. */
  ghost predicate ListsEntries(entries: seq<Entry>, m: map<DocId, real>)
  {
    && (forall i :: 0 <= i < |entries| ==> entries[i].0 in m && m[entries[i].0] == entries[i].1)
    && (forall i, j :: 0 <= i < j < |entries| ==> entries[i].0 != entries[j].0)
    && (forall d :: d in m ==> exists i :: 0 <= i < |entries| && entries[i].0 == d)
  }

  // ---------------------------------------------------------------------------
  // The operations
  // ---------------------------------------------------------------------------

  /** The terms the strategy receives. */
  function QueryTerms(isWord: char -> bool, lower: string -> string, upper: string -> string,
                      mode: SearchMode, query: string, s: Store): seq<string>
  {
    var rawTerms := Tokenize(isWord, query);
    if mode == Boolean then N.BooleanTerms(lower, upper, rawTerms, s) else N.PlainTerms(lower, rawTerms, s)
  }

  /** The requests normalization sends to the document-information service. */
  function NormalizeCalls(lower: string -> string, upper: string -> string, mode: SearchMode,
                          rawTerms: seq<string>, s: Store): seq<Call>
  {
    if mode == Boolean then N.LemmaCall(N.Lexemes(upper, rawTerms))
    else N.LemmaCall(rawTerms) + N.StopCall(N.LemmasFor(lower, rawTerms, s))
  }

  /** The strategy of each mode; a malformed boolean query is the error it throws. */
  function Scores(log10: real -> real, mode: SearchMode, terms: seq<string>, s: Store)
    : Result<map<DocId, real>, BooleanQuery.ParseError>
  {
    match mode
    case Keyword => Ok(KeywordSearch.KeywordScores(log10, terms, s))
    case Phrase => Ok(PhraseSearch.PhraseScores(terms, s))
    case Boolean => BooleanSearch.BooleanScores(terms, s)
  }

  class SearchEngine {
    const docInfo: DocumentInfoService
    const normalizer: N.Normalizer
    /** The store's string values the engine reads directly: the `doc:<id>:path` keys. */
    const paths: map<string, string>
    const isWord: char -> bool
    const log10: real -> real

    constructor (docInfo: DocumentInfoService, paths: map<string, string>, isWord: char -> bool,
                 lower: string -> string, upper: string -> string, log10: real -> real)
      ensures this.docInfo == docInfo && this.paths == paths && this.isWord == isWord && this.log10 == log10
      ensures normalizer.docInfo == docInfo && normalizer.lower == lower && normalizer.upper == upper
    {
      this.docInfo := docInfo;
      this.paths := paths;
      this.isWord := isWord;
      this.log10 := log10;
      normalizer := new N.Normalizer(docInfo, lower, upper);
    }

    /**
     * `search`: with no terms left after normalization no strategy runs and nothing is
     * found; otherwise the strategy's scores are ranked, or its error is passed on.
     */
    method Search(query: string, options: SearchOptions)
      returns (r: Result<seq<SearchResult>, BooleanQuery.ParseError>, ghost entries: seq<Entry>)
      requires normalizer.docInfo == docInfo
      modifies docInfo
      ensures var terms := QueryTerms(isWord, normalizer.lower, normalizer.upper, ModeOf(options), query, docInfo.store);
        terms == [] ==> r == Ok([])
      ensures var mode := ModeOf(options);
        var terms := QueryTerms(isWord, normalizer.lower, normalizer.upper, mode, query, docInfo.store);
        var calls := NormalizeCalls(normalizer.lower, normalizer.upper, mode, Tokenize(isWord, query), docInfo.store);
        terms == [] ==> docInfo.calls == old(docInfo.calls) + calls
      ensures var mode := ModeOf(options);
        var terms := QueryTerms(isWord, normalizer.lower, normalizer.upper, mode, query, docInfo.store);
        terms != [] ==>
          match Scores(log10, mode, terms, docInfo.store)
          case Err(e) => r == Err(e)
          case Ok(m) => ListsEntries(entries, m) && r == Ok(Ranked(entries, options.limit, paths))
    {
      entries := [];
      var mode := ModeOf(options);
      var isBoolean := mode == Boolean;
      var rawTerms := Tokenize(isWord, query);
      var terms := normalizer.NormalizeTerms(rawTerms, isBoolean);
      if |terms| == 0 {
        return Ok([]), entries;
      }
      var docScores;
      match mode {
        case Keyword =>
          docScores := KeywordSearch.SearchKeyword(terms, docInfo, log10);
        case Phrase =>
          docScores := PhraseSearch.SearchPhrase(terms, docInfo);
        case Boolean =>
          var outcome, fetched := BooleanSearch.SearchBoolean(terms, docInfo);
          if outcome.Err? {
            return Err(outcome.error), entries;
          }
          docScores := outcome.value;
      }
      var results;
      results, entries := FormatResults(docScores, options.limit);
      r := Ok(results);
    }

    /** `formatResults`: rank, keep the first `limit` entries, look up each path. */
    method FormatResults(docScores: map<DocId, real>, limit: Option<int>)
      returns (results: seq<SearchResult>, ghost entries: seq<Entry>)
      ensures ListsEntries(entries, docScores)
      ensures results == Ranked(entries, limit, paths)
    {
      var listed := EntriesOf(docScores);
      entries := listed;
      var sortedDocs := SortDesc(listed);
      results := TakeResults(sortedDocs, limit);
    }

    /** The loop of `formatResults` over the sorted entries. */
    method TakeResults(sortedDocs: seq<Entry>, limit: Option<int>) returns (results: seq<SearchResult>)
      ensures results == Formatted(sortedDocs, limit, paths)
    {
      var finalLimit := if limit.None? || limit.value == 0 then |sortedDocs| else limit.value;
      results := [];
      var i := 0;
      while i < Min(|sortedDocs|, finalLimit)
        invariant 0 <= i <= Taken(limit, |sortedDocs|)
        invariant results == Formatted(sortedDocs, limit, paths)[..i]
      {
        var (docId, score) := sortedDocs[i];
        var path := PathOf(paths, docId);
        results := results + [SearchResult(docId, path, score)];
        i := i + 1;
      }
      assert i == Taken(limit, |sortedDocs|);
    }
  }

  /** `Array.from(docScores.entries())`, in an order the model leaves open. */
  method EntriesOf(m: map<DocId, real>) returns (entries: seq<Entry>)
    ensures ListsEntries(entries, m)
  {
    entries := [];
    var keys := m.Keys;
    while keys != {}
      invariant keys <= m.Keys
      invariant forall i :: 0 <= i < |entries| ==> entries[i].0 in m && m[entries[i].0] == entries[i].1
      invariant forall i :: 0 <= i < |entries| ==> entries[i].0 !in keys
      invariant forall i, j :: 0 <= i < j < |entries| ==> entries[i].0 != entries[j].0
      invariant forall d :: d in m && d !in keys ==> exists i :: 0 <= i < |entries| && entries[i].0 == d
      decreases keys
    {
      var d :| d in keys;
      ghost var before := entries;
      entries := entries + [(d, m[d])];
      keys := keys - {d};
      forall d' | d' in m && d' !in keys
        ensures exists i :: 0 <= i < |entries| && entries[i].0 == d'
      {
        if d' == d {
          assert entries[|before|].0 == d';
        } else {
          var i :| 0 <= i < |before| && before[i].0 == d';
          assert entries[i].0 == d';
        }
      }
    }
  }

  // ---------------------------------------------------------------------------
  // What the ranking promises
  // ---------------------------------------------------------------------------

  /** Results come by non-increasing score. */
  lemma RankedOrdered(entries: seq<Entry>, limit: Option<int>, paths: map<string, string>)
    ensures var r := Ranked(entries, limit, paths);
      forall i, j :: 0 <= i < j < |r| ==> r[i].score >= r[j].score
  {
  }

  /** Each result is an entry of the strategy's map, with its path, and no document comes twice. */
  lemma RankedFromMap(entries: seq<Entry>, m: map<DocId, real>, limit: Option<int>, paths: map<string, string>)
    requires ListsEntries(entries, m)
    ensures var r := Ranked(entries, limit, paths);
      && (forall i :: 0 <= i < |r| ==> r[i].docId in m && m[r[i].docId] == r[i].score)
      && (forall i :: 0 <= i < |r| ==> r[i].path == PathOf(paths, r[i].docId))
      && (forall i, j :: 0 <= i < j < |r| ==> r[i].docId != r[j].docId)
  {
    var sorted := SortDesc(entries);
    var r := Ranked(entries, limit, paths);
    assert r == Formatted(sorted, limit, paths);
    SortedListsEntries(sorted, entries, m);
    assert forall k :: 0 <= k < |r| ==> r[k] == ResultOf(sorted[k], paths);
  }

  /** A rearrangement of a listing of `m` is one too. */
  lemma SortedListsEntries(sorted: seq<Entry>, entries: seq<Entry>, m: map<DocId, real>)
    requires ListsEntries(entries, m) && multiset(sorted) == multiset(entries)
    ensures forall i :: 0 <= i < |sorted| ==> sorted[i].0 in m && m[sorted[i].0] == sorted[i].1
    ensures forall i, j :: 0 <= i < j < |sorted| ==> sorted[i].0 != sorted[j].0
  {
    forall i | 0 <= i < |sorted|
      ensures sorted[i].0 in m && m[sorted[i].0] == sorted[i].1
    {
      assert sorted[i] in multiset(entries);
    }
    DistinctIdsEntries(entries);
    forall i, j | 0 <= i < j < |sorted|
      ensures sorted[i].0 != sorted[j].0
    {
      if sorted[i].0 == sorted[j].0 {
        TwoOccurrences(sorted, i, j);
        CountAtMostOne(entries, sorted[i]);
        assert false;
      }
    }
  }

  /** The results are the top-ranked entries: a document left out scores no more than any kept one. */
  lemma RankedTop(entries: seq<Entry>, m: map<DocId, real>, limit: Option<int>, paths: map<string, string>, d: DocId)
    requires ListsEntries(entries, m)
    requires d in m
    requires forall i :: 0 <= i < |Ranked(entries, limit, paths)| ==> Ranked(entries, limit, paths)[i].docId != d
    ensures forall i :: 0 <= i < |Ranked(entries, limit, paths)| ==> m[d] <= Ranked(entries, limit, paths)[i].score
  {
    var sorted := SortDesc(entries);
    var r := Ranked(entries, limit, paths);
    assert r == Formatted(sorted, limit, paths);
    var j := PositionOf(sorted, entries, m, d);
    assert forall k :: 0 <= k < |r| ==> r[k].docId == sorted[k].0 && r[k].score == sorted[k].1;
    assert j >= |r|;
  }

  /** Where the entry of `d` sits in a rearrangement of a listing of `m`. */
  lemma PositionOf(sorted: seq<Entry>, entries: seq<Entry>, m: map<DocId, real>, d: DocId) returns (j: nat)
    requires ListsEntries(entries, m) && multiset(sorted) == multiset(entries) && d in m
    ensures j < |sorted| && sorted[j] == (d, m[d])
  {
    var i :| 0 <= i < |entries| && entries[i].0 == d;
    assert entries[i] in multiset(sorted);
    j :| 0 <= j < |sorted| && sorted[j] == entries[i];
  }

  /** With no limit (null or 0) every entry of the map is returned. */
  lemma AllWithoutLimit(entries: seq<Entry>, m: map<DocId, real>, limit: Option<int>, paths: map<string, string>)
    requires ListsEntries(entries, m)
    requires limit.None? || limit.value == 0
    ensures |Ranked(entries, limit, paths)| == |m|
  {
    IdSetSize(entries);
    assert IdSet(entries) == m.Keys by {
      forall d | d in m ensures d in IdSet(entries) {
        var i :| 0 <= i < |entries| && entries[i].0 == d;
        IdSetMembers(entries, i);
      }
      forall d | d in IdSet(entries) ensures d in m {
        IdSetFrom(entries, d);
      }
    }
  }

  // Helpers for the lemmas above.

  predicate DistinctEntries(xs: seq<Entry>)
  {
    forall i, j :: 0 <= i < j < |xs| ==> xs[i] != xs[j]
  }

  lemma DistinctIdsEntries(entries: seq<Entry>)
    requires forall i, j :: 0 <= i < j < |entries| ==> entries[i].0 != entries[j].0
    ensures DistinctEntries(entries)
  {
  }

  lemma {:induction false} CountAtMostOne(xs: seq<Entry>, x: Entry)
    requires DistinctEntries(xs)
    ensures multiset(xs)[x] <= 1
  {
    if xs != [] {
      assert xs == [xs[0]] + xs[1..];
      CountAtMostOne(xs[1..], x);
      if x == xs[0] {
        assert x !in xs[1..];
      }
    }
  }

  lemma TwoOccurrences(xs: seq<Entry>, i: nat, j: nat)
    requires i < j < |xs| && xs[i] == xs[j]
    ensures multiset(xs)[xs[i]] >= 2
  {
    assert xs == xs[..i] + [xs[i]] + xs[i + 1..j] + [xs[j]] + xs[j + 1..];
  }

  function IdSet(xs: seq<Entry>): set<DocId>
  {
    if xs == [] then {} else IdSet(xs[..|xs| - 1]) + {xs[|xs| - 1].0}
  }

  lemma {:induction false} IdSetMembers(xs: seq<Entry>, i: nat)
    requires i < |xs|
    ensures xs[i].0 in IdSet(xs)
  {
    if i < |xs| - 1 {
      IdSetMembers(xs[..|xs| - 1], i);
    }
  }

  lemma {:induction false} IdSetFrom(xs: seq<Entry>, d: DocId)
    requires d in IdSet(xs)
    ensures exists i :: 0 <= i < |xs| && xs[i].0 == d
  {
    var n := |xs| - 1;
    if xs[n].0 != d {
      IdSetFrom(xs[..n], d);
      var i :| 0 <= i < n && xs[..n][i].0 == d;
      assert xs[i].0 == d;
    }
  }

  lemma {:induction false} IdSetSize(xs: seq<Entry>)
    requires forall i, j :: 0 <= i < j < |xs| ==> xs[i].0 != xs[j].0
    ensures |IdSet(xs)| == |xs|
  {
    if xs != [] {
      var n := |xs| - 1;
      IdSetSize(xs[..n]);
      if xs[n].0 in IdSet(xs[..n]) {
        IdSetFrom(xs[..n], xs[n].0);
      }
    }
  }

  /** Inside the engine the phrase strategy never sees an empty phrase, so the unguarded source agrees. */
  lemma EnginePhraseUnguarded(terms: seq<string>, s: Store)
    requires terms != []
    ensures PhraseSearch.PhraseAsWritten(terms, s) == Ok(PhraseSearch.PhraseScores(terms, s))
  {
    PhraseSearch.GuardedPhraseAgrees(terms, s);
  }
}
