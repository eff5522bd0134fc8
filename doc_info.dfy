// The document-information collaborator every search strategy and normalizer reads
// (src/search/document-info/document-info.interface.ts).  Its Redis implementation is
// I/O; here the data it serves is an immutable snapshot `Store`, and the service object
// records every request it answers in a ghost call log, so that call counts the
// strategies promise can be stated.

module DocInfo {
  import opened Wrappers

  type DocId = string

  /** What the index store holds, as the service exposes it. */
  datatype Store = Store(
    totalDocs: int,                               // value of the total-documents counter
    postings: map<string, seq<DocId>>,            // term -> documents containing it
    positions: map<(string, DocId), seq<string>>, // (term, doc) -> "line:pos:len" records
    frequencies: map<(string, DocId), int>,       // (term, doc) -> term frequency
    lemmas: map<string, string>,                  // term -> lemma, where one is stored
    stopWords: set<string>)                       // lemmas marked as stop words
  {
    /** Document ids for a term; a term the store does not know has none. */
    function DocIds(term: string): seq<DocId>
    {
      if term in postings then postings[term] else []
    }

    /** Position records for a term in a document; none when absent. */
    function Positions(term: string, doc: DocId): seq<string>
    {
      if (term, doc) in positions then positions[(term, doc)] else []
    }

    /** Term frequency; an absent (term, doc) pair has frequency 0. */
    function Frequency(term: string, doc: DocId): int
    {
      if (term, doc) in frequencies then frequencies[(term, doc)] else 0
    }

    /** The stored lemma of a term, or None (the interface's null). */
    function Lemma(term: string): Option<string>
    {
      if term in lemmas then Some(lemmas[term]) else None
    }

    function IsStopWord(word: string): bool
    {
      word in stopWords
    }

    function LemmasOf(terms: seq<string>): (r: seq<Option<string>>)
      ensures |r| == |terms|
      ensures forall i :: 0 <= i < |terms| ==> r[i] == Lemma(terms[i])
    {
      seq(|terms|, i requires 0 <= i < |terms| => Lemma(terms[i]))
    }

    function StopFlags(lemmas: seq<string>): (r: seq<bool>)
      ensures |r| == |lemmas|
      ensures forall i :: 0 <= i < |lemmas| ==> r[i] == (lemmas[i] in stopWords)
    {
      seq(|lemmas|, i requires 0 <= i < |lemmas| => IsStopWord(lemmas[i]))
    }
  }

  /** One request made to the service. */
  datatype Call =
    | TotalDocuments
    | DocIdsForTerm(term: string)
    | TermPositions(term: string, doc: DocId)
    | TermFrequency(term: string, doc: DocId)
    | Lemmas(terms: seq<string>)
    | StopWords(lemmas: seq<string>)

  /** The collaborator: answers from `store`, logging each request. */
  class DocumentInfoService {
    const store: Store
    ghost var calls: seq<Call>

    constructor (s: Store)
      ensures store == s && calls == []
    {
      store := s;
      calls := [];
    }

    method GetTotalDocuments() returns (n: int)
      modifies this
      ensures n == store.totalDocs
      ensures calls == old(calls) + [TotalDocuments]
    {
      n := store.totalDocs;
      calls := calls + [TotalDocuments];
    }

    method GetDocIdsForTerm(term: string) returns (ids: seq<DocId>)
      modifies this
      ensures ids == store.DocIds(term)
      ensures calls == old(calls) + [DocIdsForTerm(term)]
    {
      ids := store.DocIds(term);
      calls := calls + [DocIdsForTerm(term)];
    }

    method GetTermPositions(term: string, doc: DocId) returns (ps: seq<string>)
      modifies this
      ensures ps == store.Positions(term, doc)
      ensures calls == old(calls) + [TermPositions(term, doc)]
    {
      ps := store.Positions(term, doc);
      calls := calls + [TermPositions(term, doc)];
    }

    method GetTermFrequency(term: string, doc: DocId) returns (tf: int)
      modifies this
      ensures tf == store.Frequency(term, doc)
      ensures calls == old(calls) + [TermFrequency(term, doc)]
    {
      tf := store.Frequency(term, doc);
      calls := calls + [TermFrequency(term, doc)];
    }

    /** One answer per term, in order. */
    method GetLemmas(terms: seq<string>) returns (ls: seq<Option<string>>)
      modifies this
      ensures ls == store.LemmasOf(terms)
      ensures calls == old(calls) + [Lemmas(terms)]
    {
      ls := store.LemmasOf(terms);
      calls := calls + [Lemmas(terms)];
    }

    /** One flag per lemma, in order. */
    method AreStopWords(lemmas: seq<string>) returns (flags: seq<bool>)
      modifies this
      ensures flags == store.StopFlags(lemmas)
      ensures calls == old(calls) + [StopWords(lemmas)]
    {
      flags := store.StopFlags(lemmas);
      calls := calls + [StopWords(lemmas)];
    }
  }
}
