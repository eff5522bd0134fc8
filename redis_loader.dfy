// The dictionary loaders (src/redis/client/redis-loader.ts and its two subclasses,
// lemma-loader.ts and stopwords-loader.ts): a writable stream that turns each input line
// into a [key, value, valid] entry, drops the invalid ones, and writes the valid pairs to
// Redis with SET in pipelines of `batchSize` pairs, plus one final pipeline for the rest.
// The executed pipelines are kept in a ghost log.

module Loaders {
  import opened Wrappers
  import opened Text

  /** The default `batchSize` of both loaders. */
  const DefaultBatchSize: int := 1000

  /** `CSV_SEPARATOR` of the lemma dictionary. */
  const CsvSeparator: char := ';'

  /** `ProcessedEntry`: a key, a value (absent when the line has no second field), and the validity flag. */
  datatype Entry = Entry(key: string, value: Option<string>, ok: bool)

  /** The two concrete loaders, each with its language code. */
  datatype Loader = LemmaLoader(langCode: string) | StopWordsLoader(langCode: string)

  /** `LemmaRedisLoader.processEntry`: a `term;lemma` line keyed `term:langCode`. */
  function LemmaEntry(langCode: string, line: string): (e: Entry)
    ensures e.ok ==> e.value.Some?
  {
    var fields := Split(line, CsvSeparator);
    var term := fields[0];
    var lemmaField := if |fields| >= 2 then Some(fields[1]) else None;
    var ok := |fields| >= 2 && term != "" && fields[1] != ""
      && term != "_" && fields[1] != "_" && term != fields[1];
    Entry(term + ":" + langCode, lemmaField, ok)
  }

  /** `StopWordsLoader.processEntry`: the trimmed line keyed `sw:langCode:word`, value "1". */
  function StopWordEntry(langCode: string, chunk: string): (e: Entry)
    ensures e.value == Some("1")
  {
    var word := Trim(chunk);
    Entry("sw:" + langCode + ":" + word, Some("1"), word != "")
  }

  function ProcessEntry(loader: Loader, chunk: string): (e: Entry)
    ensures e.ok ==> e.value.Some?
  {
    match loader
    case LemmaLoader(lang) => LemmaEntry(lang, chunk)
    case StopWordsLoader(lang) => StopWordEntry(lang, chunk)
  }

  /** The pairs the lines contribute: one per valid entry, in input order. */
  function Accepted(loader: Loader, chunks: seq<string>): seq<(string, string)>
  {
    if chunks == [] then []
    else
      var n := |chunks| - 1;
      var e := ProcessEntry(loader, chunks[n]);
      Accepted(loader, chunks[..n]) + (if e.ok then [(e.key, e.value.value)] else [])
  }

  function Concat(pipelines: seq<seq<(string, string)>>): seq<(string, string)>
  {
    if pipelines == [] then [] else Concat(pipelines[..|pipelines| - 1]) + pipelines[|pipelines| - 1]
  }

  /** `batch.length >= batchSize` first holds at this length (a size below 1 flushes every pair). */
  function Threshold(batchSize: int): nat
  {
    if batchSize < 1 then 1 else batchSize
  }

  class RedisLoader {
    const loader: Loader
    const batchSize: int
    var batch: seq<(string, string)>
    /** Every line written so far. */
    ghost var input: seq<string>
    /** The SET pairs of every executed pipeline. */
    ghost var pipelines: seq<seq<(string, string)>>

    ghost predicate Valid()
      reads this
    {
      |batch| < Threshold(batchSize)
      && Accepted(loader, input) == Concat(pipelines) + batch
      && forall k :: 0 <= k < |pipelines| ==> |pipelines[k]| == Threshold(batchSize)
    }

    constructor (loader: Loader, batchSize: int)
      ensures Valid() && this.loader == loader && this.batchSize == batchSize
      ensures input == [] && pipelines == [] && batch == []
    {
      this.loader := loader;
      this.batchSize := batchSize;
      batch := [];
      input := [];
      pipelines := [];
    }

    /** `_write`: an invalid entry is dropped; a valid pair is batched, and a full batch is sent. */
    method Write(chunk: string)
      requires Valid()
      modifies this
      ensures Valid() && input == old(input) + [chunk]
      ensures var e := ProcessEntry(loader, chunk);
        !e.ok ==> batch == old(batch) && pipelines == old(pipelines)
      ensures var e := ProcessEntry(loader, chunk);
        e.ok && |old(batch)| + 1 < Threshold(batchSize) ==>
          batch == old(batch) + [(e.key, e.value.value)] && pipelines == old(pipelines)
      ensures var e := ProcessEntry(loader, chunk);
        e.ok && |old(batch)| + 1 == Threshold(batchSize) ==>
          batch == [] && pipelines == old(pipelines) + [old(batch) + [(e.key, e.value.value)]]
    {
      var e := ProcessEntry(loader, chunk);
      input := input + [chunk];
      assert input[..|input| - 1] == old(input);
      if !e.ok {
        return;
      }
      batch := batch + [(e.key, e.value.value)];
      if |batch| >= batchSize {
        FlushBatch();
      }
    }

    /**
     * `_final`: send what is left.  Every valid pair has then been written exactly once,
     * in input order, in ⌈n / batchSize⌉ pipelines; with no valid pair no pipeline is opened.
     */
    method Final()
      requires Valid()
      modifies this
      ensures batch == [] && input == old(input)
      ensures pipelines == old(pipelines) + (if old(batch) == [] then [] else [old(batch)])
      ensures Concat(pipelines) == Accepted(loader, input)
      ensures forall k :: 0 <= k < |pipelines| ==> 0 < |pipelines[k]| <= Threshold(batchSize)
      ensures Accepted(loader, input) == [] ==> pipelines == []
      ensures Accepted(loader, input) != [] ==>
        (|pipelines| - 1) * Threshold(batchSize) < |Accepted(loader, input)| <= |pipelines| * Threshold(batchSize)
    {
      ghost var sent, left := pipelines, batch;
      FlushBatch();
      LastPipeline(sent, left, Threshold(batchSize));
    }

    /** `flushBatch`: an empty batch opens no pipeline; otherwise one pipeline SETs the batch. */
    method FlushBatch()
      modifies this
      ensures input == old(input)
      ensures old(batch) == [] ==> batch == [] && pipelines == old(pipelines)
      ensures old(batch) != [] ==> batch == [] && pipelines == old(pipelines) + [old(batch)]
    {
      if |batch| == 0 {
        return;
      }
      var pipeline := [];
      for i := 0 to |batch|
        invariant pipeline == batch[..i]
      {
        var (key, value) := batch[i];
        pipeline := pipeline + [(key, value)];
      }
      assert batch[..|batch|] == batch;
      pipelines := pipelines + [pipeline];
      batch := [];
    }
  }

  /**
   * Full pipelines followed by the leftover batch, sent as one more pipeline when it is
   * non-empty: every pipeline is non-empty and bounded, and their number is ⌈n / t⌉.
   */
  lemma LastPipeline(sent: seq<seq<(string, string)>>, left: seq<(string, string)>, t: nat)
    requires forall k :: 0 <= k < |sent| ==> |sent[k]| == t
    requires 0 < t && |left| < t
    ensures var ps := sent + (if left == [] then [] else [left]);
      && Concat(ps) == Concat(sent) + left
      && (forall k :: 0 <= k < |ps| ==> 0 < |ps[k]| <= t)
      && (Concat(ps) == [] ==> ps == [])
      && (Concat(ps) != [] ==> (|ps| - 1) * t < |Concat(ps)| <= |ps| * t)
  {
    var ps := sent + (if left == [] then [] else [left]);
    FullPipelinesLength(sent, t);
    if left != [] {
      assert ps[..|ps| - 1] == sent;
      assert |ps| - 1 == |sent|;
    } else {
      assert ps == sent;
      if sent != [] {
        var m := |sent| - 1;
        FullPipelinesLength(sent[..m], t);
        assert Concat(sent) == Concat(sent[..m]) + sent[m];
      }
    }
  }

  lemma {:induction false} FullPipelinesLength(ps: seq<seq<(string, string)>>, t: nat)
    requires forall k :: 0 <= k < |ps| ==> |ps[k]| == t
    ensures |Concat(ps)| == |ps| * t
  {
    if ps != [] {
      var n := |ps| - 1;
      FullPipelinesLength(ps[..n], t);
      assert |Concat(ps)| == |Concat(ps[..n])| + |ps[n]|;
      assert |ps| * t == n * t + t;
    }
  }

  // ---------------------------------------------------------------------------
  // What the entries are
  // ---------------------------------------------------------------------------

  /** The pair a line contributes, if its entry is valid. */
  function PairOf(loader: Loader, chunk: string): Option<(string, string)>
  {
    var e := ProcessEntry(loader, chunk);
    if e.ok then Some((e.key, e.value.value)) else None
  }

  /** The pairs `f` yields over the lines, in order. */
  function Collect(f: string -> Option<(string, string)>, chunks: seq<string>): seq<(string, string)>
  {
    if chunks == [] then []
    else
      var n := |chunks| - 1;
      Collect(f, chunks[..n]) + (if f(chunks[n]).Some? then [f(chunks[n]).value] else [])
  }

  lemma {:induction false} AcceptedCollects(loader: Loader, chunks: seq<string>)
    ensures Accepted(loader, chunks) == Collect(c => PairOf(loader, c), chunks)
  {
    if chunks != [] {
      AcceptedCollects(loader, chunks[..|chunks| - 1]);
    }
  }

  lemma {:induction false} CollectMeaning(f: string -> Option<(string, string)>, chunks: seq<string>)
    ensures |Collect(f, chunks)| <= |chunks|
    ensures forall p :: p in Collect(f, chunks) <==> exists c :: c in chunks && f(c) == Some(p)
  {
    if chunks != [] {
      var n := |chunks| - 1;
      CollectMeaning(f, chunks[..n]);
      assert chunks == chunks[..n] + [chunks[n]];
    }
  }

  /** A pair is accepted iff some line yields it as a valid entry; nothing else is written. */
  lemma {:induction false} AcceptedMeaning(loader: Loader, chunks: seq<string>)
    ensures |Accepted(loader, chunks)| <= |chunks|
    ensures forall p :: p in Accepted(loader, chunks) <==>
      exists c :: c in chunks && ProcessEntry(loader, c).ok
        && p == (ProcessEntry(loader, c).key, ProcessEntry(loader, c).value.value)
  {
    var f := c => PairOf(loader, c);
    AcceptedCollects(loader, chunks);
    CollectMeaning(f, chunks);
    forall p
      ensures p in Accepted(loader, chunks) <==>
        exists c :: c in chunks && ProcessEntry(loader, c).ok
          && p == (ProcessEntry(loader, c).key, ProcessEntry(loader, c).value.value)
    {
      if p in Accepted(loader, chunks) {
        var c :| c in chunks && f(c) == Some(p);
        assert PairOf(loader, c) == Some(p);
      }
      if exists c :: c in chunks && ProcessEntry(loader, c).ok
          && p == (ProcessEntry(loader, c).key, ProcessEntry(loader, c).value.value) {
        var c :| c in chunks && ProcessEntry(loader, c).ok
          && p == (ProcessEntry(loader, c).key, ProcessEntry(loader, c).value.value);
        assert f(c) == Some(p);
      }
    }
  }

  /**
   * A dictionary line `term;lemma[;…]` (fields without separators) is keyed `term:langCode`
   * with value `lemma`, and it is valid iff both fields are non-empty, neither is "_", and
   * they differ.
   */
  lemma LemmaLineEntry(langCode: string, term: string, lemmaText: string, rest: seq<string>)
    requires CsvSeparator !in term && CsvSeparator !in lemmaText
    requires forall k :: 0 <= k < |rest| ==> CsvSeparator !in rest[k]
    ensures LemmaEntry(langCode, Join([term, lemmaText] + rest, CsvSeparator))
      == Entry(term + ":" + langCode, Some(lemmaText),
               term != "" && lemmaText != "" && term != "_" && lemmaText != "_" && term != lemmaText)
  {
    var parts := [term, lemmaText] + rest;
    FieldsFree(term, lemmaText, rest);
    JoinSplit(parts, CsvSeparator);
    EntryOfFields(langCode, Join(parts, CsvSeparator), term, lemmaText, rest);
  }

  lemma FieldsFree(term: string, lemmaText: string, rest: seq<string>)
    requires CsvSeparator !in term && CsvSeparator !in lemmaText
    requires forall k :: 0 <= k < |rest| ==> CsvSeparator !in rest[k]
    ensures forall k :: 0 <= k < |[term, lemmaText] + rest| ==> CsvSeparator !in ([term, lemmaText] + rest)[k]
  {
  }

  lemma EntryOfFields(langCode: string, line: string, term: string, lemmaText: string, rest: seq<string>)
    requires Split(line, CsvSeparator) == [term, lemmaText] + rest
    ensures LemmaEntry(langCode, line)
      == Entry(term + ":" + langCode, Some(lemmaText),
               term != "" && lemmaText != "" && term != "_" && lemmaText != "_" && term != lemmaText)
  {
  }

  /** A line without a separator is never valid. */
  lemma LineWithoutSeparatorRejected(langCode: string, line: string)
    requires CsvSeparator !in line
    ensures !LemmaEntry(langCode, line).ok
  {
    assert Split(line, CsvSeparator) == [line];
  }

  /** Lines the dictionary format rejects: no separator, or an empty, "_" or repeated field. */
  lemma RejectedDictionaryLines(langCode: string)
    ensures !LemmaEntry(langCode, "invalid_line_no_separator").ok && !LemmaEntry(langCode, "").ok
    ensures !LemmaEntry(langCode, ";").ok && !LemmaEntry(langCode, "term;_").ok
    ensures !LemmaEntry(langCode, "_;lemma").ok && !LemmaEntry(langCode, "same;same").ok
  {
    LineWithoutSeparatorRejected(langCode, "invalid_line_no_separator");
    LineWithoutSeparatorRejected(langCode, "");
    EmptyOrPlaceholderRejected(langCode);
    RepeatedFieldRejected(langCode);
  }

  lemma EmptyOrPlaceholderRejected(langCode: string)
    ensures !LemmaEntry(langCode, ";").ok && !LemmaEntry(langCode, "term;_").ok
  {
    TwoFieldLine(langCode, ";", "", "");
    TwoFieldLine(langCode, "term;_", "term", "_");
  }

  lemma RepeatedFieldRejected(langCode: string)
    ensures !LemmaEntry(langCode, "_;lemma").ok && !LemmaEntry(langCode, "same;same").ok
  {
    assert "_;lemma" == "_" + [CsvSeparator] + "lemma";
    TwoFieldLine(langCode, "_;lemma", "_", "lemma");
    assert "same;same" == "same" + [CsvSeparator] + "same";
    TwoFieldLine(langCode, "same;same", "same", "same");
  }

  /** A well-formed line is stored under its term suffixed with the language code. */
  lemma AcceptedDictionaryLine(langCode: string)
    ensures LemmaEntry(langCode, "valid;data") == Entry("valid:" + langCode, Some("data"), true)
  {
    assert "valid;data" == "valid" + [CsvSeparator] + "data";
    TwoFieldLine(langCode, "valid;data", "valid", "data");
    assert "valid" != "data" by {
      assert "valid"[0] != "data"[0];
    }
  }

  lemma TwoFieldLine(langCode: string, line: string, term: string, lemmaText: string)
    requires CsvSeparator !in term && CsvSeparator !in lemmaText
    requires line == term + [CsvSeparator] + lemmaText
    ensures LemmaEntry(langCode, line)
      == Entry(term + ":" + langCode, Some(lemmaText),
               term != "" && lemmaText != "" && term != "_" && lemmaText != "_" && term != lemmaText)
  {
    SplitAt(term, lemmaText, CsvSeparator);
    assert Split(lemmaText, CsvSeparator) == [lemmaText];
    EntryOfFields(langCode, line, term, lemmaText, []);
  }

  /** A stop word padded with white space is stored, trimmed, under `sw:langCode:word` with value "1". */
  lemma StopWordLineEntry(langCode: string, a: string, w: string, b: string)
    requires AllSpace(a) && AllSpace(b)
    requires w != [] && !IsJsSpace(w[0]) && !IsJsSpace(w[|w| - 1])
    ensures StopWordEntry(langCode, a + w + b) == Entry("sw:" + langCode + ":" + w, Some("1"), true)
  {
    TrimPadded(a, w, b);
  }

  /** A blank line is never a stop word. */
  lemma BlankLineRejected(langCode: string, line: string)
    requires AllSpace(line)
    ensures !StopWordEntry(langCode, line).ok
  {
    AllSpaceTrimsAway(line);
  }
}
