// The last stage of the indexing pipeline (src/index/indexer.ts): it buffers normalized
// tokens and, every 200 tokens and once at the end, sends one Redis pipeline that adds the
// document to each lemma's posting set and appends the token's "line:pos:len" record to the
// lemma's position list for the document.
// Redis is modelled by the commands each executed pipeline carries, kept in a ghost log.

module Indexer {
  import opened Decimal
  import opened WordOrdinalTokenizer
  import NS = NormalizerStream

  /** `batchSize` of the writer. */
  const BatchSize: nat := 200

  /** The two commands the writer sends. */
  datatype Command = SAdd(key: string, member: string) | RPush(key: string, value: string)

  /** The record stored for one occurrence: `${line}:${pos}:${len}`. */
  function Record(line: nat, pos: nat, len: nat): string
  {
    NatToString(line) + ":" + NatToString(pos) + ":" + NatToString(len)
  }

  /** `idx:${lang}:${lemma}`: the set of documents holding the lemma. */
  function PostingKey(lang: string, lemmaText: string): string
  {
    "idx:" + lang + ":" + lemmaText
  }

  /** `${baseKey}:${docId}`: the lemma's occurrences in one document. */
  function PositionsKey(lang: string, lemmaText: string, docId: string): string
  {
    PostingKey(lang, lemmaText) + ":" + docId
  }

  function TokenCommands(lang: string, docId: string, t: NS.NormalizedToken): seq<Command>
  {
    [ SAdd(PostingKey(lang, t.lemmaValue), docId),
      RPush(PositionsKey(lang, t.lemmaValue, docId), Record(t.token.line, t.token.pos, t.token.len)) ]
  }

  /** The commands for `tokens`, in order. */
  function Commands(lang: string, docId: string, tokens: seq<NS.NormalizedToken>): seq<Command>
  {
    if tokens == [] then []
    else
      var n := |tokens| - 1;
      Commands(lang, docId, tokens[..n]) + TokenCommands(lang, docId, tokens[n])
  }

  function Concat(pipelines: seq<seq<Command>>): seq<Command>
  {
    if pipelines == [] then [] else Concat(pipelines[..|pipelines| - 1]) + pipelines[|pipelines| - 1]
  }

  class InvertedIndexWriter {
    var batch: seq<NS.NormalizedToken>
    const docId: string
    const lang: string
    /** Every token written so far. */
    ghost var input: seq<NS.NormalizedToken>
    /** The tokens already sent. */
    ghost var sent: seq<NS.NormalizedToken>
    /** The command list of every executed pipeline. */
    ghost var pipelines: seq<seq<Command>>

    ghost predicate Valid()
      reads this
    {
      |batch| < BatchSize && input == sent + batch
      && Concat(pipelines) == Commands(lang, docId, sent)
      && forall k :: 0 <= k < |pipelines| ==> pipelines[k] != []
    }

    constructor (docId: string, lang: string)
      ensures Valid() && this.docId == docId && this.lang == lang
      ensures batch == [] && input == [] && pipelines == []
    {
      this.docId := docId;
      this.lang := lang;
      batch := [];
      input := [];
      sent := [];
      pipelines := [];
    }

    /** `_write`: buffer the token; a full batch is sent at once. */
    method Write(chunk: NS.NormalizedToken)
      requires Valid()
      modifies this
      ensures Valid() && input == old(input) + [chunk]
      ensures |old(batch)| + 1 < BatchSize ==> batch == old(batch) + [chunk] && pipelines == old(pipelines)
      ensures |old(batch)| + 1 == BatchSize ==>
        batch == [] && pipelines == old(pipelines) + [Commands(lang, docId, old(batch) + [chunk])]
    {
      batch := batch + [chunk];
      input := input + [chunk];
      if |batch| >= BatchSize {
        FlushBatch();
      }
    }

    /** `_final`: send what is left; after it every written token has been sent. */
    method Final()
      requires Valid()
      modifies this
      ensures Valid() && batch == [] && input == old(input)
      ensures old(batch) == [] ==> pipelines == old(pipelines)
      ensures old(batch) != [] ==> pipelines == old(pipelines) + [Commands(lang, docId, old(batch))]
      ensures Concat(pipelines) == Commands(lang, docId, input)
    {
      FlushBatch();
      assert sent + [] == sent;
    }

    /** An empty batch opens no pipeline; otherwise one pipeline carries the whole batch. */
    method FlushBatch()
      requires input == sent + batch && Concat(pipelines) == Commands(lang, docId, sent)
      requires forall k :: 0 <= k < |pipelines| ==> pipelines[k] != []
      modifies this
      ensures Valid() && batch == [] && input == old(input) && sent == old(sent) + old(batch)
      ensures old(batch) == [] ==> pipelines == old(pipelines)
      ensures old(batch) != [] ==> pipelines == old(pipelines) + [Commands(lang, docId, old(batch))]
    {
      if |batch| == 0 {
        assert sent + batch == sent;
        return;
      }
      var pipeline := BuildPipeline(lang, docId, batch);
      assert pipeline != [] by {
        assert |Commands(lang, docId, batch)| >= 2;
      }
      CommandsAppend(lang, docId, sent, batch);
      pipelines := pipelines + [pipeline];
      assert Concat(pipelines) == Concat(pipelines[..|pipelines| - 1]) + pipeline;
      assert pipelines[..|pipelines| - 1] == old(pipelines);
      sent := sent + batch;
      batch := [];
      assert sent + [] == sent;
    }
  }

  /** The body of `_flushBatch`'s loop: two commands per token, in token order. */
  method BuildPipeline(lang: string, docId: string, tokens: seq<NS.NormalizedToken>) returns (pipeline: seq<Command>)
    ensures pipeline == Commands(lang, docId, tokens)
  {
    pipeline := [];
    for i := 0 to |tokens|
      invariant pipeline == Commands(lang, docId, tokens[..i])
    {
      assert tokens[..i + 1][..i] == tokens[..i];
      var token := tokens[i];
      var baseKey := "idx:" + lang + ":" + token.lemmaValue;
      pipeline := pipeline + [SAdd(baseKey, docId)];
      var infoPayload := NatToString(token.token.line) + ":" + NatToString(token.token.pos) + ":" + NatToString(token.token.len);
      pipeline := pipeline + [RPush(baseKey + ":" + docId, infoPayload)];
    }
    assert tokens[..|tokens|] == tokens;
  }

  lemma {:induction false} CommandsAppend(lang: string, docId: string, a: seq<NS.NormalizedToken>, b: seq<NS.NormalizedToken>)
    ensures Commands(lang, docId, a + b) == Commands(lang, docId, a) + Commands(lang, docId, b)
    decreases |b|
  {
    if b == [] {
      assert a + b == a;
    } else {
      var n := |b| - 1;
      assert (a + b)[..|a + b| - 1] == a + b[..n];
      CommandsAppend(lang, docId, a, b[..n]);
    }
  }

  // ---------------------------------------------------------------------------
  // What the commands leave in Redis
  // ---------------------------------------------------------------------------

  /** The list at `key` after the commands run on an empty store: the RPush values, in order. */
  function ListAt(cmds: seq<Command>, key: string): seq<string>
  {
    if cmds == [] then []
    else
      var n := |cmds| - 1;
      ListAt(cmds[..n], key) + (if cmds[n].RPush? && cmds[n].key == key then [cmds[n].value] else [])
  }

  /** The set at `key` after the commands run on an empty store. */
  function SetAt(cmds: seq<Command>, key: string): set<string>
  {
    if cmds == [] then {}
    else
      var n := |cmds| - 1;
      SetAt(cmds[..n], key) + (if cmds[n].SAdd? && cmds[n].key == key then {cmds[n].member} else {})
  }

  /** The records of the tokens carrying `l`, in input order. */
  function RecordsOf(tokens: seq<NS.NormalizedToken>, l: string): seq<string>
  {
    if tokens == [] then []
    else
      var n := |tokens| - 1;
      var t := tokens[n];
      RecordsOf(tokens[..n], l) + (if t.lemmaValue == l then [Record(t.token.line, t.token.pos, t.token.len)] else [])
  }

  lemma {:induction false} ListAtAppend(a: seq<Command>, b: seq<Command>, key: string)
    ensures ListAt(a + b, key) == ListAt(a, key) + ListAt(b, key)
    decreases |b|
  {
    if b == [] {
      assert a + b == a;
    } else {
      var n := |b| - 1;
      assert (a + b)[..|a + b| - 1] == a + b[..n];
      ListAtAppend(a, b[..n], key);
    }
  }

  lemma {:induction false} SetAtAppend(a: seq<Command>, b: seq<Command>, key: string)
    ensures SetAt(a + b, key) == SetAt(a, key) + SetAt(b, key)
    decreases |b|
  {
    if b == [] {
      assert a + b == a;
    } else {
      var n := |b| - 1;
      assert (a + b)[..|a + b| - 1] == a + b[..n];
      SetAtAppend(a, b[..n], key);
    }
  }

  /** Within one document's keys, a position list names exactly one lemma. */
  lemma PositionsKeyInjective(lang: string, l1: string, l2: string, docId: string)
    requires PositionsKey(lang, l1, docId) == PositionsKey(lang, l2, docId)
    ensures l1 == l2
  {
    var k := PositionsKey(lang, l1, docId);
    var start := |"idx:" + lang + ":"|;
    assert |l1| == |l2|;
    assert k[start..start + |l1|] == l1;
    assert PositionsKey(lang, l2, docId)[start..start + |l2|] == l2;
  }

  /**
   * After a document's stream, the position list of lemma `l` in the document holds the
   * records of exactly the tokens carrying `l`, each once and in input order.
   */
  lemma {:induction false} PositionListContents(lang: string, docId: string, tokens: seq<NS.NormalizedToken>, l: string)
    ensures ListAt(Commands(lang, docId, tokens), PositionsKey(lang, l, docId)) == RecordsOf(tokens, l)
  {
    if tokens != [] {
      var n := |tokens| - 1;
      var t := tokens[n];
      var key := PositionsKey(lang, l, docId);
      PositionListContents(lang, docId, tokens[..n], l);
      ListAtAppend(Commands(lang, docId, tokens[..n]), TokenCommands(lang, docId, t), key);
      var tc := TokenCommands(lang, docId, t);
      assert Commands(lang, docId, tokens) == Commands(lang, docId, tokens[..n]) + tc;
      assert tc[..1] == [tc[0]] && tc[..1][..0] == [];
      assert ListAt(tc[..1], key) == [];
      var rec := Record(t.token.line, t.token.pos, t.token.len);
      if t.lemmaValue == l {
        assert ListAt(tc, key) == [rec];
      } else {
        if PositionsKey(lang, t.lemmaValue, docId) == key {
          PositionsKeyInjective(lang, t.lemmaValue, l, docId);
        }
        assert ListAt(tc, key) == [];
      }
    }
  }

  /** After a document's stream, the document is in lemma `l`'s posting set iff some token carried `l`. */
  lemma {:induction false} PostingSetContents(lang: string, docId: string, tokens: seq<NS.NormalizedToken>, l: string)
    ensures SetAt(Commands(lang, docId, tokens), PostingKey(lang, l)) <= {docId}
    ensures docId in SetAt(Commands(lang, docId, tokens), PostingKey(lang, l))
      <==> exists t :: t in tokens && t.lemmaValue == l
  {
    if tokens != [] {
      var n := |tokens| - 1;
      var t := tokens[n];
      var key := PostingKey(lang, l);
      PostingSetContents(lang, docId, tokens[..n], l);
      SetAtAppend(Commands(lang, docId, tokens[..n]), TokenCommands(lang, docId, t), key);
      var tc := TokenCommands(lang, docId, t);
      assert Commands(lang, docId, tokens) == Commands(lang, docId, tokens[..n]) + tc;
      assert tc[..1] == [tc[0]] && tc[..1][..0] == [];
      assert SetAt(tc, key) == SetAt(tc[..1], key);
      if t.lemmaValue == l {
        assert SetAt(tc[..1], key) == SetAt(tc[..1][..0], key) + {docId};
        assert SetAt(tc, key) == {docId};
      } else {
        assert key[|"idx:" + lang + ":"|..] == l;
        assert PostingKey(lang, t.lemmaValue)[|"idx:" + lang + ":"|..] == t.lemmaValue;
        assert SetAt(tc[..1], key) == SetAt(tc[..1][..0], key);
        assert SetAt(tc, key) == {};
      }
      assert tokens == tokens[..n] + [t];
    }
  }
}
