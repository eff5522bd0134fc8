# inverton, modelled in Dafny

inverton is a full-text indexing and search engine over Redis. Its indexing side turns each file into an inverted index:
- a tokenizer stream cuts lines into word tokens numbered by line and word position;
- a normalizer stream replaces each token by its lemma and drops stop words;
- an index writer sends batches of `SADD idx:<lang>:<lemma> <docId>` and `RPUSH idx:<lang>:<lemma>:<docId> "line:pos:len"` commands.

An indexing queue runs files through that pipeline with bounded concurrency and keeps counters.

Dictionary loaders fill Redis with lemma pairs (`term;lemma` lines) and stop words.

Its search side tokenizes and normalizes a query, then scores documents with one of three strategies:
- keyword search, which sums tf·idf;
- phrase search, which needs consecutive word positions;
- boolean search, which parses AND / OR / NOT with parentheses into an n-ary tree and evaluates it with set algebra.

The engine then ranks the scores and applies the result limit.

The model has one Dafny module per source unit:

| file | module | source |
|---|---|---|
| wrappers.dfy | Wrappers | `Option` and `Result` |
| text.dfy, decimal.dfy | Text, Decimal | `trim`, `split`, `indexOf`, decimal rendering and `parseInt` digits |
| doc_info.dfy | DocInfo | the `DocumentInfoService` collaborator over an immutable snapshot `Store`, logging every request |
| tokenizer.dfy | Tokenizer | `tokenize` |
| tokenizer_streams.dfy | WordOrdinalTokenizer, OffsetTokenizer | the two `TokenizerStream` classes |
| normalizer.dfy, normalizer_stream.dfy, legacy_normalizer.dfy | Normalizer, NormalizerStream, LegacyNormalizer | the two normalizers and the normalizer stream |
| indexer.dfy | Indexer | `InvertedIndexWriter` |
| redis_loader.dfy | Loaders | `RedisLoader` with the lemma and stop-word entry rules |
| async_queue.dfy, indexing_queue.dfy | AsyncQueues, IndexingQueues | `AsyncQueue` and `IndexingQueue` |
| query_resolver.dfy | BooleanQuery | the boolean query resolver: folds and the stack methods proved equal to them |
| query_resolver_proofs.dfy, query_resolver_examples.dfy | QueryResolverProofs, QueryResolverExamples | what the resolver guarantees, and the resolver's test cases |
| boolean_search.dfy, boolean_laws.dfy | BooleanSearch, BooleanLaws, BooleanQueryLaws | the boolean strategy and the laws of its set semantics |
| phrase_search.dfy, keyword_search.dfy | PhraseSearch, KeywordSearch | the phrase and keyword strategies |
| search_engine.dfy | SearchEngines | `SearchEngine` |

Each core unit keeps its source's form:
- Classes whose fields the source updates are Dafny classes. Their methods carry `modifies` clauses and are proved against specification functions: the stream classes, the index writer, the loader, the queues, the term cache and the engine.
- Loops are methods with invariants: the shunting yard, the tree builder, the stack evaluators, the phrase and keyword loops, the ranking loop.
- Pure helpers are functions.

The collaborators' requests are kept in ghost logs. That lets contracts state how many requests an operation makes and which ones.

A Dafny string counts characters, while JavaScript's `length` and `match.index` count UTF-16 code units. Token lengths and offsets are therefore computed with `Text.Utf16Length` and `Text.Utf16Offset`, where a character outside the Basic Multilingual Plane counts twice.

Where the source's parts disagree, the model follows the code:
- **Sticky NOT.** `collectTerms` marks every leaf below any NOT as non-positive, whatever the parity (src/search/strategies/boolean.ts:42). So `b OR NOT NOT a` is evaluated over b's documents only (`BooleanQueryLaws.StickyNegationInContext`), while `NOT NOT a` alone still equals `a`.
- **Juxtaposed terms.** `toPostfix` lets juxtaposed terms through (`a b`, `a (b)`). The tree builder rejects them as not reducing to one root, so a successful `toPostfix` does not by itself rule out the builder's root error. The model states exactly when resolution succeeds (`QueryResolverProofs.ResolveSucceedsIffWellPlaced`).
- **Index key namespaces.** The index writer keys postings with a language (`idx:<lang>:<lemma>`, src/index/indexer.ts:37-42), but src/index/pipeline.ts:31 constructs it without one. The Redis reader asks for `idx:<term>` and `sw:<lemma>` and looks lemmas up by the lowercased term (src/search/document-info/document-info-service.ts:8-58). The loaders, however, write `term:<langCode>` and `sw:<langCode>:<word>` (src/redis/client/lemma-loader.ts:21, src/redis/client/stopwords-loader.ts:10). The model takes the writer's language as a parameter and has search read a `Store` snapshot, so the two namespaces are not connected.
- **Loader tests.** test/redis/client/lemma-loader.test.ts expects lowercasing and a `(client, batchSize)` constructor. src/redis/client/lemma-loader.ts has neither; the model follows the loader.
- **Engine imports.** src/search/search-engine.ts imports `tokenize` from `../index/tokenizer` and the older `Normalizer`. It calls `tokenize(query, isBoolean)`. The model's engine uses `tokenize` from src/index/tokenizer/tokenizer.ts and the newer normalizer over the document-information service. The older normalizer is modelled on its own.
- **Stream wiring.** src/index/normalizer/normalizer-stream.ts builds the newer normalizer but hands it a Redis client. The stream is modelled over the service's lemma and stop-word lookups.

## Model

| member | source | states |
|---|---|---|
| Tokenizer.RunLength | src/index/tokenizer/tokenizer.ts:1 | the word-class run at the head of a string is all word characters and is not followed by one |
| Tokenizer.ScanMatch | src/index/tokenizer/tokenizer.ts:1-5 | each match of the global word regex is a non-empty run of word characters at its index that cannot be extended on either side |
| Tokenizer.ScanFound | src/index/tokenizer/tokenizer.ts:1-5 | every match of a scan is found at its index and maximal |
| Tokenizer.ScanOrdered | src/index/tokenizer/tokenizer.ts:4-5 | matches come left to right, each at or after the scan's start |
| Tokenizer.ScanGaps | src/index/tokenizer/tokenizer.ts:4-5 | consecutive matches are separated by at least one non-word character |
| Tokenizer.FirstMatchAfterRun | src/index/tokenizer/tokenizer.ts:4-5 | after a run the regex resumes past the character that ended it |
| Tokenizer.TokensAreMaximalRuns | src/index/tokenizer/tokenizer.ts:3-6 | `tokenize` returns the maximal word runs of the query, in order and without overlap |
| Tokenizer.TokensAreTheWordCharacters | src/index/tokenizer/tokenizer.ts:3-6 | concatenating the tokens gives the query with every non-word character deleted |
| Tokenizer.ScanCovers | src/index/tokenizer/tokenizer.ts:3-6 | the concatenated matches of a scan are exactly its word characters |
| Tokenizer.WordCharsAppend | src/index/tokenizer/tokenizer.ts:1 | deleting non-word characters distributes over concatenation |
| Tokenizer.NoWordsNoTokens | src/index/tokenizer/tokenizer.ts:5 | a query without word characters gives `[]` (the `\|\| []` branch) |
| Tokenizer.ScanBaseFree | src/index/tokenizer/tokenizer.ts:4-5 | the matched texts do not depend on where the scan starts |
| Tokenizer.RunOfWord | src/index/tokenizer/tokenizer.ts:1 | a word followed by a separator is one run |
| Tokenizer.TokenizeJoined | src/index/tokenizer/tokenizer.ts:3-6 | space-joined word runs tokenize back to the same runs |
| Tokenizer.TokenizeIdempotent | src/index/tokenizer/tokenizer.ts:3-6 | tokenizing the space-joined tokens of a query gives the same tokens |
| WordOrdinalTokenizer.LineTokens | src/index/tokenizer.ts:15-30 | one token per match of the line, its `len` the term's length in UTF-16 code units |
| WordOrdinalTokenizer.TokenizerStream.constructor | src/index/tokenizer.ts:5-10 | both counters start at 0, nothing seen or pushed |
| WordOrdinalTokenizer.TokenizerStream.Transform | src/index/tokenizer.ts:12-33 | the line counter advances, each match is pushed with the line number, the running word ordinal and its UTF-16 length, and the stream's pushes are the fold over all lines |
| WordOrdinalTokenizer.StreamNumbering | src/index/tokenizer.ts:13-26 | over a whole document the k-th pushed token has `pos` k+1, its `len` is the UTF-16 length of its term, and line numbers never decrease |
| OffsetTokenizer.LineTokens | src/index/tokenizer/tokenizer.stream.ts:16-29 | one token per match, carrying the match's offset and length in UTF-16 code units |
| OffsetTokenizer.TokenizerStream.constructor | src/index/tokenizer/tokenizer.stream.ts:7-11 | the line counter starts at 0 |
| OffsetTokenizer.TokenizerStream.Transform | src/index/tokenizer/tokenizer.stream.ts:13-33 | each match is pushed with the line number, its UTF-16 offset in the line and its UTF-16 length |
| OffsetTokenizer.LineTokensInLine | src/index/tokenizer/tokenizer.stream.ts:16-29 | every token is the maximal word run of the line at its match, its `position` is the UTF-16 length of the text before it and its `length` that of its term, it ends inside the line, and tokens are in increasing, non-overlapping offset order |
| Text.Utf16Length | src/index/tokenizer.ts:26 | a string's JavaScript `length`: between its character count and twice it |
| Text.Utf16LengthAppend | src/index/tokenizer.ts:26 | UTF-16 length adds up over concatenation |
| Text.Utf16OffsetPrefix | src/index/tokenizer/tokenizer.stream.ts:20-25 | the UTF-16 offset of a character index is the UTF-16 length of the text before it |
| Text.Utf16PrefixGrows | src/index/tokenizer/tokenizer.stream.ts:18-25 | a longer prefix of a line has a strictly larger UTF-16 length, so tokens separated by a character have separated offsets |
| Text.AstralCharCountsTwice | src/index/tokenizer/tokenizer.stream.ts:20-25 | a character outside the Basic Multilingual Plane counts as two code units in lengths and offsets |
| Text.TrimStart | src/redis/client/stopwords-loader.ts:6 | the result is a suffix of the input, the removed prefix is white space and the result does not start with white space |
| Text.TrimEnd | src/redis/client/stopwords-loader.ts:6 | the result is a prefix, the removed suffix is white space and the result does not end with white space |
| Text.TrimMeaning | src/redis/client/stopwords-loader.ts:6 | `trim` removes only surrounding white space |
| Text.TrimEdges | src/redis/client/stopwords-loader.ts:6 | a trimmed word neither starts nor ends with white space |
| Text.TrimPadded | src/redis/client/stopwords-loader.ts:6 | a word padded with white space trims to the word |
| Text.AllSpaceTrimsAway | src/redis/client/stopwords-loader.ts:6-8 | a blank line trims to the empty string |
| Text.IndexOf | src/search/strategies/phrase.ts:30 | the first occurrence of a character, or its absence |
| Text.Split | src/redis/client/lemma-loader.ts:10 | `split` gives at least one piece and no piece contains the separator |
| Text.SplitJoin | src/redis/client/lemma-loader.ts:10 | joining the pieces with the separator gives back the line |
| Text.JoinSplit | src/redis/client/lemma-loader.ts:10-11 | splitting a join of separator-free fields gives back the fields |
| Text.SplitAt | src/redis/client/lemma-loader.ts:10-11 | a separator-free prefix ending at a separator is the first field |
| Decimal.DigitChar | src/index/indexer.ts:41 | a digit value renders to a digit character |
| Decimal.DigitValue | src/search/strategies/phrase.ts:30 | a digit character reads as a value below 10 |
| Decimal.NatToString | src/index/indexer.ts:41 | a counter renders to a non-empty digit string without a leading zero |
| Decimal.DigitsRoundTrip | src/index/indexer.ts:41 | reading a rendered counter back gives the counter |
| Decimal.DigitPrefix | src/search/strategies/phrase.ts:30 | the longest prefix of digits, which `parseInt` reads |
| Loaders.LemmaEntry | src/redis/client/lemma-loader.ts:7-22 | a valid entry always has a value (the second field) |
| Loaders.StopWordEntry | src/redis/client/stopwords-loader.ts:5-11 | the value of a stop-word entry is always "1" |
| Loaders.ProcessEntry | src/redis/client/redis-loader.ts:17-20 | the entry of either loader has a value whenever it is valid |
| Loaders.LemmaLineEntry | src/redis/client/lemma-loader.ts:10-21 | a line `term;lemma[;…]` is keyed `term:langCode` with value `lemma`, and is valid iff both fields are non-empty, neither is "_" and they differ |
| Loaders.EntryOfFields | src/redis/client/lemma-loader.ts:11-21 | the entry depends only on the first two fields |
| Loaders.TwoFieldLine | src/redis/client/lemma-loader.ts:10-21 | the same for a line of exactly two fields |
| Loaders.LineWithoutSeparatorRejected | src/redis/client/lemma-loader.ts:13-14 | a line with no separator is never valid |
| Loaders.RejectedDictionaryLines | src/redis/client/lemma-loader.ts:13-19 | lines without a separator, empty lines, ";", "term;_", "_;lemma" and "same;same" are rejected |
| Loaders.EmptyOrPlaceholderRejected | src/redis/client/lemma-loader.ts:15-18 | an empty field or a "_" lemma is rejected |
| Loaders.RepeatedFieldRejected | src/redis/client/lemma-loader.ts:17-19 | a "_" term or a lemma equal to its term is rejected |
| Loaders.AcceptedDictionaryLine | src/redis/client/lemma-loader.ts:21 | "valid;data" is stored as `valid:langCode` → "data" |
| Loaders.StopWordLineEntry | src/redis/client/stopwords-loader.ts:6-10 | a padded stop word is stored trimmed under `sw:langCode:word` with value "1" |
| Loaders.BlankLineRejected | src/redis/client/stopwords-loader.ts:6-8 | a blank line is never a stop word |
| Loaders.RedisLoader.constructor | src/redis/client/redis-loader.ts:8-15 | empty batch, nothing written |
| Loaders.RedisLoader.Write | src/redis/client/redis-loader.ts:22-40 | an invalid entry changes nothing; a valid pair is appended to the batch, and when the batch reaches `batchSize` one pipeline SETs it and the batch empties |
| Loaders.RedisLoader.Final | src/redis/client/redis-loader.ts:42-49 | the pipelines already sent stay, the leftover batch is sent as one more pipeline when non-empty, and afterwards every valid pair has been SET exactly once, in input order, in ⌈n / batchSize⌉ non-empty pipelines of at most `batchSize` pairs; no valid pair means no pipeline |
| Loaders.RedisLoader.FlushBatch | src/redis/client/redis-loader.ts:51-63 | an empty batch opens no pipeline; otherwise one pipeline carries the batch in order and the batch empties |
| Loaders.AcceptedMeaning | src/redis/client/redis-loader.ts:27-33 | a pair is written iff some input line yields it as a valid entry |
| Loaders.FullPipelinesLength | src/redis/client/redis-loader.ts:35 | full pipelines together carry their count times `batchSize` pairs |
| Indexer.InvertedIndexWriter.constructor | src/index/indexer.ts:5-15 | empty batch, nothing sent |
| Indexer.InvertedIndexWriter.Write | src/index/indexer.ts:17-25 | the token joins the batch; at 200 tokens one pipeline carries the batch's commands and the batch empties |
| Indexer.InvertedIndexWriter.Final | src/index/indexer.ts:27-29 | the rest of the batch is sent, and the pipelines together carry the commands of every written token in order |
| Indexer.InvertedIndexWriter.FlushBatch | src/index/indexer.ts:31-47 | an empty batch opens no pipeline; otherwise one pipeline carries the batch's commands |
| Indexer.BuildPipeline | src/index/indexer.ts:36-43 | per token, in order: SADD of the document to `idx:lang:lemma`, then RPUSH of `line:pos:len` to `idx:lang:lemma:docId` |
| Indexer.CommandsAppend | src/index/indexer.ts:36-43 | the commands of two token runs are the concatenation of their commands |
| Indexer.PositionsKeyInjective | src/index/indexer.ts:37-42 | within one document, a position-list key names one lemma |
| Indexer.PositionListContents | src/index/indexer.ts:37-42 | a lemma's position list for the document holds the records of exactly the tokens carrying that lemma, once each, in input order |
| Indexer.PostingSetContents | src/index/indexer.ts:37-39 | the document is in a lemma's posting set iff some token carried the lemma, and nothing else is added |
| Indexer.ListAtAppend | src/index/indexer.ts:42 | RPUSH lists grow by concatenation across command runs |
| Indexer.SetAtAppend | src/index/indexer.ts:39 | SADD sets grow by union across command runs |
| DocInfo.DocumentInfoService.constructor | src/search/document-info/document-info.interface.ts:1-10 | the service answers from the given snapshot and has answered nothing yet |
| DocInfo.DocumentInfoService.GetTotalDocuments | src/search/document-info/document-info.interface.ts:2 | the document count, logging one request |
| DocInfo.DocumentInfoService.GetDocIdsForTerm | src/search/document-info/document-info.interface.ts:3 | the term's posting list, logging one request |
| DocInfo.DocumentInfoService.GetTermPositions | src/search/document-info/document-info.interface.ts:4 | the term's position records in the document, logging one request |
| DocInfo.DocumentInfoService.GetTermFrequency | src/search/document-info/document-info.interface.ts:5 | the term's frequency in the document, logging one request |
| DocInfo.DocumentInfoService.GetLemmas | src/search/document-info/document-info.interface.ts:7 | one lemma answer per term in a single request |
| DocInfo.DocumentInfoService.AreStopWords | src/search/document-info/document-info.interface.ts:9 | one stop-word flag per lemma in a single request |
| Normalizer.LemmasFor | src/index/normalizer/normalizer.ts:60-65 | one lemma per term |
| Normalizer.Normalizer.constructor | src/index/normalizer/normalizer.ts:6 | the normalizer reads the given service |
| Normalizer.Normalizer.NormalizeTerms | src/index/normalizer/normalizer.ts:8-51 | outside boolean mode: the non-stop-word lemmas in order, with one lemma request and one stop-word request (none for no terms); in boolean mode: the rebuilt query, with one lemma request for the lexemes only and no stop-word request |
| Normalizer.Normalizer.Substitute | src/index/normalizer/normalizer.ts:30-50 | the second loop with its `termPtr` cursor computes the rebuilt query |
| Normalizer.Normalizer.NormalizeForIndexing | src/index/normalizer/normalizer.ts:53-58 | one entry per term, null exactly where the lemma is a stop word |
| Normalizer.Normalizer.FetchLemmas | src/index/normalizer/normalizer.ts:60-65 | each term's stored lemma, or the lowercased term when it is missing or empty; no request for no terms |
| Normalizer.Normalizer.CheckStopWords | src/index/normalizer/normalizer.ts:67-70 | each lemma's stop-word flag; no request for no lemmas |
| Normalizer.IndexingForms | src/index/normalizer/normalizer.ts:53-58 | one entry per term |
| Normalizer.KeepNonStopMeaning | src/index/normalizer/normalizer.ts:13-16 | a lemma survives iff it is not a stop word, and the output never grows |
| Normalizer.PlainTermsMeaning | src/index/normalizer/normalizer.ts:9-18 | a normalized query term is the lemma of some query term and not a stop word, and every such lemma is kept |
| Normalizer.LexemesMeaning | src/index/normalizer/normalizer.ts:20-26 | the words sent for lemmas are exactly the inputs that are neither parentheses nor operator words |
| Normalizer.LexemesBound | src/index/normalizer/normalizer.ts:20-26 | there are no more lexemes than inputs |
| Normalizer.LexemesPrefix | src/index/normalizer/normalizer.ts:21-25 | the lexemes of a prefix grow by at most the last input |
| Normalizer.LexemesPrefixBound | src/index/normalizer/normalizer.ts:46-47 | `termPtr` never runs past the lemmas |
| Normalizer.RebuildShape | src/index/normalizer/normalizer.ts:33-48 | boolean mode keeps one output per input: a parenthesis stays, an operator word is uppercased, and the i-th other word becomes the i-th lemma |
| Normalizer.RebuildLength | src/index/normalizer/normalizer.ts:33-48 | the boolean-mode output has the input's length |
| Normalizer.RebuildAt | src/index/normalizer/normalizer.ts:36-47 | the same at one position, with the lemma index equal to the number of lexemes before it |
| Normalizer.IndexingMatchesSearch | src/index/normalizer/normalizer.ts:9-18 | the non-null indexing forms, in order, are exactly the normalized query terms, so indexing and search agree |
| NormalizerStream.TermsOf | src/index/normalizer/normalizer-stream.ts:37 | one term per token |
| NormalizerStream.TermNormalizerStream.constructor | src/index/normalizer/normalizer-stream.ts:8-15 | empty batch, nothing pushed |
| NormalizerStream.TermNormalizerStream.Write | src/index/normalizer/normalizer-stream.ts:17-24 | the token joins the batch; at 200 tokens the batch is processed, pushing its non-stop-word tokens with their lemmas |
| NormalizerStream.TermNormalizerStream.Flush | src/index/normalizer/normalizer-stream.ts:26-32 | the remaining batch is processed, after which the pushes are exactly what the whole input normalizes to, one token at a time |
| NormalizerStream.TermNormalizerStream.ProcessBatch | src/index/normalizer/normalizer-stream.ts:34-53 | one lemma request and one stop-word request for the batch, then every token whose lemma is not a stop word is pushed with that lemma, in order |
| NormalizerStream.NormalizedAppend | src/index/normalizer/normalizer-stream.ts:19-28 | where the batch boundaries fall does not change what is pushed |
| NormalizerStream.NormalizedMeaning | src/index/normalizer/normalizer-stream.ts:42-50 | a token is pushed iff its lemma is not a stop word, and then with that lemma |
| NormalizerStream.IndexedLemmasMatchQueryTerms | src/index/normalizer/normalizer-stream.ts:37-50 | the lemmas the stage indexes are exactly what query normalization makes of the same terms |
| LegacyNormalizer.Redis.Exec | src/index/normalizer.ts:26 | a reachable Redis answers one reply per key |
| LegacyNormalizer.LemmasFrom | src/index/normalizer.ts:28-39 | one lemma per term, whatever `exec` answered |
| LegacyNormalizer.FlagsFrom | src/index/normalizer.ts:51-62 | one flag per lemma, whatever `exec` answered |
| LegacyNormalizer.LegacyNormalizer.constructor | src/index/normalizer.ts:4 | no pipeline executed yet |
| LegacyNormalizer.LegacyNormalizer.NormalizeTerms | src/index/normalizer.ts:6-17 | the lemmas whose stop-word lookup is false, in order, after exactly two pipelines |
| LegacyNormalizer.LegacyNormalizer.FetchLemmas | src/index/normalizer.ts:19-40 | one GET per lowercased term in one pipeline; nil from `exec` lowercases every term, an erroring command or a missing or empty value lowercases that term |
| LegacyNormalizer.LegacyNormalizer.CheckStopWords | src/index/normalizer.ts:42-63 | one GET of `sw:lemma` per lemma in one pipeline; nil from `exec` or an erroring command gives false, otherwise a value present gives true |
| LegacyNormalizer.UnreachableRedisLowercases | src/index/normalizer.ts:28-29 | with Redis unreachable every term is lowercased and none is dropped |
| LegacyNormalizer.KeepAllWhenNoStops | src/index/normalizer.ts:51-53 | all-false stop flags keep every lemma |
| LegacyNormalizer.ReachableRedisLookups | src/index/normalizer.ts:32-39 | with Redis reachable, each lemma and each stop flag is read from its own key, falling back as the code does |
| AsyncQueues.Dispatched | src/async/async-queue.ts:30 | the number of tasks one `processNext` starts: never more than are waiting, never past `maxConcurrency`, and it stops only when the queue is empty or the slots are full |
| AsyncQueues.AsyncQueue.constructor | src/async/async-queue.ts:4-9 | an empty queue, no worker, no drain promise |
| AsyncQueues.AsyncQueue.AddTasks | src/async/async-queue.ts:11-14 | the tasks join the end of the queue and the oldest waiting tasks start, as many as free slots allow; every task is waiting or started, in FIFO order (`added == started + queue`), and at most `maxConcurrency` run |
| AsyncQueues.AsyncQueue.OnDone | src/async/async-queue.ts:16-27 | an idle queue answers an already resolved promise; otherwise every caller gets the one shared drain promise until it is resolved, and a new one is never a promise already resolved |
| AsyncQueues.AsyncQueue.ProcessNext | src/async/async-queue.ts:29-35 | starts exactly the first `Dispatched` waiting tasks, oldest first, and leaves the rest queued |
| AsyncQueues.AsyncQueue.WorkerDone | src/async/async-queue.ts:37-51 | a finished worker frees its slot; waiting tasks then start in its place, or, when nothing is queued or running, the drain promise is resolved once and forgotten |
| IndexingQueues.IndexingQueue.constructor | src/index/indexing-queue.ts:15-28 | all counters 0, and a queue with the given concurrency |
| IndexingQueues.IndexingQueue.Enqueue | src/index/indexing-queue.ts:30-54 | `total` grows by one, the path joins the queue, and every task the queue starts now counts as active and is indexed under the md5 of its path |
| IndexingQueues.IndexingQueue.StartTasks | src/index/indexing-queue.ts:34-38 | each started task adds one to `active` and asks the indexing service for its path with its digest as document id |
| IndexingQueues.IndexingQueue.TaskFinished | src/index/indexing-queue.ts:41-50 | success adds one to `processed`, failure to `failed`, the task leaves `active`, the freed slot starts the next waiting tasks (their number is `Dispatched`, `active` grows by it and each is sent for indexing with its md5 id), nothing is added, and the drain promise settles exactly when the queue has emptied |
| IndexingQueues.IndexingQueue.WaitForCompletion | src/index/indexing-queue.ts:56-58 | resolved when nothing is queued or active, otherwise the queue's shared drain promise; waiting and added tasks are untouched |
| IndexingQueues.IndexingQueue.GetStats | src/index/indexing-queue.ts:60-62 | a copy of the counters, with `processed + failed + active <= total` |
| IndexingQueues.IndexingQueue.CountersBounded | src/index/indexing-queue.ts:6-11 | every finished or running task was enqueued: `processed + failed + active <= total` |
| SearchEngines.Insert | src/search/search-engine.ts:42 | inserting into a descending list keeps it descending and adds exactly the entry |
| SearchEngines.SortDesc | src/search/search-engine.ts:42 | the entries by non-increasing score, a permutation of the input |
| SearchEngines.Taken | src/search/search-engine.ts:44-46 | `Math.min(length, limit \|\| length)`: all entries for a null or 0 limit, at most `limit` for a positive one, none for a negative one |
| SearchEngines.Formatted | src/search/search-engine.ts:46-50 | one result per kept entry |
| SearchEngines.Ranked | src/search/search-engine.ts:41-52 | as many results as `Taken` allows |
| SearchEngines.SearchEngine.constructor | src/search/search-engine.ts:12-15 | the engine's normalizer and strategies read the same document-information service |
| SearchEngines.SearchEngine.Search | src/search/search-engine.ts:26-39 | no terms after normalization gives `[]` with only normalization's requests; otherwise the chosen strategy's scores are ranked, or its query error is passed on |
| SearchEngines.SearchEngine.FormatResults | src/search/search-engine.ts:41-52 | the results are the ranking of some listing of the strategy's map |
| SearchEngines.SearchEngine.TakeResults | src/search/search-engine.ts:44-50 | the loop returns the first `Taken` sorted entries, each with its path |
| SearchEngines.EntriesOf | src/search/search-engine.ts:42 | `Array.from(docScores.entries())` lists every entry of the map exactly once |
| SearchEngines.RankedOrdered | src/search/search-engine.ts:42-50 | results come by non-increasing score |
| SearchEngines.RankedFromMap | src/search/search-engine.ts:42-50 | each result is an entry of the strategy's map with its own score and path, and no document appears twice |
| SearchEngines.RankedTop | src/search/search-engine.ts:42-46 | a document left out by the limit scores no more than any returned one |
| SearchEngines.AllWithoutLimit | src/search/search-engine.ts:44 | with a null or 0 limit every scored document is returned |
| SearchEngines.SortedListsEntries | src/search/search-engine.ts:42 | sorting a listing of the map gives a listing of the map |
| SearchEngines.PositionOf | src/search/search-engine.ts:42 | every entry of the map occurs in the sorted list |
| SearchEngines.IdSetSize | src/search/search-engine.ts:42 | a listing of distinct documents has as many ids as entries |
| SearchEngines.EnginePhraseUnguarded | src/search/search-engine.ts:33-37 | the engine never passes an empty phrase to the phrase strategy, so there the unguarded strategy and the guarded one agree |
| BooleanSearch.CollectTerms | src/search/strategies/boolean.ts:25-50 | the stack walk returns exactly the tree's leaf terms, and exactly those with no NOT ancestor |
| BooleanSearch.PushChildren | src/search/strategies/boolean.ts:42-46 | pushing the operands in reverse adds exactly their leaves, with the inherited NOT flag, to what the stack still holds |
| BooleanSearch.PositiveWithinAll | src/search/strategies/boolean.ts:35-38 | the positive terms are among all terms |
| BooleanSearch.Fetches | src/search/strategies/boolean.ts:19 | one posting-list request per cache miss, in order |
| BooleanSearch.TermCache.constructor | src/search/strategies/boolean.ts:172 | an empty cache over the service |
| BooleanSearch.TermCache.Get | src/search/strategies/boolean.ts:11-23 | `getTermDocs`: the term's documents as a set; a hit asks nothing, a miss asks the service once and caches the answer, so each term is fetched at most once |
| BooleanSearch.DocsOfAdd | src/search/strategies/boolean.ts:61-64 | the universe grows by each seed term's documents |
| BooleanSearch.ComputeUniverse | src/search/strategies/boolean.ts:52-67 | the universe is the union of the documents of the positive terms, or of all terms when none is positive, and exactly those terms enter the cache |
| BooleanSearch.OperandDocs | src/search/strategies/boolean.ts:102-105 | an operand's set: a leaf through the cache, an expression from the results so far; both are its denotation |
| BooleanSearch.OperandAt | src/search/strategies/boolean.ts:129-133 | the same for operand i, caching only the operands' leaves |
| BooleanSearch.MeetPrefix | src/search/strategies/boolean.ts:128-142 | the intersection of all operands lies within that of any prefix |
| BooleanSearch.MeetVanishes | src/search/strategies/boolean.ts:141 | once the running intersection is empty the whole intersection is, so the early `break` is sound |
| BooleanSearch.MeetStep | src/search/strategies/boolean.ts:140 | one more operand intersects the running set with its set |
| BooleanSearch.JoinStep | src/search/strategies/boolean.ts:155 | one more operand adds its set to the running union |
| BooleanSearch.EvalAnd | src/search/strategies/boolean.ts:111-146 | the AND loop with its early exit computes the intersection of all operands |
| BooleanSearch.MeetDone | src/search/strategies/boolean.ts:137-142 | the AND loop's exit, at the end or on an empty set, holds the whole intersection |
| BooleanSearch.EvalOr | src/search/strategies/boolean.ts:148-157 | the OR loop computes the union of all operands |
| BooleanSearch.EvalNode | src/search/strategies/boolean.ts:97-157 | one expression node with its operands evaluated gets its denotation: universe minus the operand for NOT, intersection for AND (empty with no operands), union for OR |
| BooleanSearch.EvalExpression | src/search/strategies/boolean.ts:69-161 | the post-order stack evaluation returns the root's denotation over the universe, and caches only the tree's leaves |
| BooleanSearch.Expand | src/search/strategies/boolean.ts:81-90 | an unvisited frame is replaced by its visited copy with its operands above it, keeping the post-order shape and reducing the work left |
| BooleanSearch.ExpandOrdered | src/search/strategies/boolean.ts:82-88 | the pushed operands are above their parent, so the stack stays in post order |
| BooleanSearch.ExpandKeeps | src/search/strategies/boolean.ts:81-90 | after an expansion the root is still pending and every frame's leaves are the root's |
| BooleanSearch.OperandsReady | src/search/strategies/boolean.ts:92-157 | when a visited expression is popped, all its expression operands already have results |
| BooleanSearch.Retire | src/search/strategies/boolean.ts:107-157 | recording a node's result and popping it keeps the stack in post order |
| BooleanSearch.ChildTermsWithin | src/search/strategies/boolean.ts:85-87 | an operand's leaves are its parent's |
| BooleanSearch.LeafWithin | src/search/strategies/boolean.ts:93 | a leaf operand is a leaf of its parent |
| BooleanSearch.SearchBoolean | src/search/strategies/boolean.ts:163-179 | the scores are 1.0 for exactly the matching documents; no terms asks nothing; each distinct term is fetched at most once and only leaf terms are fetched; a query that does not parse fails |
| BooleanLaws.MeetMembers | src/search/strategies/boolean.ts:128-142 | a document is in the intersection iff every operand holds it |
| BooleanLaws.JoinMembers | src/search/strategies/boolean.ts:148-157 | a document is in the union iff some operand holds it |
| BooleanLaws.AndMembers | src/search/strategies/boolean.ts:111-146 | membership in an AND node, empty with no operands |
| BooleanLaws.OrMembers | src/search/strategies/boolean.ts:148-157 | membership in an OR node |
| BooleanLaws.AndOperandSet | src/search/strategies/boolean.ts:111-146 | AND depends only on which operands occur, not their order or repeats |
| BooleanLaws.OrOperandSet | src/search/strategies/boolean.ts:148-157 | OR depends only on which operands occur |
| BooleanLaws.AndCommutes | test/search/strategies/boolean-laws.test.ts:35 | `a AND b` equals `b AND a` |
| BooleanLaws.OrCommutes | test/search/strategies/boolean-laws.test.ts:36 | `a OR b` equals `b OR a` |
| BooleanLaws.AndIdempotent | test/search/strategies/boolean-laws.test.ts:48 | `a AND a` equals `a` |
| BooleanLaws.OrIdempotent | test/search/strategies/boolean-laws.test.ts:49 | `a OR a` equals `a` |
| BooleanLaws.FlattenMembers | src/search/boolean-query-resolver.ts:115-125 | a spliced operand list has the members of the node it came from |
| BooleanLaws.FlattenPreservesMeaning | test/search/strategies/boolean-laws.test.ts:38-39 | splicing same-operator operands, as the resolver does, leaves the denotation unchanged (associativity) |
| BooleanLaws.AndPair | src/search/strategies/boolean.ts:140 | a two-operand AND is the intersection |
| BooleanLaws.OrPair | src/search/strategies/boolean.ts:155 | a two-operand OR is the union |
| BooleanLaws.AndDistributesOverOr | test/search/strategies/boolean-laws.test.ts:41 | `a AND (x1 OR … OR xn)` equals `(a AND x1) OR … OR (a AND xn)` |
| BooleanLaws.OrDistributesOverAnd | test/search/strategies/boolean-laws.test.ts:42 | `a OR (x1 AND … AND xn)` equals `(a OR x1) AND … AND (a OR xn)` |
| BooleanLaws.DeMorganOr | test/search/strategies/boolean-laws.test.ts:44-46 | `NOT (x1 OR … OR xn)` equals `NOT x1 AND … AND NOT xn` |
| BooleanLaws.DeMorganAnd | test/search/strategies/boolean-laws.test.ts:45 | `NOT (x1 AND … AND xn)` equals `NOT x1 OR … OR NOT xn` |
| BooleanLaws.OrAbsorbsAnd | test/search/strategies/boolean-laws.test.ts:51 | `a OR (a AND b)` equals `a` |
| BooleanLaws.AndAbsorbsOr | test/search/strategies/boolean-laws.test.ts:52 | `a AND (a OR b)` equals `a` |
| BooleanLaws.DoubleNegation | test/search/strategies/boolean-laws.test.ts:54 | `NOT NOT x` is x cut down to the universe |
| BooleanLaws.TripleNegation | test/search/strategies/boolean-laws.test.ts:55 | `NOT NOT NOT x` equals `NOT x` |
| BooleanLaws.NothingPositiveUnderNot | src/search/strategies/boolean.ts:42 | below a NOT nothing is positive, however many NOTs follow |
| BooleanLaws.NotFreeFacts | src/search/strategies/boolean.ts:52-67 | without NOT the universe plays no part and every match comes from a leaf |
| BooleanLaws.DocsOfMono | src/search/strategies/boolean.ts:61-64 | more seed terms give a larger universe |
| BooleanLaws.DoubleNegationQuery | test/search/strategies/boolean-laws.test.ts:56 | for a NOT-free x, the query `NOT NOT x` matches exactly what x matches |
| BooleanQueryLaws.DoubleNegationScores | test/search/strategies/boolean-laws.test.ts:54 | `NOT NOT a` and `a` score the same documents |
| BooleanQueryLaws.StickyNegationInContext | src/search/strategies/boolean.ts:42 | because the NOT flag is sticky, `b OR NOT NOT a` matches only b's documents while `b OR a` matches both terms' documents |
| BooleanQuery.AsOperator | src/search/boolean-query-resolver.ts:11-13 | a lexeme is an operator exactly when it is one of the upper-case words AND, OR, NOT |
| BooleanQuery.PrecedenceOrder | src/search/boolean-query-resolver.ts:15-27 | the pop rule of the shunting yard: the stack top is popped unless the incoming operator is NOT (right-associative, highest) or it is AND over an OR on the stack |
| BooleanQuery.ShuntErrPersists | src/search/boolean-query-resolver.ts:35-98 | an error thrown while scanning a prefix is the error of the whole query |
| BooleanQuery.BuildErrPersists | src/search/boolean-query-resolver.ts:130-157 | an error thrown while building from a prefix is the error of the whole postfix stream |
| BooleanQuery.ToPostfix | src/search/boolean-query-resolver.ts:29-113 | `toPostfix` with explicit output and operator stacks computes the fold `Postfix`, errors included |
| BooleanQuery.BuildExpressionFromPostfix | src/search/boolean-query-resolver.ts:127-170 | `buildExpressionFromPostfix` with an explicit stack computes the fold `BuildExpression`, errors and the lone-term wrapper included |
| BooleanQuery.ResolveBooleanQuery | src/search/boolean-query-resolver.ts:172-175 | `resolveBooleanQuery` is the postfix pass followed by the tree builder |
| QueryResolverProofs.CountOpenZero | src/search/boolean-query-resolver.ts:104-108 | no open parenthesis is left on the operator stack iff none of its entries is `(` |
| QueryResolverProofs.PopHigherShape | src/search/boolean-query-resolver.ts:79-90 | popping by precedence leaves a prefix of the operator stack and pops no parenthesis |
| QueryResolverProofs.PopHigherOutput | src/search/boolean-query-resolver.ts:79-90 | popped operators extend a valid postfix program, keeping its leaves and stack height accounting |
| QueryResolverProofs.PopToOpenShape | src/search/boolean-query-resolver.ts:51-53 | popping to `(` stops at an open parenthesis or empties the stack, and pops no parenthesis |
| QueryResolverProofs.PopToOpenOutput | src/search/boolean-query-resolver.ts:51-53 | the operators popped at `)` extend a valid postfix program |
| QueryResolverProofs.DrainFacts | src/search/boolean-query-resolver.ts:104-110 | the final drain fails with a missing `)` iff an open parenthesis is left; otherwise its output is valid postfix with 1 + (juxtapositions) values and the same leaves |
| QueryResolverProofs.ShuntClose | src/search/boolean-query-resolver.ts:42-61 | `)` on an empty stack is a missing `(`, after an operator it ends unexpectedly, otherwise it pops to the group's `(` |
| QueryResolverProofs.PlaceClose | src/search/boolean-query-resolver.ts:42-61 | the placement scan's verdict on `)` |
| QueryResolverProofs.StepClose | src/search/boolean-query-resolver.ts:42-61 | on `)` the scanner and the placement scan agree |
| QueryResolverProofs.StepOpen | src/search/boolean-query-resolver.ts:36-40 | on `(` the scanner and the placement scan agree |
| QueryResolverProofs.ShuntNot | src/search/boolean-query-resolver.ts:65-68 | NOT is pushed where an operand is expected and rejected elsewhere |
| QueryResolverProofs.StepNot | src/search/boolean-query-resolver.ts:65-68 | on NOT the scanner and the placement scan agree |
| QueryResolverProofs.ShuntBinary | src/search/boolean-query-resolver.ts:69-74 | AND/OR without a left operand is rejected; otherwise higher operators are popped and it is pushed |
| QueryResolverProofs.PlaceBinary | src/search/boolean-query-resolver.ts:69-74 | the placement scan's verdict on AND/OR |
| QueryResolverProofs.StepBinary | src/search/boolean-query-resolver.ts:69-92 | on AND/OR the scanner and the placement scan agree |
| QueryResolverProofs.StepTerm | src/search/boolean-query-resolver.ts:96-97 | on a term the scanner and the placement scan agree |
| QueryResolverProofs.StepAgrees | src/search/boolean-query-resolver.ts:35-98 | each lexeme keeps the scanner and the placement scan in step, and keeps the leaves in order |
| QueryResolverProofs.ShuntAgrees | src/search/boolean-query-resolver.ts:35-98 | the scan fails exactly where the placement scan fails, with the same error, and outputs the query's terms in order |
| QueryResolverProofs.PostfixMatchesPlacement | src/search/boolean-query-resolver.ts:29-113 | `toPostfix` fails iff the placement check fails, with the same error; on success its output is valid postfix holding 1 + (juxtapositions) values and exactly the query's terms in order |
| QueryResolverProofs.LeavesSeqAppend | src/search/boolean-query-resolver.ts:152-156 | the leaves of joined operand lists are joined |
| QueryResolverProofs.FlattenLeaves | src/search/boolean-query-resolver.ts:119-125 | `flattenInto` keeps the leaves of the child in order |
| QueryResolverProofs.FlattenFlat | src/search/boolean-query-resolver.ts:119-125 | flattening a flat child into AND/OR yields flat operands none of which has the same operator |
| QueryResolverProofs.BuildStepFacts | src/search/boolean-query-resolver.ts:130-157 | one build step keeps every stack entry flat and the leaves in postfix order |
| QueryResolverProofs.BuildShape | src/search/boolean-query-resolver.ts:130-157 | every tree the builder leaves is flat and their leaves are the postfix stream's terms in order |
| QueryResolverProofs.BuildFromValidPostfix | src/search/boolean-query-resolver.ts:136-150 | on valid postfix with non-empty terms the builder never throws its missing-operand errors and leaves as many trees as the postfix program's final height |
| QueryResolverProofs.ResolveShape | src/search/boolean-query-resolver.ts:159-169 | a resolved query is a flat tree or the AND wrapper of a lone term, with the query's terms as leaves in order |
| QueryResolverProofs.ResolveSucceedsIffWellPlaced | src/search/boolean-query-resolver.ts:172-175 | for non-empty terms a query resolves iff the placement check passes with no juxtaposition; a placement error is the resolver's error, and a juxtaposition is rejected as not reducing to one root |
| QueryResolverExamples.ShuntTrace | src/search/boolean-query-resolver.ts:35-98 | a chain of scanner steps is the scan of the whole input |
| QueryResolverExamples.BuildTrace | src/search/boolean-query-resolver.ts:130-157 | a chain of build steps is the build of the whole stream |
| QueryResolverExamples.DrainStep | src/search/boolean-query-resolver.ts:104-110 | draining pops the top operator to the output first |
| QueryResolverExamples.AndOverOrPostfix | test/search/boolean-query-resolver/general.test.ts:111 | `a OR b AND c` becomes `a b c AND OR` |
| QueryResolverExamples.AndOverOrTree | test/search/boolean-query-resolver/general.test.ts:111 | that postfix builds `a OR (b AND c)` |
| QueryResolverExamples.AndOverOr | test/search/boolean-query-resolver/general.test.ts:111 | `a OR b AND c` resolves to OR{a, AND{b, c}} |
| QueryResolverExamples.AndBeforeOrPostfix | test/search/boolean-query-resolver/general.test.ts:118 | `a AND b OR c` becomes `a b AND c OR` |
| QueryResolverExamples.AndBeforeOrTree | test/search/boolean-query-resolver/general.test.ts:118 | that postfix builds `(a AND b) OR c` |
| QueryResolverExamples.AndBeforeOr | test/search/boolean-query-resolver/general.test.ts:118 | `a AND b OR c` resolves to OR{AND{a, b}, c} |
| QueryResolverExamples.NotOverAndPostfix | test/search/boolean-query-resolver/general.test.ts:97 | `NOT a AND b` becomes `a NOT b AND` |
| QueryResolverExamples.NotOverAndTree | test/search/boolean-query-resolver/general.test.ts:97 | that postfix builds `(NOT a) AND b` |
| QueryResolverExamples.NotOverAnd | test/search/boolean-query-resolver/general.test.ts:97 | `NOT a AND b` resolves to AND{NOT{a}, b} |
| QueryResolverExamples.NotNestsPostfix | test/search/boolean-query-resolver/general.test.ts:125 | `NOT NOT a` becomes `a NOT NOT` |
| QueryResolverExamples.NotNestsTree | test/search/boolean-query-resolver/general.test.ts:125 | that postfix builds nested NOTs |
| QueryResolverExamples.NotNests | test/search/boolean-query-resolver/general.test.ts:125 | `NOT NOT a` resolves to NOT{NOT{a}}, not flattened |
| QueryResolverExamples.AndChainPostfix | test/search/boolean-query-resolver/general.test.ts:168 | `a AND b AND c` becomes `a b AND c AND` (left-associative) |
| QueryResolverExamples.AndChainTree | test/search/boolean-query-resolver/general.test.ts:168 | that postfix builds one flattened AND |
| QueryResolverExamples.AndChain | test/search/boolean-query-resolver/general.test.ts:168 | `a AND b AND c` resolves to AND{a, b, c} |
| QueryResolverExamples.GroupFirstPostfix | test/search/boolean-query-resolver/general.test.ts:134 | `(a OR b) AND c` becomes `a b OR c AND` |
| QueryResolverExamples.GroupFirstTree | test/search/boolean-query-resolver/general.test.ts:134 | that postfix builds `(a OR b) AND c` |
| QueryResolverExamples.GroupFirst | test/search/boolean-query-resolver/general.test.ts:134 | `(a OR b) AND c` resolves to AND{OR{a, b}, c} |
| QueryResolverExamples.LoneTermPostfix | test/search/boolean-query-resolver/edge-cases.test.ts:139 | `((a))` becomes `a` |
| QueryResolverExamples.LoneTermTree | test/search/boolean-query-resolver/edge-cases.test.ts:139 | a lone term builds a single leaf |
| QueryResolverExamples.LoneTerm | test/search/boolean-query-resolver/edge-cases.test.ts:139 | `((a))` resolves to the wrapper AND{a} |
| QueryResolverExamples.BareTerm | test/search/boolean-query-resolver/general.test.ts:25 | a single term resolves to AND{a} |
| QueryResolverExamples.BinaryAtStart | test/search/boolean-query-resolver/general.test.ts:270 | `AND a` fails with the missing-left-operand error |
| QueryResolverExamples.NotAfterOperand | test/search/boolean-query-resolver/general.test.ts:286 | `a NOT b` fails because NOT must stand where an operand is expected |
| QueryResolverExamples.EndsAfterOperator | test/search/boolean-query-resolver/general.test.ts:266 | `a OR` ends unexpectedly |
| QueryResolverExamples.EmptyGroup | test/search/boolean-query-resolver/general.test.ts:401 | `()` ends unexpectedly |
| QueryResolverExamples.UnclosedGroup | test/search/boolean-query-resolver/general.test.ts:256 | `(a` reports a missing `)` |
| QueryResolverExamples.UnopenedClose | test/search/boolean-query-resolver/general.test.ts:260 | `a )` reports a missing `(` |
| QueryResolverExamples.JuxtapositionRejectedLate | src/search/boolean-query-resolver.ts:159-161 | two terms in a row pass the postfix pass and are rejected only by the builder, as not reducing to one root |
| QueryResolverProofs.CloseGroup | src/search/boolean-query-resolver.ts:51-61 | closing a group after an operand pops to its `(`, drops it, and keeps the scanner and the placement scan in step |
| QueryResolverProofs.BinaryPush | src/search/boolean-query-resolver.ts:77-92 | pushing AND/OR after the precedence pops keeps the scanner's stacks in step with the placement scan |
| PhraseSearch.SecondFieldOfRecord | src/search/strategies/phrase.ts:30 | `split(':')[1]` of a `line:pos:len` record is its pos field |
| PhraseSearch.ParseDigits | src/search/strategies/phrase.ts:30 | `parseInt` of a digit string is its decimal value |
| PhraseSearch.RecordPosition | src/search/strategies/phrase.ts:30 | parsing a record written by the indexer gives back its position (the round trip of indexer and phrase search) |
| PhraseSearch.MalformedRecordsParseToNaN | src/search/strategies/phrase.ts:30 | an entry without a second field, or whose second field does not start with a digit, parses to NaN |
| PhraseSearch.NaNPositionsChain | src/search/strategies/phrase.ts:49 | since `includes` finds NaN and NaN + i is NaN, NaN positions match any phrase |
| PhraseSearch.RunsFrom | src/search/strategies/phrase.ts:46-53 | the inner loop answers whether every later term occurs at the start position plus its offset |
| PhraseSearch.HasPhraseMatch | src/search/strategies/phrase.ts:42-57 | `hasPhraseMatch` is true iff some position of the first term starts a run of consecutive positions for all terms; a missing term has no positions |
| PhraseSearch.SingleTermPhrase | src/search/strategies/phrase.ts:43-54 | a one-term phrase matches iff the term has a position |
| PhraseSearch.ConsecutiveOnly | src/search/strategies/phrase.ts:49 | positions 5 and 6 form the phrase, 5 and 7 do not |
| PhraseSearch.PhraseMatchOrderFree | src/search/strategies/phrase.ts:30 | the match depends only on which positions occur, so sorting them changes nothing |
| PhraseSearch.FetchDocSets | src/search/strategies/phrase.ts:9 | the fetched posting lists are the terms' lists in the store, after exactly one posting-list request per term, in term order |
| PhraseSearch.FilterStep | src/search/strategies/phrase.ts:16-19 | one more filter pass keeps the candidates also in the next list |
| PhraseSearch.KeepCommonMembers | src/search/strategies/phrase.ts:16-19 | a document survives the filtering iff it is in the first list and in every later one |
| PhraseSearch.KeepCommonAll | src/search/strategies/phrase.ts:15-16 | with one posting list the candidates are that list |
| PhraseSearch.CandidatesMembers | src/search/strategies/phrase.ts:15-19 | the candidates are exactly the documents in every posting list |
| PhraseSearch.Intersect | src/search/strategies/phrase.ts:15-19 | the filtering loop computes the candidates |
| PhraseSearch.PositionsOf | src/search/strategies/phrase.ts:26-32 | the positions map of a candidate holds, per term, its parsed stored positions, after exactly one position request per term, in term order |
| PhraseSearch.MatchesIn | src/search/strategies/phrase.ts:26-34 | one candidate's pass: its position requests, one per term in term order, and a match exactly when the phrase occurs in that document |
| PhraseSearch.ScoreCandidatesMeaning | src/search/strategies/phrase.ts:25-37 | a candidate is scored iff the phrase occurs in it, always with 1.0 |
| PhraseSearch.ScorePhrase | src/search/strategies/phrase.ts:25-37 | the candidate loop computes those scores, asking for positions candidate by candidate and term by term |
| PhraseSearch.EmptyPhraseCrashes | src/search/strategies/phrase.ts:15 | the code as written fails exactly on an empty phrase, where `docSets[0]` is undefined |
| PhraseSearch.GuardedPhraseAgrees | src/search/strategies/phrase.ts:3-40 | with the empty phrase answered by no results, the search agrees with the code on every non-empty phrase |
| PhraseSearch.SearchPhrase | src/search/strategies/phrase.ts:3-40 | `searchPhrase` computes the phrase scores, an empty posting list or no candidates giving none, and its request log is exactly `PhraseCalls` |
| PhraseSearch.ScoreCallsShape | src/search/strategies/phrase.ts:25-32 | the candidate loop makes one position request per (candidate, term) pair, each about a term of the phrase and a candidate |
| PhraseSearch.PhraseCallsShape | src/search/strategies/phrase.ts:9-32 | searchPhrase first asks for every term's posting list in term order, then only for positions of phrase terms in documents that are in every posting list, \|terms\| per candidate; nothing after an empty posting list, nothing for an empty phrase |
| PhraseSearch.PhraseScoresMeaning | src/search/strategies/phrase.ts:3-40 | a document is scored iff the phrase is non-empty, every term's posting list holds it and the phrase occurs in it; every score is 1.0 |
| KeywordSearch.PostingSumCounts | src/search/strategies/keyword.ts:17-22 | a document listed n times in a posting list receives the term's weight n times |
| KeywordSearch.AddPostingsMeaning | src/search/strategies/keyword.ts:17-22 | the inner loop adds each listed document's tf·idf to its score (absent counting as 0) and touches no other document |
| KeywordSearch.KeywordScoresMeaning | src/search/strategies/keyword.ts:4-26 | a document is scored iff some term's posting list holds it, and its score is the sum over the terms of tf·idf, terms with no documents adding nothing |
| KeywordSearch.TermSumAppend | src/search/strategies/keyword.ts:11-23 | the score of a concatenated term list is the sum of the parts' scores |
| KeywordSearch.TermSumPermutation | src/search/strategies/keyword.ts:11-23 | reordering the terms leaves each document's sum unchanged |
| KeywordSearch.TermOrderFree | src/search/strategies/keyword.ts:11-23 | the scores do not depend on the order of the query terms |
| KeywordSearch.UbiquitousTermScoresZero | src/search/strategies/keyword.ts:15 | a term present in every document has idf log10(1) = 0 and scores each of its documents 0 |
| KeywordSearch.KeywordCallsShape | src/search/strategies/keyword.ts:11-22 | after the document count, the search asks only for posting lists of the query terms and frequencies of (term, document) pairs in those lists, at least one request per term |
| KeywordSearch.AddTermScores | src/search/strategies/keyword.ts:17-22 | the inner loop computes the postings fold and issues exactly the frequency requests |
| KeywordSearch.SearchKeyword | src/search/strategies/keyword.ts:4-26 | `searchKeyword` computes the keyword scores after one document-count request and the per-term requests in order |

## Left out

- Redis, the file system, streams and promises are not modelled. Collaborators are an immutable `Store` snapshot behind a service class that logs requests. Each asynchronous step (a stream chunk, a task's completion, a pipeline's `exec`) is an explicit sequential method call. Interleavings of concurrent promises are not modelled.
- The failure paths of Redis pipelines in the index writer, the loader and the normalizer stream are not modelled. Each `exec` succeeds, so "the batch is cleared only after a successful exec" is not stated.
- The Unicode word class, `toLowerCase`/`toUpperCase`, md5 and `Math.log10` are function parameters. Keyword scores are computed over exact reals, not IEEE doubles.
- Node `EventEmitter` delivery in the indexing queue is not modelled. The emitted events are kept in a ghost log that no contract constrains.
- SearchEngines.SearchEngine.FormatResults: the iteration order of a JavaScript `Map` (insertion order) is left open. Ranking is stated for every listing of the map's entries, and ties between equal scores may come in any order. The stability of `Array.prototype.sort` is therefore not stated.
- SearchEngines.Taken: `limit` is an unbounded integer. Fractional limits are not modelled.
- PhraseSearch.ParsePositions: the ascending sort of positions is not modelled. `PhraseSearch.PhraseMatchOrderFree` shows the match does not depend on position order.
- BooleanSearch.ComputeUniverse: the seed terms are fetched in an order the model leaves open, where a JavaScript `Set` iterates in insertion order. The universe and the cached terms are stated; the order of the posting-list requests is not.
- The boolean-mode lexer (`tokenize(query, true)` with `BOOLEAN_LEXEME_REGEX`) is not part of this model. Its source is not available, so the resolver starts from a lexeme list and the engine's boolean mode uses the word tokenizer.
- A negative `maxConcurrency` starts no task, as the source's `activeWorkers < maxConcurrency` test gives; the queue's bound on running tasks is therefore stated as `activeWorkers <= max(maxConcurrency, 0)`. `maxConcurrency` is an integer here: a fractional JavaScript number (2.5 lets three tasks run) is not modelled.
- The terminal interface, the dictionary archive reader, the file reader, the pipeline wiring, benchmarks and the test setup are I/O or presentation and are not modelled.

## Findings

| source | as written | input that shows it | evidently intended | confidence | as-written member | corrected member |
|---|---|---|---|---|---|---|
| src/search/strategies/phrase.ts:15 | `searchPhrase` reads `docSets[0]` without checking that there is a term, and then `candidateDocs.length` of `undefined` throws | `searchPhrase([], service)` | an empty phrase returns an empty map, as test/search/strategies/phrase.test.ts:32-37 expects | not executed | PhraseSearch.EmptyPhraseCrashes | PhraseSearch.GuardedPhraseAgrees |
