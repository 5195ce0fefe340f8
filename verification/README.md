# Verified model of the policy-assistant retrieval core

This project is a Dafny model of the retrieval and ingestion core of a question-answering service for government policy documents. The model covers five parts:

- **The hybrid search engine** (`performance_fix_hybrid_search.py`). A query is answered from a result cache when possible. Otherwise the engine gets a query embedding, from a bounded cache or from the embedding model. It then searches the vector index in the namespaces the router picks, runs a BM25 search over a corpus sampled from the index, and fuses the two ranked lists with rank-decayed weights. Along the way it keeps hit and response-time counters.
- **The namespace mapper and router** (`semantic_namespace_mapper.py`). The mapper holds a table from semantic names to index namespaces, plus the reverse table derived from it. The router scores semantic names against a query's words using a keyword table.
- **The two document chunkers** (`enhanced_intelligent_embedding.py` and `intelligent_data_embedding.py`). They cover document-type detection, section splitting, overlapping word windows, line and paragraph accumulation, chunk ids, and grouping of chunks by namespace for upload.
- **The prompt builder of the server** (`fast_hybrid_search_server.py`). This is the greeting and response-style classification, the context built from the top results, and the `search` endpoint's outcome.

Remote services become function-valued parameters: the embedding model, the vector index, BM25Okapi's scorer, regular expressions and the language model. Python dicts are modelled as insertion-ordered sequences of pairs, and scores as exact `real`s.

Modules:

| module | contents |
|---|---|
| `Wrappers` | `Option` and `Result` |
| `Seqs` | Python slicing, `Filter`, `Flatten`, `Sum` |
| `Text` | ASCII `lower`/`strip`/`split`, substring tests, decimal rendering |
| `OrderedMap` | dicts |
| `Sorting` | Python's stable `sort(reverse=True)` |
| `Results` | hits and fused results |
| `FifoCache`, `CacheKeys`, `Stats`, `Fusion`, `Lexical`, `VectorSearch` | the engine's parts |
| `Engine` | `fast_search` |
| `NamespaceTables`, `NamespaceMapper`, `NamespaceRouter` | the mapper and router |
| `EnhancedChunking`, `DetailedChunking` | the two chunkers |
| `Grouping` | namespace grouping and batched upload |
| `Prompt` | the server |

## Model

| member | source | states |
|---|---|---|
| Fusion.FastFusion | performance_fix_hybrid_search.py:397-433 | The fused list holds `min(top_k, number of dict entries)` results, ordered by non-increasing score (ties allowed). No id occurs twice, and every id comes from one of the two input lists. |
| Fusion.FusionCount | performance_fix_hybrid_search.py:400-427 | The dict has exactly one entry per distinct id of the two lists. |
| Fusion.FusionTopSelection | performance_fix_hybrid_search.py:429-433 | The result is the top `top_k` of the dict. An entry left out scores no higher than any returned result, and with at most `top_k` entries none is left out. |
| Fusion.FusionRanked | performance_fix_hybrid_search.py:429-433 | The first `top_k` of the stably sorted dict values are sorted, id-distinct and drawn from the inputs. |
| Fusion.TableIds | performance_fix_hybrid_search.py:400-427 | The fusion dict holds exactly the ids that occur in either list. |
| Fusion.FusionEntryVector | performance_fix_hybrid_search.py:403-421 | An id of the vector list is stored with its last vector occurrence's entry, because a later duplicate overwrites an earlier one. Every BM25 occurrence of the id then adds its own contribution and one "bm25" label. |
| Fusion.FusionEntryBoth | performance_fix_hybrid_search.py:403-421 | An id whose last vector occurrence is at rank i and whose only BM25 occurrence is at rank j yields one entry: the vector hit merged with the BM25 hit's contribution at rank j. |
| Fusion.MergedEntry | performance_fix_hybrid_search.py:406-421 | That entry's score is v·0.7·(1−0.05i) + b·0.3·(1−0.05j). Its metadata and namespace are the vector hit's, and its sources are ["vector", "bm25"]. |
| Fusion.FusionEntryVectorOnly | performance_fix_hybrid_search.py:403-411 | An id only the vector list has keeps its last vector hit's fields, with score v·0.7·(1−0.05i) and sources ["vector"]. |
| Fusion.FusionEntryBm25Only | performance_fix_hybrid_search.py:414-427 | An id only the BM25 list has keeps the fields of its first BM25 occurrence. Its score is the sum of the contributions of all its occurrences, and it has one "bm25" label per occurrence. |
| Fusion.FusionEntryBm25Single | performance_fix_hybrid_search.py:422-427 | An id occurring once, and only in the BM25 list, keeps that hit's fields, with score b·0.3·(1−0.05j) and sources ["bm25"]. |
| Fusion.FusedAreTableEntries | performance_fix_hybrid_search.py:429-433 | Every returned result is exactly the dict's entry for its id. |
| Fusion.TableOrder | performance_fix_hybrid_search.py:400-427 | Dict order is first-insertion order: the vector ids in rank order, then the ids seen only by BM25 in rank order. |
| Fusion.FusionTieOrder | performance_fix_hybrid_search.py:429-433 | For every score value, the returned results with that score are a prefix of the dict's entries with that score, in dict order. |
| Fusion.RankFactorPositive | performance_fix_hybrid_search.py:406-416 | The rank multiplier 1−0.05i is positive exactly for ranks below 20. |
| Fusion.ExampleSameIdInBothLists | performance_fix_hybrid_search.py:403-433 | Fusing [A:0.9] with [A:5.0] at `top_k` 1 gives [A:2.13] with sources ["vector","bm25"], and the vector metadata is kept. |
| Fusion.ExampleDuplicateVectorOverwrites | performance_fix_hybrid_search.py:403-411 | The same vector id from two namespaces, [A:1.0, A:0.5], keeps the later, lower-ranked hit: A scores 0.3325 and carries the second hit's metadata and namespace. |
| Fusion.ExampleDuplicateBm25Adds | performance_fix_hybrid_search.py:413-421 | The same BM25 id twice, [A:1.0, A:1.0], adds both contributions, 0.3 + 0.285 = 0.585, with sources ["bm25", "bm25"]. |
| Fusion.ExampleTie | performance_fix_hybrid_search.py:429-433 | Scores can tie (0.3·0.7 = 0.7·0.3). The vector hit then stays ahead of the BM25-only hit. |
| FifoCache.Lookup | performance_fix_hybrid_search.py:241-242 | A lookup misses exactly when the key was never stored or was evicted. A hit returns the stored value and does not change the cache. |
| FifoCache.Store | performance_fix_hybrid_search.py:273-279 | After a store the cache stays within its capacity and returns the new value for its key. Every other key keeps its value or is evicted. |
| FifoCache.StoreBelowCapacity | performance_fix_hybrid_search.py:274-279 | Below capacity nothing is evicted: a new key goes last and every other key keeps its value. |
| FifoCache.StoreAtCapacity | performance_fix_hybrid_search.py:274-279 | At capacity, a new key evicts exactly the oldest-inserted key. The key order shifts by one and the size stays at capacity. |
| FifoCache.StoreKnownKeyWhenFull | performance_fix_hybrid_search.py:274-279 | Re-storing a present key other than the oldest in a full cache still evicts the oldest key, so the cache shrinks by one. |
| FifoCache.StoreOldestKeyWhenFull | performance_fix_hybrid_search.py:274-279 | Re-storing the oldest key itself in a full cache evicts it and re-inserts it at the end: the key order rotates by one, the size stays at capacity, and the key holds the new value. |
| CacheKeys.KeysShareNormalization | performance_fix_hybrid_search.py:285 | `strip().lower()` and `lower().strip()` agree, so the embedding key is the prefix of the result key (built at line 240) before `_top_k`. |
| CacheKeys.ResultKeyInjective | performance_fix_hybrid_search.py:240 | Two calls share a result-cache entry exactly when their normalised queries are equal and their `top_k` are equal. |
| CacheKeys.ExampleCaseAndSpaceShareKeys | performance_fix_hybrid_search.py:240 | " Fee" with `top_k` 5 is stored under "fee_5". |
| Stats.RecordTimeKeepsTotal | performance_fix_hybrid_search.py:266-269 | After the incremental-mean update, new average × n equals old average × (n−1) + t. Here n already counts this query. |
| Stats.HitRate | performance_fix_hybrid_search.py:437-439 | The hit rate lies in [0, 100] when hits do not exceed queries. It is 0 with no hits and 100 when every query hit. |
| Stats.StepHits | performance_fix_hybrid_search.py:288 | One call raises the hit counter once for a cached result (line 243) and once for a cached embedding, and never more. |
| Stats.Replay | performance_fix_hybrid_search.py:241-269 | After a run of calls the query count is the number of calls, and hits never exceed queries. |
| Stats.AverageIsMean | performance_fix_hybrid_search.py:266-269 | With only full searches, the running average is the true mean of the response times. |
| Stats.ExampleCachedQueryCountsAsAverage | performance_fix_hybrid_search.py:244-269 | A cached call still advances the count. Searches of 2s, a cached call, then 5s average to 3s, not 3.5s or 7/3s. |
| Stats.StepAverage | performance_fix_hybrid_search.py:266-269 | Only a completed search moves the average. A cached result or a failure leaves it as it was. |
| Stats.AverageBelowSlowest | performance_fix_hybrid_search.py:266-269 | The average stays between 0 and the slowest search time. |
| Stats.FastSearchesStayReady | performance_fix_hybrid_search.py:444 | If every search takes under 5 seconds, `production_ready` stays true. |
| Lexical.CorpusText | performance_fix_hybrid_search.py:159-167 | A match contributes its stripped `content` (or `text`) only when that text is longer than 20 characters. |
| Lexical.CollectCorpus | performance_fix_hybrid_search.py:155-170 | The documents and their (id, namespace) pairs are built in lockstep, and every kept text is long enough. |
| Lexical.CorpusMembers | performance_fix_hybrid_search.py:155-170 | The corpus holds exactly the long-enough texts of namespaces whose sample query succeeded, with their ids and namespaces. |
| Lexical.TokensOfMembers | performance_fix_hybrid_search.py:218-226 | Every token is the punctuation-stripped form of a raw word that passed the length, stopword and digit tests. Every passing word yields a token. |
| Lexical.TokenizeWith | performance_fix_hybrid_search.py:209-233 | Only token lists with at least 3 tokens are kept, and there are never more lists than documents. |
| Lexical.KeptPositionsMatch | performance_fix_hybrid_search.py:219-231 | Kept list k is the tokenisation of an increasing document position. A document is kept exactly when it has at least 3 tokens. |
| Lexical.NothingDroppedAligned | performance_fix_hybrid_search.py:228-231 | When no document is dropped, token list k belongs to document k. |
| Lexical.Build | performance_fix_hybrid_search.py:135-207 | The index is absent for an empty corpus. It is never assigned when every document is dropped. Otherwise it holds the kept token lists and their document positions. |
| Lexical.TokenizedDocuments | performance_fix_hybrid_search.py:209-233 | The tokeniser returns nothing exactly when every document has fewer than 3 tokens. |
| Lexical.ArgsortDesc | performance_fix_hybrid_search.py:377 | The ranking lists every score index once, highest score first. |
| Lexical.CollectFrom | performance_fix_hybrid_search.py:379-389 | Every collected hit is what the reading of the index yields for one of the ranked indices. |
| Lexical.CollectKeeps | performance_fix_hybrid_search.py:380-389 | Every ranked index that yields a hit is collected. |
| Lexical.CollectSorted | performance_fix_hybrid_search.py:377-389 | Hits collected along a non-increasing ranking come out in non-increasing score order. |
| Lexical.SearchAsWritten | performance_fix_hybrid_search.py:357-395 | As written, the search returns [] for an empty corpus or a query with no usable tokens. It fails exactly when the index was never assigned. Otherwise it returns at most `top_k` hits. |
| Lexical.SearchAsWrittenHits | performance_fix_hybrid_search.py:377-389 | As written, every hit has a positive score and the "bm25" label, and the hits come in non-increasing score order. |
| Lexical.SearchAsWrittenReports | performance_fix_hybrid_search.py:380-389 | As written, each hit is built from some position i of the full corpus lists (text, id and namespace stored there), scored with score index i. |
| Lexical.Search | performance_fix_hybrid_search.py:357-395 | The search returns [] for an empty corpus or a query with no usable tokens. It fails exactly when the index was never assigned. Otherwise it returns at most `top_k` hits. |
| Lexical.TopRanked | performance_fix_hybrid_search.py:377 | The first `top_k` ranked indices are valid score indices in non-increasing score order. |
| Lexical.SearchHits | performance_fix_hybrid_search.py:379-391 | Every returned hit has a positive score and the "bm25" label, in non-increasing score order. |
| Lexical.SearchReportsScoredDocument | performance_fix_hybrid_search.py:374-389 | Each hit reports the corpus document whose tokens produced its score, with that document's id and namespace. |
| Lexical.AsWrittenAgreesWhenNothingDropped | performance_fix_hybrid_search.py:380-389 | When the tokeniser drops no document, the search as written returns the same hits as the aligned search. |
| Lexical.DroppedDocumentShiftsHits | performance_fix_hybrid_search.py:374-388 | If the first document of a two-document corpus is dropped, the search as written reports that dropped document for the second document's score. |
| VectorSearch.Routed | performance_fix_hybrid_search.py:314-320 | The target set is exactly the actual namespaces of the one or two semantic names the router picks. |
| VectorSearch.Available | performance_fix_hybrid_search.py:322-326 | The searched namespaces are the targets the index knows, or the first known namespace when no target is known. |
| VectorSearch.SearchedNamespaces | performance_fix_hybrid_search.py:314-326 | A namespace is searched exactly when it is both routed and known. When none is, the first known namespace is searched. |
| VectorSearch.SemanticSearch | performance_fix_hybrid_search.py:311-355 | At most `top_k` hits, in non-increasing score order. Each is a match the index returned for a searched namespace, labelled with it. |
| VectorSearch.GatherFrom | performance_fix_hybrid_search.py:330-351 | Every gathered hit is a match of a searched namespace whose query succeeded. |
| VectorSearch.GatherComplete | performance_fix_hybrid_search.py:332-348 | Every match of every answering namespace is gathered. |
| VectorSearch.TopSelection | performance_fix_hybrid_search.py:354-355 | A gathered hit that is left out scores no higher than any returned hit. With at most `top_k` gathered hits, all are returned. |
| VectorSearch.SkipsOnlyFailedNamespaces | performance_fix_hybrid_search.py:349-351 | A failing namespace only loses its own matches. The matches of namespaces that answered are all returned when nothing is cut. |
| VectorSearch.TiesKeepSearchOrder | performance_fix_hybrid_search.py:354 | For every score, the returned hits carrying it are a prefix of the gathered hits carrying it, in the order the namespaces were searched. When nothing is cut, they are all of them. |
| Engine.NewEngine | performance_fix_hybrid_search.py:29-65 | The engine starts with empty caches of capacity 100 and 50, zero counters, and the BM25 corpus sampled from the index. Its index is tokenised by `_tokenize_documents_fast` under the given stopword set. The `alpha` and `fusion_method` arguments play no part. |
| Engine.CachedEmbedding | performance_fix_hybrid_search.py:283-309 | A cached embedding is returned unchanged and counted as a hit. Otherwise the model's encoding is stored under the normalised key. A failing model leaves the engine as it was. |
| Engine.VectorHits | performance_fix_hybrid_search.py:311-355 | The vector step returns at most `top_k` hits in non-increasing score order. |
| Engine.FastSearch | performance_fix_hybrid_search.py:235-281 | Every call counts one query, and a success is a ranked, id-distinct list of at most `top_k` results. A cached result is returned as stored. A computed result is cached. A call fails exactly when the embedding model fails on an uncached query, or the BM25 index was never assigned. |
| Engine.Miss | performance_fix_hybrid_search.py:248-279 | After a counted miss, an embedding hit is counted, a completed search records its time, and a failure leaves the result cache alone. |
| Engine.Retrieve | performance_fix_hybrid_search.py:256-279 | Once the embedding is known, the call succeeds exactly when the BM25 index exists. It then records its time and caches the ranked result under its key. |
| Engine.StoreRanked | performance_fix_hybrid_search.py:273-279 | Every cached result list stays ranked for the `top_k` encoded in its key. |
| Engine.RepeatServedFromCache | performance_fix_hybrid_search.py:240-246 | Repeating a successful query is served from the cache with the same list and one more hit. This holds even if only case or surrounding spaces differ, and whatever the services now answer. |
| Engine.CachedEmbeddingIgnoresModel | performance_fix_hybrid_search.py:285-290 | With a cached embedding, the call's outcome does not depend on the embedding model. |
| Engine.StatsFollowEvent | performance_fix_hybrid_search.py:241-269 | `fast_search` moves the counters exactly as the counter model's step for its event. |
| Engine.RunEventTimes | performance_fix_hybrid_search.py:265 | Every search event in a run records the time its call took. |
| Engine.RunReplays | performance_fix_hybrid_search.py:241-269 | From a fresh engine, the counters after a run are the counter model's replay of the run's events. |
| Engine.FastRunStaysReady | performance_fix_hybrid_search.py:266-269 | If every call takes under 5 seconds, the engine stays production ready. |
| Engine.HitRateBounded | performance_fix_hybrid_search.py:437-439 | The reported hit rate of any reachable engine state lies in 0–100%. |
| NamespaceMapper.NewMapper | semantic_namespace_mapper.py:11-95 | The reverse table has a key for exactly the names some forward list mentions. |
| NamespaceMapper.GetActualNamespace | semantic_namespace_mapper.py:231-233 | Total: returns the mapped list, or [name] for an unmapped name. |
| NamespaceMapper.GetSemanticNamespace | semantic_namespace_mapper.py:235-237 | Total: returns the reverse list, or [name] for a name no list mentions. |
| NamespaceMapper.GetAllSemanticNamespaces | semantic_namespace_mapper.py:239-241 | Returns the forward table's keys in declaration order. |
| NamespaceMapper.AppendUnderEachGet | semantic_namespace_mapper.py:88-92 | The inner loop appends the semantic name once under each occurrence of an actual name and changes nothing else. |
| NamespaceMapper.ReverseLists | semantic_namespace_mapper.py:87-92 | The derived reverse list of `a` is the semantic names whose lists mention `a`, in table order. |
| NamespaceMapper.ReferrersMembers | semantic_namespace_mapper.py:87-92 | A name is listed under `a` exactly when its own forward list mentions `a`. |
| NamespaceMapper.TranslationRoundTrip | semantic_namespace_mapper.py:231-237 | For a mapped semantic name `s`: `a` is in `s`'s list exactly when `s` is in `a`'s reverse list. |
| NamespaceMapper.TranslateNamespaces | semantic_namespace_mapper.py:250-272 | The translation holds exactly the names that some input translates to, in either direction. |
| NamespaceMapper.GetAllActualNamespaces | semantic_namespace_mapper.py:243-248 | Holds exactly the names some forward list mentions. |
| NamespaceMapper.AllActualIsFullTranslation | semantic_namespace_mapper.py:243-272 | All actual names are the translation of all semantic names, and each is a key of the reverse table. |
| NamespaceMapper.CategoryMappings | semantic_namespace_mapper.py:349-361 | Every mapping pairs a mapped semantic name of its category with one of that name's actual namespaces. |
| NamespaceMapper.GetNamespaceInfo | semantic_namespace_mapper.py:329-363 | `total_namespaces` is the number of forward keys. The flat mapping list is the category lists concatenated in category order. |
| NamespaceRouter.QueryWords | semantic_namespace_mapper.py:289-290 | The query words are the maximal runs of word characters with at least two characters, left to right. |
| NamespaceRouter.PairScore | semantic_namespace_mapper.py:298-301 | A (word, keyword) pair scores 3 when they are equal, 1 when either contains the other, and 0 otherwise. |
| NamespaceRouter.KeywordLoopGet | semantic_namespace_mapper.py:293-301 | After the keyword loop, a name's entry has grown by exactly the sum of its pair scores. It is created only if that sum is positive. |
| NamespaceRouter.BoostLoopGet | semantic_namespace_mapper.py:304-307 | The boost adds 2 to exactly the forward-table names containing "policy" or "guideline", creating their entries. |
| NamespaceRouter.ScoreTableMatchesTotals | semantic_namespace_mapper.py:289-307 | The score dict holds exactly the names whose score is positive, each with its score. The score is the pair scores plus the boost when the query contains a marker word. |
| NamespaceRouter.ScoreTableValid | semantic_namespace_mapper.py:293-307 | The score dict never holds a name twice. |
| NamespaceRouter.ScoresPositive | semantic_namespace_mapper.py:293-307 | Every entry of the score dict is positive. |
| NamespaceRouter.RankIsTopK | semantic_namespace_mapper.py:309-321 | The ranked names are distinct, positively scored and in non-increasing order. A positively scored name is left out only when `max` names were kept, all scoring at least as high. |
| NamespaceRouter.RankNames | semantic_namespace_mapper.py:309-321 | The ranked names are the first entries of the stably sorted dict items, with their scores. |
| NamespaceRouter.RankedIsTopK | semantic_namespace_mapper.py:289-321 | The router's ranked names are the top `max_namespaces` names by score, best first. |
| NamespaceRouter.GetRelevantSemanticNamespaces | semantic_namespace_mapper.py:274-327 | The ranked names come first. The padding after them is forward-table names not already ranked. The result has at most `max(min_namespaces, max_namespaces)` names, so at most `max_namespaces` when min ≤ max. |
| NamespaceRouter.RouterDistinct | semantic_namespace_mapper.py:317-327 | The router never returns a name twice. |
| NamespaceRouter.RouterAtLeastMin | semantic_namespace_mapper.py:323-325 | With enough forward-table names, the router returns at least `min_namespaces` names. |
| NamespaceRouter.RouterNoMatch | semantic_namespace_mapper.py:323-325 | A query that scores nothing yields the first `min_namespaces` forward-table names. |
| EnhancedChunking.Identify | enhanced_intelligent_embedding.py:129-149 | The identified type's rule fires, and no rule earlier in the priority chain fires. |
| EnhancedChunking.IdentifyIsFirstFiring | enhanced_intelligent_embedding.py:129-149 | Conversely, the first firing type is the one identified. |
| EnhancedChunking.LabelInjective | enhanced_intelligent_embedding.py:129-149 | The eight type labels are pairwise distinct. |
| EnhancedChunking.StrategyFor | enhanced_intelligent_embedding.py:96-127 | Every strategy has overlap below chunk size and at least one marker. Types without their own entry get the default. |
| EnhancedChunking.Emit | enhanced_intelligent_embedding.py:278-292 | A section is emitted exactly when its stripped text is not empty, and it holds that stripped text. |
| EnhancedChunking.SplitIntoSections | enhanced_intelligent_embedding.py:264-294 | Every section has non-empty content. Its title is "Introduction" or the first 100 characters of a stripped header line. |
| EnhancedChunking.GroupsCover | enhanced_intelligent_embedding.py:268-289 | Cut at its header lines, the lines concatenate back to the input: every line lands in exactly one group, in order. |
| EnhancedChunking.GroupsCutAtHeaders | enhanced_intelligent_embedding.py:270-287 | Each group after the first starts with its header line, and no other line is a header. |
| EnhancedChunking.ScanState | enhanced_intelligent_embedding.py:268-289 | The splitting loop's state after any prefix follows the grouping: earlier groups are emitted and the last one is open. |
| EnhancedChunking.SplitMatchesGroups | enhanced_intelligent_embedding.py:264-294 | The sections are exactly the non-blank groups, in order. |
| EnhancedChunking.NonBlankGroupKept | enhanced_intelligent_embedding.py:278-292 | A group holding a non-blank line becomes a section, so no line with text is lost. |
| EnhancedChunking.OverlappingChunks | enhanced_intelligent_embedding.py:296-328 | There is one window per start of `range(0, n, size−overlap)`. Window j is numbered j, holds 1 to `chunk_size` words, and is a clause chunk of its section. |
| EnhancedChunking.WindowAt | enhanced_intelligent_embedding.py:303-318 | Window j holds the words from j·(size−overlap) on. It overlaps its predecessor exactly when j > 0, and its successor exactly when words remain past its end. |
| EnhancedChunking.WindowsCoverWords | enhanced_intelligent_embedding.py:303-328 | Every word lies in some window. |
| EnhancedChunking.SummaryChunks | enhanced_intelligent_embedding.py:221-240 | A section summary exists exactly when the stripped section text is longer than 100 characters. |
| EnhancedChunking.SectionChunks | enhanced_intelligent_embedding.py:189-240 | A section's chunks are its facts, then its windows, then its summary. Ids are distinct and fit their places. |
| EnhancedChunking.AllSections | enhanced_intelligent_embedding.py:189-240 | Across sections, the chunks keep section order, the ids stay distinct, and fact ids count the chunks before them. |
| EnhancedChunking.DocSummary | enhanced_intelligent_embedding.py:243 | The document summary is the text itself up to 1000 characters, else its first 1000 characters and "...". |
| EnhancedChunking.CreateEnhancedChunks | enhanced_intelligent_embedding.py:176-262 | The document chunk is last and the only one of its kind. All other chunks are in section order with distinct ids. |
| EnhancedChunking.RenderIdInjective | enhanced_intelligent_embedding.py:204 | Distinct ids render to distinct `chunk_id` strings within one document. The same rendering is used for fact, summary, document and clause ids (lines 204, 236, 256 and 322). |
| EnhancedChunking.RenderedIdsDistinct | enhanced_intelligent_embedding.py:322 | The `chunk_id`s of one call are pairwise distinct, across the clause ids built here and the fact, summary and document ids of lines 204, 236 and 256. |
| EnhancedChunking.NamespaceInjective | enhanced_intelligent_embedding.py:366-373 | Two chunks share a namespace exactly when they share document type and granularity. |
| EnhancedChunking.UploadChunks | enhanced_intelligent_embedding.py:359-410 | Each namespace is counted with the number of chunks grouped under it, and the counts sum to the number of chunks. |
| EnhancedChunking.OneDocumentChunk | enhanced_intelligent_embedding.py:359-410 | Uploading one document's chunks counts exactly one chunk under its `{type}_document` namespace. |
| Grouping.GroupBy | enhanced_intelligent_embedding.py:365-373 | A group exists exactly for the keys some element has, and holds exactly that key's elements in order. |
| Grouping.GroupSizesSum | intelligent_data_embedding.py:569-575 | Every element lands in exactly one group, so the group sizes sum to the number of elements. |
| Grouping.ElementInItsGroup | intelligent_data_embedding.py:571-575 | An element belongs to the group of its own key and to no other. |
| Grouping.Batches | intelligent_data_embedding.py:600-602 | The batches partition the list in order. Each holds 1 to `size` elements, and all but the last are full. |
| Grouping.Upload | enhanced_intelligent_embedding.py:376-408 | The counts are the group sizes and sum to the number of chunks. A failed batch is numbered within an existing group. |
| Grouping.CountsIgnoreFailures | enhanced_intelligent_embedding.py:400-408 | Failed batch uploads do not change the counts. |
| DetailedChunking.DetectDocumentType | intelligent_data_embedding.py:128-144 | The detected type's rule fires on the file name, and no earlier rule does. The content is never looked at. |
| DetailedChunking.DetectIsFirstFiring | intelligent_data_embedding.py:128-144 | Conversely, the first firing type is detected, whatever the content. |
| DetailedChunking.ExciseLevyIsEv | intelligent_data_embedding.py:133-138 | "excise_levy.txt" is filed as an EV policy, because "ev" is a plain substring test that comes first. |
| DetailedChunking.ExtractSections | intelligent_data_embedding.py:146-163 | The sections are a permutation of all the patterns' matches, sorted by start offset. Equal starts keep pattern order. |
| DetailedChunking.WindowEnd | intelligent_data_embedding.py:271-292 | A window ends at the section's end when that is at most 400 words away. Otherwise it ends within the last 50 of its 400 words, or one word past them. |
| DetailedChunking.WindowStopsAtSentence | intelligent_data_embedding.py:280-290 | A window cut before the end stops just after the last sentence end in its look-back zone, or at 400 words when none is found. |
| DetailedChunking.Spans | intelligent_data_embedding.py:268-302 | The windows chain: each is non-empty with at most 401 words. The next starts at least 250 words later, but no later than the previous one ends, and the last ends at the section end. |
| DetailedChunking.ChainCovers | intelligent_data_embedding.py:268-302 | Every word lies in some window of the chain. |
| DetailedChunking.TailWindowRepeats | intelligent_data_embedding.py:296-302 | When the window that reaches the end starts more than 250 words before it, one more window inside it is still emitted. |
| DetailedChunking.SplitLongSection | intelligent_data_embedding.py:263-304 | There is one subsection chunk per window, numbered from 0, each with 1 to 401 words. A non-empty section yields at least one chunk. |
| DetailedChunking.SplitCoversEveryWord | intelligent_data_embedding.py:268-302 | Every word of a long section appears in some subsection chunk. |
| DetailedChunking.Run | intelligent_data_embedding.py:314-364 | The running count is the word count of the buffer, every emission holds at least 100 words, and each new buffer starts with the kept tail of the previous emission. |
| DetailedChunking.LineRuns | intelligent_data_embedding.py:306-372 | Emitted runs of non-blank lines have at least 100 words, carry their true word count, and each starts with the last 3 lines of the run before it. |
| DetailedChunking.ContentBasedChunks | intelligent_data_embedding.py:306-372 | Every content-based chunk, the final one included, has at least 100 words. It is numbered and titled by position. |
| DetailedChunking.Detailed | intelligent_data_embedding.py:389-497 | The paragraph loop keeps the running count equal to the buffer's word count. Only flushes may be under 100 words. |
| DetailedChunking.FlushCanBeSmall | intelligent_data_embedding.py:395-410 | A short paragraph followed by one of more than 400 words is emitted on its own, however few words it has. |
| DetailedChunking.DetailedChunks | intelligent_data_embedding.py:374-499 | Every detailed chunk has at least 100 words unless it was flushed ahead of a long paragraph. Sentence runs are joined with ". ". |
| DetailedChunking.SectionBlock | intelligent_data_embedding.py:232-259 | A section under 100 words yields nothing. One with 100–800 words yields one section chunk holding its whole text. A longer one is split into subsections. |
| DetailedChunking.SectionChunkIff | intelligent_data_embedding.py:232-259 | Section i has a section chunk exactly when its text has 100 to 800 words. |
| DetailedChunking.CreateSectionChunks | intelligent_data_embedding.py:221-261 | With no sections found, this is content-based chunking at section level. Otherwise every chunk is a section or subsection chunk of a found section. |
| DetailedChunking.NamespaceNameInjective | intelligent_data_embedding.py:561-563 | Two namespace names are equal exactly when document type and level are equal. |
| DetailedChunking.UploadToPinecone | intelligent_data_embedding.py:565-609 | Every chunk is grouped under the namespace of its type and level. Group sizes sum to the number of chunks. |
| DetailedChunking.SameGroupIffSameKind | intelligent_data_embedding.py:569-575 | Two chunks share an upload group exactly when they have the same document type and level. |
| Prompt.IsGreeting | fast_hybrid_search_server.py:27-38 | The greeting branch's condition, built from substring and prefix tests on the lowered, stripped query. |
| Prompt.GreetingIff | fast_hybrid_search_server.py:30-38 | A greeting holds exactly when the query starts with a greeting word (or has ≤3 words and contains one), has no policy word as a substring, and has ≤5 words. |
| Prompt.PolicyWordBlocksGreeting | fast_hybrid_search_server.py:35-38 | A query containing any policy word is never a greeting. |
| Prompt.GoodEveningNeverGreets | fast_hybrid_search_server.py:30-35 | Because "ev" is matched as a substring, a query containing "good evening" never takes the greeting branch. |
| Prompt.ResponseStyle | fast_hybrid_search_server.py:57-70 | The style is the first in table order with an indicator in the query, else "general". |
| Prompt.GeneralIffNoIndicator | fast_hybrid_search_server.py:66-70 | The style is "general" exactly when no indicator of any style occurs. |
| Prompt.InstructionBlockIff | fast_hybrid_search_server.py:93-130 | Exactly detailed, specific, procedure, eligibility and list add an instruction block. Comparison and general add none. |
| Prompt.CountAppend | fast_hybrid_search_server.py:73 | Counting sources distributes over concatenation. |
| Prompt.CreateOptimizedPrompt | fast_hybrid_search_server.py:24-157 | A greeting prompt exactly for greetings, quoting the query. Otherwise a policy prompt carrying the query, context, style, that style's instruction block and the source count. |
| Prompt.Excerpt | fast_hybrid_search_server.py:340 | An excerpt is the text itself up to 800 characters, else its first 800 characters and "...". |
| Prompt.ContextPositions | fast_hybrid_search_server.py:334-336 | The context uses only results among the first 4 that have text, in order. |
| Prompt.ContextPositionsComplete | fast_hybrid_search_server.py:334-336 | Every one of the first 4 results with text is used. |
| Prompt.ContextParts | fast_hybrid_search_server.py:334-341 | Each part is numbered by the result's 1-based position, so a skipped result leaves a gap in the numbering. |
| Prompt.SourceCountCoversAllResults | fast_hybrid_search_server.py:327-334 | The source count quoted in the prompt (lines 73 and 136) covers all 6 results, while the context holds at most 4 of them. |
| Prompt.Preview | fast_hybrid_search_server.py:393 | A reply preview is the first 300 characters of the text followed by "...", whatever the text's length. |
| Prompt.Search | fast_hybrid_search_server.py:303-424 | 503 while services are not initialised, 400 for an empty stripped message, 500 exactly when the search raised. Otherwise the reply carries the prompt for the stripped query and one entry for each of the first 4 results. An entry holds the first 300 characters of the result's text followed by "...", and the result's fused score, namespace and sources. |

## Left out

- Network calls are not modelled: Pinecone (connection, queries, upserts), the Jina and SentenceTransformer embeddings, and the Groq completion. They appear only as function parameters (`Engine.Services`, the `upsert` and `sample` parameters) or not at all.
- BM25Okapi's scoring is a parameter `scorer`. The L2 normalisation of embeddings (`np.linalg.norm`) is left to the embedding parameter, because it is floating-point arithmetic inside a foreign library.
- Regular expressions are oracles, not regex engines. This covers the section markers of `_split_into_sections`, `extract_facts` (enhanced_intelligent_embedding.py:151-174) and the `finditer` of `extract_sections`.
- The pickle cache of the BM25 index (performance_fix_hybrid_search.py:105-133), directory creation, file reading and md5-based ids (intelligent_data_embedding.py:501-504) are I/O.
- The Flask routes other than `search`, background initialisation and its threading, health checks and `get_stats` are left out.
- Wall-clock time is not read: each call's duration is a parameter `elapsed`. The performance rating strings are left out.
- Number formatting (`{score:.3f}`, `{rate:.1f}%`) is a parameter or left out.
- The prose of the prompts is not modelled. The model keeps their structure, the style and the number of instruction lines. Their wording is left out.
- `create_document_level_chunk`, `process_document`, `embed_chunks`, `process_all_documents`, `get_embedding`, `main` and the module-level demo functions are not modelled. They are orchestration and I/O around the modelled operations.
- The deployment and debug scripts and `config.py` are not part of this model.
- Text handling is ASCII only. Regex `\w`, `str.lower` and `str.isdigit` follow their ASCII behaviour. `str.split()` and `str.strip()` treat space, tab, newline, vertical tab, form feed, carriage return and 0x1C to 0x1F as whitespace. Unicode case folding and non-ASCII whitespace such as U+0085 and U+00A0 are not modelled.
- Floating-point rounding is not modelled: scores and times are exact reals.
- `top_k`, `min_namespaces` and `max_namespaces` are natural numbers; negative Python slice bounds are not modelled.
- NamespaceMapper.TranslateNamespaces: returns the set of names, since `list(set(...))` lists it in hash order. Only order-independent facts are stated.
- NamespaceMapper.GetAllActualNamespaces: returns a set, for the same reason.
- VectorSearch.SemanticSearch: takes the listing of the routed set as a parameter. Which namespace is searched first among equal scores depends on set iteration order.
- Lexical.ArgsortDesc: is one concrete ranking, and the search lemmas hold for any non-increasing ranking. Numpy's order among equal scores is not modelled.
- Lexical.Build: takes the document tokeniser as a parameter, so its lemmas hold for any tokeniser. The engine passes `Lexical.Tokenizer(stop)`, the model of `_tokenize_documents_fast`. The stopword set `stop` is a parameter of `Engine.NewEngine`: NLTK's English list, or `Lexical.FallbackStopWords` when NLTK cannot be loaded. Loading NLTK is I/O.
- Engine.FastSearch: runs the corrected BM25 search `Lexical.Search` (see Findings). When the tokeniser drops a sampled document, its BM25 hits name the document that was scored. `fast_search` as written names the document at the same position of the full corpus, as `Lexical.SearchAsWritten` does. The two agree whenever no sampled document is dropped (`Lexical.AsWrittenAgreesWhenNothingDropped`).
- Engine.Miss: inherits the corrected BM25 alignment from `Engine.Retrieve`.
- Engine.Retrieve: calls `Lexical.Search`, the corrected search, not `Lexical.SearchAsWritten`.
- Prompt.Search: inherits the corrected BM25 alignment from `Engine.FastSearch`.
- DetailedChunking.UploadToPinecone: the source returns nothing. The model's counts are the group sizes it prints at intelligent_data_embedding.py:579.
- The router's worked example over the full keyword table (a query scoring two names equally, the one scored first ranked first) is not a lemma. The general tie rule is stated by `NamespaceRouter.RankNames` over the stable sort.

## Findings

| source | as written | input that shows it | evidently intended | confidence | as-written member | corrected member |
|---|---|---|---|---|---|---|
| performance_fix_hybrid_search.py:374-388 | The tokeniser (lines 182-185) drops documents with fewer than 3 tokens, but `bm25_documents` and `doc_ids` keep them. Score index i is then read against document i of the full corpus. | A namespace sample of two long-enough texts, the first with fewer than 3 tokens. The one BM25 score belongs to the second text, but the hit reports the first text's id, namespace and text. | Score index i reports the document whose tokens were scored at position i. | not executed | Lexical.SearchAsWritten / Lexical.DroppedDocumentShiftsHits | Lexical.Search / Lexical.SearchReportsScoredDocument |
