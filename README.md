# memoryagent core in Dafny

This project models the core of `memoryagent`, a tiered memory engine for conversational agents.
Memories are `MemoryItem`s owned by a user and typed Working, Episodic, Semantic or Perceptual.
They live in three storage tiers:

- Hot: the metadata table and the keyword vector index.
- ArchiveIndex: archive entries in the vector index.
- Cold: daily-notes JSON files in an object store.

The model covers these parts:

- **Write path:** a routing policy decides which stores a new memory reaches, and the indexers fill them.
- **Retrieval:** the orchestrator searches the hot tier type by type, then the archive if confidence is low, then cold payloads if confidence is still low. It hydrates, deduplicates and reranks the results and cuts them into blocks.
- **Confidence scoring:** the five components and their weighted total.
- **Write heuristic:** the rule deciding whether a conversation turn is worth storing.
- **Background workers:** consolidation, archiving, rehydration and compaction, and the `flush` that chains them.
- **Example API server:** the owner filter of the dashboard and the token budget of the chat prompt.

Files and modules:

| file | module | models |
|---|---|---|
| `pylib.dfy` | `PyLib` | the Python built-ins the core relies on: `dict.get`, slicing, `str.join`, `strip`, stable `sorted(reverse=True)` |
| `utils.dfy` | `Utils` | `tokenize`, `unique_tokens`, `safe_div`, `clamp` |
| `models.dfy` | `Models` | the pydantic models, `is_expired`, `text`, `to_item`, `RetrievalTrace` |
| `config.dfy` | `Config` | the configuration defaults and `resolved_archive_path` |
| `confidence.dfy` | `Confidence` | `evaluate_confidence` and its five components |
| `policy.dfy` | `Policy` | `HeuristicMemoryPolicy` and `MemoryRoutingPolicy` |
| `in_memory.dfy` | `InMemory` | `SimpleVectorIndex` and `SimpleGraphStore` |
| `local_disk.dfy` | `LocalDisk` | the SQLite metadata store's semantics, `FileObjectStore`, the feature log, the sqlite-vec score |
| `indexers.dfy` | `Indexers` | the episodic, semantic-graph and perceptual indexers |
| `retrieval.dfy` | `Retrieval` | `RetrievalOrchestrator` |
| `workers.dfy` | `Workers` | the four background workers |
| `system.dfy` | `System` | `MemorySystem` |
| `api_server.dfy` | `ApiServer` | the pure pieces of `examples/memory_api_server.py` |

Objects that the source updates in place are classes whose fields the methods reassign:

- the vector index and graph store;
- the metadata, object and feature stores;
- the rehydrator's access counts;
- the retrieval trace;
- the system's metrics.

Each method is specified by a function of the old state. The properties are proved about those functions. Pure code is functions and lemmas.

Conventions:

- Timestamps are whole seconds.
- The clock (`now`) and the fresh identifiers that `uuid4` would draw are parameters.
- Floating-point values are reals.
- The SQLite metadata table is a map from id to row plus the order rows were first inserted. That is the order `list_by_owner` returns them in, since the query has no `ORDER BY`.
- Python's iteration order over the query's token set is taken to be first-occurrence order. The exact-result contracts of the index query, the orchestrator and the system therefore fix one order among equal-score hits. Only `InMemory.QueryProps` and `InMemory.QueryComplete` hold for every order.

## Model

| member | source | states |
|---|---|---|
| Utils.Lower | memoryagent/utils.py:7-12 | lower-casing keeps the length of the text (ASCII lowering only) |
| Utils.LowerEach | memoryagent/utils.py:7-12 | each character is lowered on its own |
| Utils.UniqueTokens | memoryagent/utils.py:14-16 | the unique tokens are exactly the tokens of the text |
| Utils.TokensWellFormed | memoryagent/utils.py:7-12 | every token is a non-empty run of lower-case word characters |
| Utils.TokenizeWord | memoryagent/utils.py:7-12 | a run of word characters is one token, its lower-cased self |
| Utils.TokenizeSplit | memoryagent/utils.py:7-12 | a non-word character splits the text: the tokens of `a + c + b` are the tokens of `a` followed by those of `b` |
| Utils.TokenizeFlatten | memoryagent/utils.py:7-12 | the tokens, concatenated, are exactly the lowered word characters of the text, in order |
| Utils.SafeDiv | memoryagent/utils.py:18-20 | 0 for a zero denominator, otherwise the true quotient |
| Utils.Clamp | memoryagent/utils.py:22-24 | the result lies in [low, high], equals the value inside the range and the nearer bound outside it |
| Utils.Clamp01 | memoryagent/utils.py:22-24 | the default range [0, 1]: in range and the identity inside it |
| Models.NewItem | memoryagent/models.py:28-46 | a new item's defaults: hot tier, no content, no tags, no TTL, confidence, authority and stability 0.5, created and updated now |
| Models.ExpiryMonotone | memoryagent/models.py:47-51 | an item without a TTL never expires; once expired it stays expired; a non-positive TTL expires at creation |
| Models.Text | memoryagent/models.py:53-57 | the text is the string content when the content is a string, the summary otherwise |
| Models.NewEvent | memoryagent/models.py:59-72 | an event's defaults: Working type, no summary, no tags, no TTL, 0.5 scores, empty pointer |
| Models.ToItem | memoryagent/models.py:73-87 | every field is carried over; the summary is the event's non-empty summary, else the string content, else `"None"` |
| Models.ToItemText | memoryagent/models.py:53-87 | the text of a converted event is its string content, or its summary when the content is not a string |
| Models.NewQuery | memoryagent/models.py:89-95 | a text query has no type filter, top-k 10 and no time range |
| Models.DefaultPlan | memoryagent/models.py:97-109 | the retrieval plan's default thresholds and limits |
| Models.RetrievalTrace.AddStep | memoryagent/models.py:142-143 | appends one step and leaves the escalations and sources unchanged |
| Models.RetrievalTrace.AddEscalation | memoryagent/models.py:145-146 | appends one escalation and leaves the steps and sources unchanged |
| Config.DefaultConsolidation | memoryagent/config.py:11-15 | archive on flush, semantic minimum count 2, perceptual summary limit 5 |
| Config.DefaultConfig | memoryagent/config.py:17-31 | the system defaults: a working TTL of 3600 s, dimension 384, no sqlite-vec, the default plan, the cold store path |
| Config.ResolvedArchivePath | memoryagent/config.py:32-35 | the explicit archive path if set, otherwise `archive_index.json` under the cold store |
| Config.ArchivePathInColdStore | memoryagent/config.py:32-35 | the default archive path lies inside the cold store directory |
| Confidence.TopFive | memoryagent/confidence.py:10-54 | only the first five results are scored |
| Confidence.MeanBounds | memoryagent/confidence.py:10-15 | a mean of values within [lo, hi] lies within [lo, hi] |
| Confidence.SemanticBounds | memoryagent/confidence.py:10-15 | semantic relevance of scores in [0, 1] lies in [0, 1] |
| Confidence.CoverageBounds | memoryagent/confidence.py:17-25 | coverage lies in [0, 1] and is 1 exactly when every query token occurs in the top five texts |
| Confidence.Freshness | memoryagent/confidence.py:27-36 | a freshness lies in (0, 1] and is 1 for items not older than now |
| Confidence.FreshnessDecays | memoryagent/confidence.py:27-36 | an older item is never fresher |
| Confidence.TemporalBounds | memoryagent/confidence.py:27-36 | temporal fit lies in [0, 1] and is positive when there are results |
| Confidence.AuthorityAll | memoryagent/confidence.py:38-43 | each result's authority is half its authority plus half its stability |
| Confidence.AuthorityBounds | memoryagent/confidence.py:38-43 | authority of well-scored results lies in [0, 1] |
| Confidence.ConsistencyBounds | memoryagent/confidence.py:45-54 | consistency lies in [0, 1] and is 1 exactly when all non-empty tag sets are equal |
| Confidence.RecommendMonotone | memoryagent/confidence.py:65-72 | a higher total never gets a weaker recommendation |
| Confidence.Evaluate | memoryagent/confidence.py:56-82 | the total lies in [0, 1] and the recommendation is the band of the total |
| Confidence.EvaluateBounds | memoryagent/confidence.py:56-82 | every component lies in [0, 1] and the total is their weighted sum |
| Confidence.OnlyTopFive | memoryagent/confidence.py:10-63 | results beyond the fifth never change the report |
| Confidence.EvaluateEmpty | memoryagent/confidence.py:56-82 | with no results the report is total 0.05, with every component 0 except consistency 0.5, and "uncertain" |
| Policy.ToEvent | memoryagent/policy.py:31-39 | no event iff the decision does not store or has no summary; otherwise the event carries the summary, type and tags |
| Policy.ToEventItem | memoryagent/policy.py:31-39 | the stored item's summary and text are the decision's summary |
| Policy.DefaultHeuristicPolicy | memoryagent/policy.py:45-58 | the default thresholds 24, 0.65 and 0.8 and the preference keywords |
| Policy.LowerDefaultKeywords | memoryagent/policy.py:45-58 | lower-casing the default keywords leaves them unchanged |
| Policy.HistoryEntryText | memoryagent/policy.py:107-115 | a string entry is itself; a user/assistant dict is `User: … Assistant: …`; a role/text dict is `role: text`; anything else is its repr |
| Policy.OverlapRatioProps | memoryagent/policy.py:95-100 | the overlap lies in [0, 1], is symmetric, and is 1 exactly when both token sets are equal |
| Policy.Summarize | memoryagent/policy.py:102-105 | a preference is summarised as the user's words; other turns as question and reply |
| Policy.Reasons | memoryagent/policy.py:60-93 | each reason is listed exactly when its condition holds, without repeats |
| Policy.ShouldStoreDecision | memoryagent/policy.py:60-93 | Semantic iff a preference keyword occurs; store iff preference, or long enough and novel enough; reasons, tags and summary as listed |
| Policy.RepeatedTurnNotStored | memoryagent/policy.py:60-93 | a non-preference turn that repeats the last history entry word for word is not stored |
| Policy.DefaultRoutingPolicy | memoryagent/policy.py:130-140 | the default confidence thresholds 0.4, 0.55, 0.5 and 0.45 |
| Policy.Route | memoryagent/policy.py:142-171 | each write flag holds iff its threshold and type condition hold; each skip reason is listed iff its flag is off |
| Policy.DefaultRoutingNests | memoryagent/policy.py:130-171 | under the defaults, cold implies vector implies hot, and features imply hot |
| InMemory.AddPosting | memoryagent/storage/in_memory.py:20-26 | appending an id keeps the old list as a prefix and adds only that id |
| InMemory.UpsertProps | memoryagent/storage/in_memory.py:20-26 | after an upsert, every token of the text lists the id exactly once, other postings are unchanged, and the index stays consistent |
| InMemory.DeleteProps | memoryagent/storage/in_memory.py:28-36 | after a delete, no posting lists the id, other ids keep their counts, only lists left empty are dropped, and the index stays consistent |
| InMemory.TallyTokensCount | memoryagent/storage/in_memory.py:38-50 | each candidate's count is the number of query tokens whose postings list it |
| InMemory.QueryTokens | memoryagent/storage/in_memory.py:38-42 | the query tokens are the tokens of the text without repeats |
| InMemory.QueryProps | memoryagent/storage/in_memory.py:38-72 | results are sorted by score, at most `limit`, each passes the filters, scored matches/tokens in (0, 1]; no tokens means no results |
| InMemory.KeptIds | memoryagent/storage/in_memory.py:48-58 | the candidates that get past the filters are those passing them, in order and without repeats |
| InMemory.KeptCandidatesProps | memoryagent/storage/in_memory.py:43-58 | the candidates that pass the filters are exactly the indexed ids some query token names that pass the filters, once each |
| InMemory.ScoreAllExact | memoryagent/storage/in_memory.py:48-69 | when the loop does not raise, `scored` is the hit of every candidate passing the filters, in candidate order, scored matches/tokens |
| InMemory.QueryHits | memoryagent/storage/in_memory.py:38-72 | a query with tokens returns the first `limit` of those hits sorted by score |
| InMemory.TopHits | memoryagent/storage/in_memory.py:71-72 | the first `limit` sorted hits number `min(limit, n)` and hold every hit not outscored by `limit` others |
| InMemory.QueryComplete | memoryagent/storage/in_memory.py:38-72 | no match is missed: `min(limit, n)` results for the `n` matching ids that pass the filters, each one's hit returned unless `limit` hits scoring at least as high were |
| InMemory.QueryRaises | memoryagent/storage/in_memory.py:38-72 | the query raises TypeError exactly when the types filter is None and a matching entry passes the owner and tier filters |
| InMemory.SimpleVectorIndex.constructor | memoryagent/storage/in_memory.py:15-18 | an empty, consistent index |
| InMemory.SimpleVectorIndex.Upsert | memoryagent/storage/in_memory.py:20-26 | records the text and metadata and adds the id to the postings of each unique token |
| InMemory.SimpleVectorIndex.Delete | memoryagent/storage/in_memory.py:28-36 | removes the text, metadata and postings of the id |
| InMemory.SimpleVectorIndex.Query | memoryagent/storage/in_memory.py:38-72 | the loop computes the query specification |
| InMemory.FactKeyHasPrefix | memoryagent/storage/in_memory.py:79-88 | a fact's key starts with its subject's prefix |
| InMemory.RelatedContains | memoryagent/storage/in_memory.py:83-88 | every object of a key with the prefix is related |
| InMemory.RelatedOnly | memoryagent/storage/in_memory.py:83-88 | only objects of keys with the prefix are related |
| InMemory.SimpleGraphStore.UpsertFact | memoryagent/storage/in_memory.py:79-81 | appends the object under the fact key, which joins the key order if new |
| InMemory.SimpleGraphStore.QueryRelated | memoryagent/storage/in_memory.py:83-88 | the first `limit` objects under keys with the subject's prefix |
| InMemory.UpsertThenRelated | memoryagent/storage/in_memory.py:79-88 | a fact just stored is related to its subject |
| LocalDisk.ResolvePathProps | memoryagent/storage/local_disk.py:172-179 | a resolved path ends in `.json`; an absolute key is kept; a relative key goes under the root; the suffix is added once |
| LocalDisk.ReturnedPathResolution | memoryagent/storage/local_disk.py:155-200 | resolving a returned path again is the identity under an absolute root or key, and prefixes a relative root once more otherwise |
| LocalDisk.AppendProps | memoryagent/storage/local_disk.py:184-200 | an append leaves the old entries as a prefix (or starts afresh), adds the payload last, and touches no other file |
| LocalDisk.FileObjectStore.Put | memoryagent/storage/local_disk.py:155-161 | writes the payload at the resolved path and returns that path |
| LocalDisk.FileObjectStore.Get | memoryagent/storage/local_disk.py:166-170 | a missing file is None; otherwise the parsed content or a decode error |
| LocalDisk.FileObjectStore.Append | memoryagent/storage/local_disk.py:184-200 | the file becomes its existing list plus the payload; a missing, unreadable or non-list file starts from the empty list |
| LocalDisk.OwnedByMembers | memoryagent/storage/local_disk.py:116-122 | the listing is exactly the owner's rows, without repeats |
| LocalDisk.MetadataStore.Upsert | memoryagent/storage/local_disk.py:47-91 | the row is replaced by the item with `updated_at` now; a new id joins the order |
| LocalDisk.MetadataStore.Get | memoryagent/storage/local_disk.py:96-104 | the stored row, or None |
| LocalDisk.MetadataStore.Delete | memoryagent/storage/local_disk.py:109-111 | the row is gone |
| LocalDisk.MetadataStore.ListByOwner | memoryagent/storage/local_disk.py:116-122 | the owner's rows in insertion order, all of them and only them |
| LocalDisk.MetadataStore.UpdateAccess | memoryagent/storage/local_disk.py:139-145 | only `last_accessed` of an existing row changes |
| LocalDisk.FeatureStore.WriteFeature | memoryagent/storage/local_disk.py:222-227 | appends one feature row stamped now |
| LocalDisk.VecScoreProps | memoryagent/storage/local_disk.py:340-373 | the score 1/(1+distance) lies in (0, 1], is 1 iff the distance is 0, and falls as the distance grows |
| Indexers.MetaFor | memoryagent/indexers.py:16-29 | the index metadata records the item's owner, type and the given tier |
| Indexers.EpisodicIndexer.IndexHot | memoryagent/indexers.py:16-21 | indexes the item's text as a Hot entry |
| Indexers.EpisodicIndexer.IndexArchive | memoryagent/indexers.py:23-29 | indexes the item's summary as an ArchiveIndex entry |
| Indexers.SemanticGraphIndexer.Index | memoryagent/indexers.py:37-45 | a Semantic item with at least two tags adds its remaining tags under its first tag; nothing else changes the graph |
| Indexers.IndexedTagsRelated | memoryagent/indexers.py:37-45 | every tag indexed is then related to the first tag |
| Indexers.FeatureOf | memoryagent/indexers.py:53-61 | the feature carries the summary, tags and confidence |
| Indexers.PerceptualIndexer.Index | memoryagent/indexers.py:53-61 | only a Perceptual item writes one feature row |
| Retrieval.HotTypes | memoryagent/retrieval.py:40 | the query's types if non-empty, otherwise all four types |
| Retrieval.PerTypeLimit | memoryagent/retrieval.py:41 | at least 1; the largest share of `hot_top_k` each type can get |
| Retrieval.HotSpecProps | memoryagent/retrieval.py:39-53 | the hot search succeeds, returns at most types × limit results, all Hot |
| Retrieval.HotSearch | memoryagent/retrieval.py:39-53 | the per-type loop computes the hot specification |
| Retrieval.ColdCandidates | memoryagent/retrieval.py:73-75 | the first `cold_fetch_limit` archive results scoring at least the minimum |
| Retrieval.PayloadFor | memoryagent/retrieval.py:85 | the first daily-notes entry with the item's id, or None when there is none |
| Retrieval.ColdFetchProps | memoryagent/retrieval.py:76-92 | each hit is a candidate's item moved to Cold with its content replaced; hits plus warnings never exceed candidates |
| Retrieval.ColdFetchSteps | memoryagent/retrieval.py:76-92 | the loop succeeds iff every candidate's step does; its hits are the hydrated candidates and its warnings the warned ones, in candidate order |
| Retrieval.ColdFetchError | memoryagent/retrieval.py:76-81 | a failed loop reports the first unreadable payload's error |
| Retrieval.ColdStepHit | memoryagent/retrieval.py:76-90 | a hit comes from the file its `object_key` names; its content is the first daily-notes entry with the item's id, or the stored record or value |
| Retrieval.ColdStepWarn | memoryagent/retrieval.py:79-87 | a warning iff the pointer's file is missing or null, or is a daily-notes list without the id; the missing-object message iff the file is missing or null |
| Retrieval.RetrievalOrchestrator.FetchCold | memoryagent/retrieval.py:76-92 | the loop computes the cold specification |
| Retrieval.HydrateProps | memoryagent/retrieval.py:135-146 | items with content and tags are kept; others are replaced by the stored row when there is one |
| Retrieval.RetrievalOrchestrator.HydrateAll | memoryagent/retrieval.py:135-146 | the loop computes the hydration specification |
| Retrieval.DedupeProps | memoryagent/retrieval.py:148-154 | one result per id, in first-seen order, each the earliest highest-scoring of its id |
| Retrieval.RetrievalOrchestrator.DedupeAll | memoryagent/retrieval.py:148-154 | the loop computes the deduplication specification |
| Retrieval.RerankProps | memoryagent/retrieval.py:112-117 | a stable descending sort by the blended score, a permutation, cut to `max_results` |
| Retrieval.ToBlocksProps | memoryagent/retrieval.py:119-133 | one block per result, carrying its text, id, type, tier, score, owner and tags |
| Retrieval.AfterArchiveProps | memoryagent/retrieval.py:59-95 | the archive tier is used iff the archive returned results; the cold tier iff confidence stayed low and there were candidates; hot and archive results come first |
| Retrieval.ConfidentStaysHot | memoryagent/retrieval.py:54-59 | confident hot results end the search in the hot tier |
| Retrieval.GatherEscalation | memoryagent/retrieval.py:59-65 | low hot confidence searches the archive, and an archive error fails the retrieval |
| Retrieval.AfterArchiveTiers | memoryagent/retrieval.py:59-95 | cold candidates come from the archive hits, so the cold tier is never used without the archive tier |
| Retrieval.GatherTierOrder | memoryagent/retrieval.py:54-95 | the tiers used are Hot, then possibly the archive, then possibly Cold (only after the archive), in that order |
| Retrieval.ArchiveTypesNoneRaises | memoryagent/retrieval.py:59-65 | a query without types that escalates and matches an archive entry fails with TypeError |
| Retrieval.PipelineResults | memoryagent/retrieval.py:97-110 | results have distinct ids, are sorted by rerank score, are at most `max_results`, pair one-to-one with blocks, and give up to ten sources |
| Retrieval.RetrievalOrchestrator.Retrieve | memoryagent/retrieval.py:33-110 | the bundle and trace are the pipeline specification's, and an error is the specification's error |
| Workers.UpsertRowsProps | memoryagent/workers.py:24-77 | upserting a batch adds its ids, keeps every other row, and stores each item with `updated_at` now |
| Workers.DeleteRowsProps | memoryagent/workers.py:162-169 | deleting a batch removes exactly its ids |
| Workers.IndexAllProps | memoryagent/workers.py:24-120 | indexing a batch adds its ids with their metadata and text and keeps every other entry |
| Workers.HotOfTypeMembers | memoryagent/workers.py:26-27 | the selection is exactly the hot items of the type |
| Workers.SummaryItemsProps | memoryagent/workers.py:31-53 | at most two summaries: a session summary iff there are hot Working items, a perceptual summary iff there are hot Perceptual items |
| Workers.CountTagsKeys | memoryagent/workers.py:55-57 | the counter's keys are the distinct tags in first-seen order |
| Workers.CountTagsCounts | memoryagent/workers.py:55-57 | each count is the number of occurrences of the tag |
| Workers.RecurringTags | memoryagent/workers.py:59-70 | a derived semantic item is created for a tag iff its count reaches the minimum |
| Workers.Consolidate | memoryagent/workers.py:24-77 | the created items are derived, owned and fresh, and there are at most two plus the distinct tags |
| Workers.ConsolidateSummaries | memoryagent/workers.py:24-77 | the two summaries are created exactly when their source items exist |
| Workers.ConsolidateRecurring | memoryagent/workers.py:24-77 | a recurring-tag item exists exactly for the tags that recur often enough |
| Workers.ConsolidateRepeats | memoryagent/workers.py:24-77 | the created items never feed the next run's summaries |
| Workers.CountLoop | memoryagent/workers.py:55-57 | the counting loop computes the tag counter |
| Workers.RecurringLoop | memoryagent/workers.py:59-70 | the loop computes the recurring-tag items |
| Workers.ConsolidationWorker.RunOnce | memoryagent/workers.py:24-77 | stores and indexes, as Hot, exactly the consolidation of the owner's rows |
| Workers.ConsolidationKeepsRows | memoryagent/workers.py:24-77 | consolidation keeps every existing row and adds the created items as they are |
| Workers.PayloadOf | memoryagent/workers.py:99-107 | the archived payload records the id, summary, content, tags, type, owner and creation time |
| Workers.ToArchiveMembers | memoryagent/workers.py:92-93 | the owner's hot non-Working items are selected, and only those |
| Workers.ArchivedProps | memoryagent/workers.py:96-115 | an archived item is Cold, updated now, and points at its daily-notes file, with everything else unchanged |
| Workers.AppendAllHolds | memoryagent/workers.py:96-111 | every archived item's payload is in its daily-notes file |
| Workers.AppendAllKeeps | memoryagent/workers.py:96-111 | earlier daily-notes entries stay |
| Workers.ArchiverWorker.RunOnce | memoryagent/workers.py:91-120 | appends, stores and indexes (as ArchiveIndex) exactly the archived selection |
| Workers.ToWarmMembers | memoryagent/workers.py:139-145 | Cold items accessed at least the threshold number of times are warmed, and only those |
| Workers.WarmStep | memoryagent/workers.py:138-156 | each item warms on its own, as itself moved to Hot and updated now |
| Workers.RehydratorWorker.RecordAccess | memoryagent/workers.py:134-136 | the item's access count grows by one |
| Workers.RehydratorWorker.RunOnce | memoryagent/workers.py:138-156 | stores and indexes, as Hot, exactly the warmed items |
| Workers.ExpiredOfMembers | memoryagent/workers.py:162-169 | the expired items are exactly those past their TTL |
| Workers.Compactor.RunOnce | memoryagent/workers.py:162-169 | deletes exactly the owner's expired rows |
| Workers.CompactExactly | memoryagent/workers.py:162-169 | after compaction the rows left are exactly those not owned-and-expired, unchanged |
| System.CoerceEvent | memoryagent/system.py:167-174 | an item passes through; an event or dict is converted; any other payload is UnsupportedPayload |
| System.ResolveQuery | memoryagent/system.py:128-132 | a text query needs a non-empty owner, else OwnerRequired |
| System.WithWorkingTtl | memoryagent/system.py:96-101 | only a Working item without a TTL gets the configured TTL; nothing else changes |
| System.WorkingWriteExpires | memoryagent/system.py:96-101 | a Working write expires exactly the configured TTL after its creation |
| System.WriteFollowsRouting | memoryagent/system.py:96-123 | the item reaches the table, the index and the feature log exactly when routing says so |
| System.PipelineTiers | memoryagent/retrieval.py:54-95 | a successful retrieval uses Hot, Hot+archive or Hot+archive+Cold |
| System.CountRetrieveOk | memoryagent/system.py:134-144 | each retrieval counts one request and one hot hit, an escalation and a cold fetch when those tiers were used, and the metrics stay ordered |
| System.UpsertRowsOk | memoryagent/storage/local_disk.py:47-91 | batch upserts keep the table's order and rows consistent |
| System.DeleteRowsOk | memoryagent/storage/local_disk.py:109-111 | batch deletes keep the table's order and rows consistent |
| System.ArchivedIdsExact | memoryagent/workers.py:92-93 | a flush archives exactly the owner's hot non-Working rows |
| System.ArchiveLeavesOnlyWorkingHot | memoryagent/workers.py:91-120 | after archiving, the owner's non-Working rows are not Hot, other owners are untouched, and no row appears or disappears |
| System.FlushLeavesOnlyWorkingHot | memoryagent/system.py:150-155 | with archive-on-flush, only Working rows of the owner remain Hot after a flush |
| System.MemorySystem.constructor | memoryagent/system.py:26-91 | components wired over shared stores, zero metrics, no accesses counted |
| System.MemorySystem.WriteAsync | memoryagent/system.py:96-108 | an unsupported payload changes nothing; otherwise the routed write effect, with the working TTL filled in |
| System.MemorySystem.WritePerceptualAsync | memoryagent/system.py:113-123 | the item forced Perceptual and routed, without the semantic indexer |
| System.MemorySystem.RetrieveAsync | memoryagent/system.py:128-145 | the pipeline's bundle: the query text, results, blocks, tiers, confidence, warnings and a fresh trace of its step, escalations and sources; metrics updated only on success |
| System.MemorySystem.FlushAsync | memoryagent/system.py:150-155 | consolidate, then archive if configured, then compact |
| System.MemorySystem.RecordAccess | memoryagent/system.py:157-159 | counts the access and stamps `last_accessed` |
| System.MemorySystem.Rehydrate | memoryagent/system.py:161-165 | warms the owner's frequently accessed cold rows and counts a thrash iff any warmed |
| ApiServer.Split | memoryagent/examples/memory_api_server.py:101 | pieces without the separator, the whole text when it is absent |
| ApiServer.SplitJoin | memoryagent/examples/memory_api_server.py:101 | joining the pieces with the separator gives back the text |
| ApiServer.JoinSplit | memoryagent/examples/memory_api_server.py:169-172 | splitting a join of pieces that hold no separator gives back the pieces |
| ApiServer.FirstOwner | memoryagent/examples/memory_api_server.py:101-104 | None iff no part starts with `owner=` |
| ApiServer.FirstOwnerIsFirst | memoryagent/examples/memory_api_server.py:101-104 | the first `owner=` part wins |
| ApiServer.OwnerParamRoundTrip | memoryagent/examples/memory_api_server.py:98-104 | no query string names no owner; `?owner=o` names `o` |
| ApiServer.FilterPayload | memoryagent/examples/memory_api_server.py:105-113 | with an owner, each list keeps exactly its matching rows; without one, the payload is unchanged |
| ApiServer.FilterAppend | memoryagent/examples/memory_api_server.py:105-113 | filtering a concatenation filters each part, so the kept rows stay in payload order |
| ApiServer.FilterCount | memoryagent/examples/memory_api_server.py:105-113 | filtering keeps each kept row's multiplicity and drops the others |
| ApiServer.ColdFilterKeepsOwnerDirectory | memoryagent/examples/memory_api_server.py:110-113 | cold records under the owner's directory are kept |
| ApiServer.ColdFilterMatchesAnySegment | memoryagent/examples/memory_api_server.py:105-113 | a cold record is also kept for an owner named like its year or month directory |
| ApiServer.LineTokensExact | memoryagent/examples/memory_api_server.py:161-164 | a block line costs one token more than the block's text |
| ApiServer.PackBlocks | memoryagent/examples/memory_api_server.py:157-168 | a prefix of the block lines within the budget, stopping at the first block that would overflow it |
| ApiServer.MemoryContext | memoryagent/examples/memory_api_server.py:169 | `None.` when nothing fitted, the line itself for one line; for newline-free lines, splitting the context on newlines gives back the lines |
| ApiServer.HistoryText | memoryagent/examples/memory_api_server.py:170-172 | `None.` for an empty history; one entry renders as its history text; for newline-free entries, splitting on newlines gives the rendered last six entries |
| Policy.EntryTexts | memoryagent/examples/memory_api_server.py:51-59 | the server renders each history entry exactly as the policy does |

## Left out

- Async wrappers, `_run_async` and the thread executors are left out: each operation is modelled as one synchronous step, and concurrent use is not modelled.
- SQLite itself is left out. The metadata store is modelled by its semantics (a row map plus insertion order), and the row (de)serialisation `_row_to_item` and `datetime_from_iso` are left out.
- `SQLiteVecIndex` is left out apart from its distance-to-score conversion (`VecScore`), because the KNN search runs in a native extension.
- `SQLiteFeatureStore.query_features` is left out: no modelled operation reads features back.
- `list_by_owner_and_type` is left out: no modelled caller uses it.
- `hash_embed` and all embeddings are left out, because they are floating-point hashing used only by the sqlite-vec index.
- Floating point is modelled as reals, so rounding is left out.
- The wall clock (`utc_now`) and `uuid4` are left out; they are parameters (`now`, `id`, `newId`).
- `MemorySystem.__init__`'s construction of default stores from paths, and `resolve_paths`, are left out. The constructor receives the stores.
- `storage/base.py` (abstract interfaces), `memoryagent/__init__.py`, and the examples `openai_agent.py`, `export_memory.py` and `minimal.py` are not part of this model.
- The HTTP handler, the OpenAI calls, prompt assembly and the per-owner session dictionary of `memory_api_server.py` are left out; only the pure pieces are modelled.
- Dashboard payload values that are not strings are left out; a row is a map from field names to string values.
- Models.TypeValue: the prompt line renders a memory type by its value (`working`). Python 3.12 and later render a `str`-mixin enum in an f-string as `MemoryType.WORKING`, which is not modelled.
- System.MemorySystem.WriteAsync: the caller's `MemoryItem` object is mutated in place by the source (TTL, `updated_at`). The model returns the stored copy instead, so aliasing with the caller is not modelled.
- System.MemorySystem.Rehydrate: the rehydrator's access threshold is fixed at the source's default of 3.
- Workers.RehydratorWorker.RunOnce: access counts are never reset after warming, as in the source.
- Utils.Lower: lowers the ASCII letters only, one character each. Python's `str.lower()` also lowers other letters and can lengthen a text (`İ` lowers to two characters). `tokenize` is exact all the same, since its tokens hold only ASCII word characters. The difference reaches only the policy's keyword test (see the next line).
- InMemory.SimpleVectorIndex.Query: the source fills its candidate counts by iterating the set of query tokens, in hash order, which can change between processes. With a `limit` that cuts through equal scores, which ties are kept and in what order follows that hash order. The model fixes it as the tokens' first-occurrence order.
- Policy.ShouldStoreDecision: matches the preference keywords against the ASCII-lowered turn, so a keyword or text with non-ASCII capitals can decide differently from the source.
- Config.ResolvedArchivePath: joins paths as plain strings with `/`. The `pathlib` normalisation of separators, `.` and trailing slashes is not modelled.
- LocalDisk.ResolvePath: joins the root and key as plain strings with `/`, without `pathlib` normalisation of repeated separators or `.` segments.
- JSON and pydantic validation are left out. Payloads are a small JSON datatype, and an unreadable file is a single `Unparseable` value.
