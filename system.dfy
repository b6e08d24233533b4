/** memoryagent/system.py: `MemorySystem`, the facade that wires the stores,
    the indexers, the routing policy, the retrieval orchestrator and the
    four workers together. Writes are gated by the routing decision,
    retrievals update the metric counters, and a flush runs consolidation,
    archiving and compaction in that order. Every `*_async` method is a
    plain sequential method here; the clock and the `uuid4()` draws are
    parameters. */
module System {
  import opened PyLib
  import opened Utils
  import opened Models
  import opened Config
  import opened Policy
  import opened InMemory
  import opened LocalDisk
  import opened Indexers
  import opened Retrieval
  import opened Workers

  // ---------------------------------------------------------------
  // Inputs and errors
  // ---------------------------------------------------------------

  /** What `write_async` accepts: an item, an event, a dict of event fields
      (already validated into an event), or anything else. */
  datatype WriteInput = FromItem(item: MemoryItem) | FromEvent(event: MemoryEvent) | FromDict(fields: MemoryEvent) | Unsupported

  /** What `retrieve_async` accepts: a query object or a bare string. */
  datatype QueryInput = FromQuery(query: MemoryQuery) | FromText(text: string)

  /** The exceptions the facade raises: `TypeError` for an unsupported
      payload, `ValueError` for a string query without an owner, and
      whatever the retrieval raised. */
  datatype SystemError = UnsupportedPayload | OwnerRequired | RetrieveFailed(e: RetrieveError)

  /** `_coerce_event(event)`; `id` and `now` stand for what `to_item()`
      draws. */
  function CoerceEvent(input: WriteInput, id: string, now: int): (r: Result<MemoryItem, SystemError>)
    ensures input.FromItem? ==> r == Ok(input.item)
    ensures input.FromEvent? ==> r == Ok(ToItem(input.event, id, now))
    ensures input.FromDict? ==> r == Ok(ToItem(input.fields, id, now))
    ensures r.Err? <==> input.Unsupported?
    ensures r.Err? ==> r.error == UnsupportedPayload
  {
    match input
    case FromItem(item) => Ok(item)
    case FromEvent(e) => Ok(ToItem(e, id, now))
    case FromDict(e) => Ok(ToItem(e, id, now))
    case Unsupported => Err(UnsupportedPayload)
  }

  /** The query `retrieve_async` runs: the object as given, or a default
      query for the text and the owner; a string without an owner (or
      with an empty one) is refused. */
  function ResolveQuery(input: QueryInput, owner: Option<string>): (r: Result<MemoryQuery, SystemError>)
    ensures input.FromQuery? ==> r == Ok(input.query)
    ensures input.FromText? && owner.Some? && owner.value != "" ==> r == Ok(NewQuery(input.text, owner.value))
    ensures r.Err? <==> input.FromText? && (owner.None? || owner.value == "")
    ensures r.Err? ==> r.error == OwnerRequired
  {
    match input
    case FromQuery(q) => Ok(q)
    case FromText(text) =>
      if owner.None? || owner.value == "" then Err(OwnerRequired) else Ok(NewQuery(text, owner.value))
  }

  /** A working item without a ttl gets the configured one; every other
      item is left as it is. */
  function WithWorkingTtl(item: MemoryItem, ttl: int): (r: MemoryItem)
    ensures r.(ttlSeconds := item.ttlSeconds) == item
    ensures item.ttlSeconds.Some? ==> r.ttlSeconds == item.ttlSeconds
    ensures item.mtype != Working ==> r.ttlSeconds == item.ttlSeconds
    ensures r.mtype == Working ==> r.ttlSeconds.Some?
    ensures item.mtype == Working && item.ttlSeconds.None? ==> r.ttlSeconds == Some(ttl)
  {
    if item.mtype == Working && item.ttlSeconds.None? then item.(ttlSeconds := Some(ttl)) else item
  }

  /** A working item written with no ttl of its own lives exactly
      `working_ttl_seconds`: the compactor leaves it alone before then and
      removes it from that moment on. */
  lemma WorkingWriteExpires(item: MemoryItem, ttl: int, now: int)
    requires item.mtype == Working && item.ttlSeconds.None?
    ensures IsExpired(WithWorkingTtl(item, ttl), now) <==> now >= item.createdAt + ttl
  {
  }

  // ---------------------------------------------------------------
  // The stores as one value
  // ---------------------------------------------------------------

  /** The graph store's contents. */
  datatype Graph = Graph(edges: map<string, seq<string>>, order: seq<string>)

  /** What `SemanticGraphIndexer.index(item)` does to the graph. */
  function IndexFacts(g: Graph, item: MemoryItem): (r: Graph)
    ensures !WritesFacts(item) ==> r == g
  {
    if !WritesFacts(item) then g
    else
      var key := TagKey(item);
      Graph(g.edges[key := Get(g.edges, key, []) + item.tags[1..]], if key in g.edges then g.order else g.order + [key])
  }

  /** Everything a write can touch. */
  datatype Stores = Stores(table: Table, index: IndexState, features: seq<FeatureRow>, graph: Graph)

  /** The item as the caller gets it back: the metadata upsert stamps
      `updated_at` on it. */
  function Stored(item: MemoryItem, d: RoutingDecision, now: int): MemoryItem
  {
    if d.writeHot then item.(updatedAt := now) else item
  }

  /** The writes `write_async` issues for a routed item, in order:
      metadata, vector index, feature store, and (when `semantic` is set)
      the semantic graph. */
  function WriteEffect(s: Stores, item: MemoryItem, d: RoutingDecision, now: int, semantic: bool): Stores
  {
    var stored := Stored(item, d, now);
    Stores(if d.writeHot then UpsertRow(s.table, item, now) else s.table,
           if d.writeVector then IndexEntry(s.index, stored, Hot) else s.index,
           s.features + (if d.writeFeatures && stored.mtype == Perceptual then [FeatureRow(stored.owner, now, FeatureOf(stored))] else []),
           if semantic then IndexFacts(s.graph, stored) else s.graph)
  }

  /** A routed write lands exactly where the routing decision says: the
      item is in the metadata table iff its confidence reaches
      `hot_min_confidence`, it is a hot entry of the vector index iff it
      also reaches `vector_min_confidence` and is not working memory, and
      exactly one feature row is added iff it is perceptual and reaches
      `feature_min_confidence`; nothing is written for a store the
      decision skips. */
  lemma WriteFollowsRouting(s: Stores, p: RoutingPolicy, item: MemoryItem, now: int, semantic: bool)
    requires item.id !in s.table.rows && item.id !in s.index.metadata
    ensures var d := Route(p, item);
      var w := WriteEffect(s, item, d, now, semantic);
      && (item.id in w.table.rows <==> item.confidence >= p.hotMinConfidence)
      && (item.id in w.table.rows ==> w.table.rows[item.id] == item.(updatedAt := now))
      && (item.confidence < p.hotMinConfidence ==> w.table == s.table)
      && (item.id in w.index.metadata <==> item.confidence >= p.vectorMinConfidence && item.mtype != Working)
      && (item.id in w.index.metadata ==> w.index.metadata[item.id].tier == Hot && w.index.texts[item.id] == Text(item))
      && (item.mtype == Working ==> w.index == s.index && w.features == s.features)
      && (|w.features| == |s.features| + 1 <==> item.mtype == Perceptual && item.confidence >= p.featureMinConfidence)
      && (|w.features| != |s.features| + 1 ==> w.features == s.features)
  {
  }

  // ---------------------------------------------------------------
  // Metrics
  // ---------------------------------------------------------------

  /** The `metrics` dict. */
  datatype Metrics = Metrics(
    requests: int,
    hotHit: int,
    archiveEscalation: int,
    coldFetch: int,
    thrashDetected: int,
    tokensReturned: int,
    tokensSavedEstimate: int)

  function ZeroMetrics(): (r: Metrics)
    ensures r.requests == 0 && r.hotHit == 0 && r.archiveEscalation == 0 && r.coldFetch == 0
    ensures r.thrashDetected == 0 && r.tokensReturned == 0 && r.tokensSavedEstimate == 0
  {
    Metrics(0, 0, 0, 0, 0, 0, 0)
  }

  /** The tokens a bundle's blocks return. */
  function BlockTokens(blocks: seq<MemoryBlock>): nat
  {
    if blocks == [] then 0 else BlockTokens(blocks[..|blocks| - 1]) + |Tokenize(blocks[|blocks| - 1].text)|
  }

  /** The counters after one retrieval that used `usedTiers` and returned
      `blocks`. */
  function CountRetrieve(m: Metrics, usedTiers: seq<StorageTier>, blocks: seq<MemoryBlock>, maxResults: int): Metrics
  {
    var returned := BlockTokens(blocks);
    m.(requests := m.requests + 1,
       archiveEscalation := m.archiveEscalation + (if ArchiveIndex in usedTiers then 1 else 0),
       coldFetch := m.coldFetch + (if Cold in usedTiers then 1 else 0),
       hotHit := m.hotHit + (if usedTiers != [] && usedTiers[0] == Hot then 1 else 0),
       tokensReturned := m.tokensReturned + returned,
       tokensSavedEstimate := m.tokensSavedEstimate + Max(0, maxResults * 50 - returned))
  }

  /** What the counters always satisfy, since every retrieval starts in
      the hot tier and only reaches the cold tier through the archive:
      `hot_hit` equals `requests`, and `cold_fetch <= archive_escalation <=
      requests`. */
  predicate MetricsOk(m: Metrics)
  {
    && 0 <= m.coldFetch <= m.archiveEscalation <= m.requests
    && m.hotHit == m.requests
    && 0 <= m.thrashDetected && 0 <= m.tokensReturned && 0 <= m.tokensSavedEstimate
  }

  /** The tiers a successful retrieval reports: the hot tier first, then
      the archive tier, then the cold tier only after the archive. */
  lemma PipelineTiers(p: Postings, m: map<string, IndexMeta>, rows: map<string, MemoryItem>, files: map<string, FileData>,
                      root: string, plan: RetrievalPlan, q: MemoryQuery, now: int)
    ensures var r := Pipeline(p, m, rows, files, root, plan, q, now);
      r.Ok? ==> r.value.usedTiers in [[Hot], [Hot, ArchiveIndex], [Hot, ArchiveIndex, Cold]]
  {
    GatherTierOrder(p, m, files, root, plan, q, now);
  }

  /** Counting a retrieval keeps the counters consistent. */
  lemma CountRetrieveOk(m: Metrics, usedTiers: seq<StorageTier>, blocks: seq<MemoryBlock>, maxResults: int)
    requires MetricsOk(m)
    requires usedTiers in [[Hot], [Hot, ArchiveIndex], [Hot, ArchiveIndex, Cold]]
    ensures var r := CountRetrieve(m, usedTiers, blocks, maxResults);
      && MetricsOk(r)
      && r.requests == m.requests + 1 && r.hotHit == m.hotHit + 1
      && r.archiveEscalation == m.archiveEscalation + (if |usedTiers| >= 2 then 1 else 0)
      && r.coldFetch == m.coldFetch + (if |usedTiers| == 3 then 1 else 0)
      && r.tokensReturned + r.tokensSavedEstimate >= m.tokensReturned + m.tokensSavedEstimate + maxResults * 50
      && r.thrashDetected == m.thrashDetected
  {
  }

  // ---------------------------------------------------------------
  // Flush
  // ---------------------------------------------------------------

  /** The stores the lifecycle workers touch. */
  datatype Persisted = Persisted(table: Table, index: IndexState, files: map<string, FileData>)

  /** A metadata table as the store keeps it: the order lists each id
      once, exactly the ids with rows, and each row sits under its own
      id. */
  ghost predicate TableOk(t: Table)
  {
    && NoDups(t.order)
    && (forall k :: k in t.order <==> k in t.rows)
    && (forall k | k in t.rows :: t.rows[k].id == k)
  }

  lemma {:induction false} UpsertRowsOk(t: Table, items: seq<MemoryItem>, now: int)
    requires TableOk(t)
    ensures TableOk(UpsertRows(t, items, now))
  {
    if items != [] {
      var init := items[..|items| - 1];
      var x := items[|items| - 1];
      UpsertRowsOk(t, init, now);
      var t1 := UpsertRows(t, init, now);
      if x.id !in t1.rows {
        var o := t1.order + [x.id];
        forall i, j | 0 <= i < j < |o| ensures o[i] != o[j] {
          if j == |t1.order| {
            assert o[i] == t1.order[i] && t1.order[i] in t1.rows;
          } else {
            assert o[i] == t1.order[i] && o[j] == t1.order[j];
          }
        }
      }
    }
  }

  lemma {:induction false} DeleteRowsOk(t: Table, items: seq<MemoryItem>)
    requires TableOk(t)
    ensures TableOk(DeleteRows(t, items))
  {
    if items != [] {
      var init := items[..|items| - 1];
      var id := items[|items| - 1].id;
      DeleteRowsOk(t, init);
      var t1 := DeleteRows(t, init);
      RemoveFirstNoDups(t1.order, id);
    }
  }

  /** `ConsolidationWorker.run_once(owner)` on the stores. */
  function ConsolidatePhase(s: Persisted, owner: string, cfg: ConsolidationConfig, newId: nat -> string, now: int): (r: Persisted)
    requires TableOk(s.table)
    ensures TableOk(r.table)
  {
    var created := Consolidate(owner, OwnedBy(s.table.rows, s.table.order, owner), cfg, newId, now);
    UpsertRowsOk(s.table, created, now);
    Persisted(UpsertRows(s.table, created, now), IndexAll(s.index, created, Hot), s.files)
  }

  /** The items `ArchiverWorker.run_once(owner)` archives from a table. */
  function ArchivedFrom(t: Table, owner: string, root: string, now: int): seq<MemoryItem>
    requires TableOk(t)
  {
    ArchivedAll(ToArchive(OwnedBy(t.rows, t.order, owner)), owner, root, now)
  }

  /** `ArchiverWorker.run_once(owner)` on the stores. */
  function ArchivePhase(s: Persisted, owner: string, root: string, now: int): (r: Persisted)
    requires TableOk(s.table)
    ensures TableOk(r.table)
  {
    var archived := ArchivedFrom(s.table, owner, root, now);
    UpsertRowsOk(s.table, archived, now);
    Persisted(UpsertRows(s.table, archived, now), IndexAll(s.index, archived, ArchiveIndex),
              AppendAll(s.files, owner, root, ToArchive(OwnedBy(s.table.rows, s.table.order, owner))))
  }

  /** `Compactor.run_once(owner)` on the stores. */
  function CompactPhase(s: Persisted, owner: string, now: int): (r: Persisted)
    requires TableOk(s.table)
    ensures TableOk(r.table)
  {
    var removed := ExpiredOf(OwnedBy(s.table.rows, s.table.order, owner), now);
    DeleteRowsOk(s.table, removed);
    Persisted(DeleteRows(s.table, removed), s.index, s.files)
  }

  /** `flush_async(owner)` on the stores: consolidation, then the archiver
      when `archive_on_flush` is set, then the compactor. */
  function FlushEffect(s: Persisted, owner: string, cfg: ConsolidationConfig, root: string, newId: nat -> string, now: int): (r: Persisted)
    requires TableOk(s.table)
    ensures TableOk(r.table)
  {
    var c := ConsolidatePhase(s, owner, cfg, newId, now);
    CompactPhase(if cfg.archiveOnFlush then ArchivePhase(c, owner, root, now) else c, owner, now)
  }

  /** Distinct items of one table have distinct ids. */
  lemma {:induction false} ToArchiveIds(t: Table, owner: string, root: string, now: int)
    requires TableOk(t)
    ensures NoDups(ItemIds(ArchivedFrom(t, owner, root, now)))
    ensures forall i | 0 <= i < |ArchivedFrom(t, owner, root, now)| ::
      var a := ArchivedFrom(t, owner, root, now)[i];
      a.id in t.rows && a == Archived(t.rows[a.id], owner, root, now)
  {
    var listed := OwnedBy(t.rows, t.order, owner);
    OwnedByMembers(t.rows, t.order, owner);
    var sel := ToArchive(listed);
    ToArchiveMembers(listed);
    ToArchiveNoDups(listed);
    var arch := ArchivedAll(sel, owner, root, now);
    forall i | 0 <= i < |arch| ensures arch[i].id in t.rows && arch[i] == Archived(t.rows[arch[i].id], owner, root, now) {
      assert sel[i] in sel;
    }
    forall i, j | 0 <= i < j < |arch| ensures ItemIds(arch)[i] != ItemIds(arch)[j] {
      assert sel[i] in sel && sel[j] in sel;
      assert t.rows[sel[i].id] == sel[i] && t.rows[sel[j].id] == sel[j];
    }
  }

  lemma {:induction false} ToArchiveNoDups(items: seq<MemoryItem>)
    requires NoDups(items)
    ensures NoDups(ToArchive(items))
  {
    if items != [] {
      var init := items[..|items| - 1];
      var last := items[|items| - 1];
      forall i, j | 0 <= i < j < |init| ensures init[i] != init[j] {
        assert init[i] == items[i] && init[j] == items[j];
      }
      ToArchiveNoDups(init);
      ToArchiveMembers(init);
      var r := ToArchive(items);
      var a := ToArchive(init);
      if last.tier == Hot && last.mtype != Working {
        assert r == a + [last];
        forall i, j | 0 <= i < j < |r| ensures r[i] != r[j] {
          if j == |a| {
            assert r[i] in init;
          }
        }
      } else {
        assert r == a;
      }
    }
  }

  /** The ids the archiver rewrites are exactly those of the owner's hot
      items that are not working memory. */
  lemma ArchivedIdsExact(t: Table, owner: string, root: string, now: int)
    requires TableOk(t)
    ensures forall k :: k in ItemIds(ArchivedFrom(t, owner, root, now)) <==>
      k in t.rows && t.rows[k].owner == owner && t.rows[k].tier == Hot && t.rows[k].mtype != Working
  {
    var listed := OwnedBy(t.rows, t.order, owner);
    OwnedByMembers(t.rows, t.order, owner);
    ToArchiveMembers(listed);
    var sel := ToArchive(listed);
    var arch := ArchivedFrom(t, owner, root, now);
    assert arch == ArchivedAll(sel, owner, root, now);
    forall k ensures k in ItemIds(arch) <==> k in t.rows && t.rows[k].owner == owner && t.rows[k].tier == Hot && t.rows[k].mtype != Working {
      if k in ItemIds(arch) {
        var i :| 0 <= i < |arch| && ItemIds(arch)[i] == k;
        assert arch[i] == Archived(sel[i], owner, root, now);
        assert sel[i].id == k;
        assert sel[i] in sel;
        assert sel[i] in listed;
      }
      if k in t.rows && t.rows[k].owner == owner && t.rows[k].tier == Hot && t.rows[k].mtype != Working {
        var j :| 0 <= j < |t.order| && t.order[j] == k;
        assert t.rows[k] in listed;
        assert t.rows[k] in sel;
        var i :| 0 <= i < |sel| && sel[i] == t.rows[k];
        assert arch[i] == Archived(sel[i], owner, root, now);
        assert ItemIds(arch)[i] == k;
      }
    }
  }

  /** After the archiver, no item of the owner is hot unless it is working
      memory: every listed hot item is now cold, whatever its age or
      confidence, and the rows of other owners are as they were. */
  lemma ArchiveLeavesOnlyWorkingHot(s: Persisted, owner: string, root: string, now: int)
    requires TableOk(s.table)
    ensures var t := ArchivePhase(s, owner, root, now).table;
      && (forall k :: k in t.rows <==> k in s.table.rows)
      && (forall k | k in t.rows && t.rows[k].owner == owner && t.rows[k].mtype != Working :: t.rows[k].tier != Hot)
      && (forall k | k in t.rows && s.table.rows[k].owner != owner :: t.rows[k] == s.table.rows[k])
      && (forall k | k in t.rows && s.table.rows[k].owner == owner && s.table.rows[k].tier == Hot && s.table.rows[k].mtype != Working ::
            t.rows[k] == Archived(s.table.rows[k], owner, root, now).(updatedAt := now))
  {
    var arch := ArchivedFrom(s.table, owner, root, now);
    ToArchiveIds(s.table, owner, root, now);
    ArchivedIdsExact(s.table, owner, root, now);
    UpsertRowsProps(s.table, arch, now);
    var t := ArchivePhase(s, owner, root, now).table;
    assert t == UpsertRows(s.table, arch, now);
    forall k | k in t.rows
      ensures t.rows[k].owner == owner && t.rows[k].mtype != Working ==> t.rows[k].tier != Hot
      ensures s.table.rows[k].owner != owner ==> t.rows[k] == s.table.rows[k]
      ensures s.table.rows[k].owner == owner && s.table.rows[k].tier == Hot && s.table.rows[k].mtype != Working ==>
        t.rows[k] == Archived(s.table.rows[k], owner, root, now).(updatedAt := now)
    {
      if k in ItemIds(arch) {
        var i :| 0 <= i < |arch| && ItemIds(arch)[i] == k;
        assert t.rows[k] == arch[i].(updatedAt := now);
      }
    }
  }

  /** With `archive_on_flush` set, a flush leaves none of the owner's
      items hot except working memory: the summaries and recurring-tag
      items consolidation has just created are archived to the cold tier
      in the same flush. */
  lemma FlushLeavesOnlyWorkingHot(s: Persisted, owner: string, cfg: ConsolidationConfig, root: string, newId: nat -> string, now: int)
    requires TableOk(s.table)
    requires cfg.archiveOnFlush
    ensures var t := FlushEffect(s, owner, cfg, root, newId, now).table;
      forall k | k in t.rows && t.rows[k].owner == owner :: t.rows[k].mtype == Working || t.rows[k].tier != Hot
  {
    var c := ConsolidatePhase(s, owner, cfg, newId, now);
    var a := ArchivePhase(c, owner, root, now);
    ArchiveLeavesOnlyWorkingHot(c, owner, root, now);
    var removed := ExpiredOf(OwnedBy(a.table.rows, a.table.order, owner), now);
    DeleteRowsProps(a.table, removed);
  }

  // ---------------------------------------------------------------
  // The facade
  // ---------------------------------------------------------------

  /** `MemorySystem` over injected stores; the rehydrator keeps its default
      threshold of three accesses. */
  class MemorySystem {
    const config: MemorySystemConfig
    const metadata: MetadataStore
    const index: SimpleVectorIndex
    const graph: SimpleGraphStore
    const objects: FileObjectStore
    const features: FeatureStore
    const episodicIndexer: EpisodicIndexer
    const semanticIndexer: SemanticGraphIndexer
    const perceptualIndexer: PerceptualIndexer
    const routing: RoutingPolicy
    const retrieval: RetrievalOrchestrator
    const consolidationWorker: ConsolidationWorker
    const archiverWorker: ArchiverWorker
    const rehydratorWorker: RehydratorWorker
    const compactor: Compactor
    var metrics: Metrics

    /** The components share the stores they were built over. */
    ghost predicate Valid()
      reads this, metadata, index, graph, consolidationWorker, archiverWorker
    {
      && metadata.Valid() && index.Valid() && graph.Valid()
      && episodicIndexer.index == index && semanticIndexer.graph == graph && perceptualIndexer.features == features
      && retrieval.metadata == metadata && retrieval.index == index && retrieval.objects == objects
      && retrieval.plan == config.retrievalPlan
      && consolidationWorker.metadata == metadata && consolidationWorker.index == index
      && consolidationWorker.config == config && consolidationWorker.Valid()
      && archiverWorker.metadata == metadata && archiverWorker.objects == objects && archiverWorker.index == index
      && archiverWorker.Valid()
      && rehydratorWorker.metadata == metadata && rehydratorWorker.index == index && rehydratorWorker.accessThreshold == 3
      && compactor.metadata == metadata
      && MetricsOk(metrics)
    }

    /** What a write can change. */
    ghost function WriteState(): Stores
      reads metadata, index, features, graph
    {
      Stores(TableOf(metadata), IndexStateOf(index), features.rows, Graph(graph.edges, graph.order))
    }

    /** What the workers can change. */
    ghost function LifecycleState(): Persisted
      reads metadata, index, objects
    {
      Persisted(TableOf(metadata), IndexStateOf(index), objects.files)
    }

    constructor (config: MemorySystemConfig, metadata: MetadataStore, index: SimpleVectorIndex, graph: SimpleGraphStore,
                 objects: FileObjectStore, features: FeatureStore, routing: RoutingPolicy)
      requires metadata.Valid() && index.Valid() && graph.Valid()
      ensures Valid()
      ensures this.config == config && this.metadata == metadata && this.index == index && this.graph == graph
      ensures this.objects == objects && this.features == features && this.routing == routing
      ensures metrics == ZeroMetrics()
      ensures fresh(rehydratorWorker) && rehydratorWorker.accessCounts == map[]
    {
      this.config := config;
      this.metadata := metadata;
      this.index := index;
      this.graph := graph;
      this.objects := objects;
      this.features := features;
      this.routing := routing;
      this.episodicIndexer := new EpisodicIndexer(index);
      this.semanticIndexer := new SemanticGraphIndexer(graph);
      this.perceptualIndexer := new PerceptualIndexer(features);
      this.retrieval := new RetrievalOrchestrator(metadata, index, objects, config.retrievalPlan);
      this.consolidationWorker := new ConsolidationWorker(metadata, index, config);
      this.archiverWorker := new ArchiverWorker(metadata, objects, index);
      this.rehydratorWorker := new RehydratorWorker(metadata, index, 3);
      this.compactor := new Compactor(metadata);
      this.metrics := ZeroMetrics();
    }

    /** `write_async(event)`: the working ttl is filled in, the item is
        routed, and each store the decision names receives it; the
        semantic indexer is always called. An unsupported payload raises
        before anything is written. */
    method WriteAsync(input: WriteInput, id: string, now: int) returns (r: Result<MemoryItem, SystemError>)
      requires Valid()
      modifies metadata, index, features, graph
      ensures Valid()
      ensures input.Unsupported? ==> r == Err(UnsupportedPayload) && WriteState() == old(WriteState())
      ensures !input.Unsupported? ==>
        var item := WithWorkingTtl(CoerceEvent(input, id, now).value, config.workingTtlSeconds);
        var d := Route(routing, item);
        && r == Ok(Stored(item, d, now))
        && WriteState() == WriteEffect(old(WriteState()), item, d, now, true)
    {
      var coerced := CoerceEvent(input, id, now);
      if coerced.Err? {
        return Err(coerced.error);
      }
      var item := coerced.value;
      if item.mtype == Working && item.ttlSeconds.None? {
        item := item.(ttlSeconds := Some(config.workingTtlSeconds));
      }
      var stored := Deliver(item, now, true);
      r := Ok(stored);
    }

    /** `write_perceptual_async(payload)`: the item is made perceptual and
        routed like any write, but the semantic indexer is not called and
        no working ttl is filled in. */
    method WritePerceptualAsync(input: WriteInput, id: string, now: int) returns (r: Result<MemoryItem, SystemError>)
      requires Valid()
      modifies metadata, index, features, graph
      ensures Valid()
      ensures input.Unsupported? ==> r == Err(UnsupportedPayload) && WriteState() == old(WriteState())
      ensures !input.Unsupported? ==>
        var item := CoerceEvent(input, id, now).value.(mtype := Perceptual);
        var d := Route(routing, item);
        && r == Ok(Stored(item, d, now))
        && WriteState() == WriteEffect(old(WriteState()), item, d, now, false)
      ensures graph.edges == old(graph.edges) && graph.order == old(graph.order)
    {
      var coerced := CoerceEvent(input, id, now);
      if coerced.Err? {
        return Err(coerced.error);
      }
      var item := coerced.value.(mtype := Perceptual);
      var stored := Deliver(item, now, false);
      r := Ok(stored);
    }

    /** The routed writes shared by both write paths. */
    method Deliver(item: MemoryItem, now: int, semantic: bool) returns (stored: MemoryItem)
      requires Valid()
      modifies metadata, index, features, graph
      ensures Valid()
      ensures stored == Stored(item, Route(routing, item), now)
      ensures WriteState() == WriteEffect(old(WriteState()), item, Route(routing, item), now, semantic)
    {
      var decision := Route(routing, item);
      ghost var s := WriteState();
      stored := item;
      if decision.writeHot {
        stored := WriteHot(item, now);
      }
      ghost var s1 := s.(table := if decision.writeHot then UpsertRow(s.table, item, now) else s.table);
      assert WriteState() == s1;
      if decision.writeVector {
        WriteVector(stored);
      }
      ghost var s2 := s1.(index := if decision.writeVector then IndexEntry(s.index, stored, Hot) else s.index);
      assert WriteState() == s2;
      if decision.writeFeatures {
        WriteFeatures(stored, now);
      }
      assert WriteState() == s2.(features := s.features
        + (if decision.writeFeatures && stored.mtype == Perceptual then [FeatureRow(stored.owner, now, FeatureOf(stored))] else []));
      if semantic {
        WriteGraph(stored);
      }
    }

    method WriteHot(item: MemoryItem, now: int) returns (stored: MemoryItem)
      requires Valid()
      modifies metadata
      ensures Valid()
      ensures stored == item.(updatedAt := now)
      ensures WriteState() == old(WriteState()).(table := UpsertRow(old(WriteState()).table, item, now))
    {
      stored := metadata.Upsert(item, now);
    }

    method WriteVector(stored: MemoryItem)
      requires Valid()
      modifies index
      ensures Valid()
      ensures WriteState() == old(WriteState()).(index := IndexEntry(old(WriteState()).index, stored, Hot))
    {
      episodicIndexer.IndexHot(stored);
    }

    method WriteFeatures(stored: MemoryItem, now: int)
      requires Valid()
      modifies features
      ensures Valid()
      ensures WriteState() == old(WriteState()).(features := old(WriteState()).features
        + (if stored.mtype == Perceptual then [FeatureRow(stored.owner, now, FeatureOf(stored))] else []))
    {
      perceptualIndexer.Index(stored, now);
    }

    method WriteGraph(stored: MemoryItem)
      requires Valid()
      modifies graph
      ensures Valid()
      ensures WriteState() == old(WriteState()).(graph := IndexFacts(old(WriteState()).graph, stored))
    {
      semanticIndexer.Index(stored);
    }

    /** `retrieve_async(query, owner)`: a string query needs an owner; a
        successful retrieval is counted in the metrics, a failing one
        changes nothing. */
    method RetrieveAsync(input: QueryInput, owner: Option<string>, now: int) returns (r: Result<MemoryBundle, SystemError>)
      requires Valid()
      modifies this
      ensures Valid()
      ensures ResolveQuery(input, owner).Err? ==> r == Err(OwnerRequired) && metrics == old(metrics)
      ensures ResolveQuery(input, owner).Ok? ==>
        var spec := Pipeline(index.postings, index.metadata, metadata.rows, objects.files, objects.root,
                             config.retrievalPlan, ResolveQuery(input, owner).value, now);
        && (spec.Err? ==> r == Err(RetrieveFailed(spec.error)) && metrics == old(metrics))
        && (spec.Ok? ==>
              && r.Ok? && r.value.query == ResolveQuery(input, owner).value.text
              && r.value.results == spec.value.results && r.value.blocks == spec.value.blocks
              && r.value.usedTiers == spec.value.usedTiers && r.value.confidence == spec.value.confidence
              && r.value.warnings == spec.value.warnings
              && fresh(r.value.trace)
              && r.value.trace.steps == ["hot search per type"]
              && r.value.trace.escalations == spec.value.escalations
              && r.value.trace.sources == spec.value.sources
              && metrics == CountRetrieve(old(metrics), spec.value.usedTiers, spec.value.blocks, config.retrievalPlan.maxResults))
    {
      var resolved := ResolveQuery(input, owner);
      if resolved.Err? {
        return Err(resolved.error);
      }
      var q := resolved.value;
      ghost var spec := Pipeline(index.postings, index.metadata, metadata.rows, objects.files, objects.root, config.retrievalPlan, q, now);
      var bundle := retrieval.Retrieve(q, now);
      if bundle.Err? {
        return Err(RetrieveFailed(bundle.error));
      }
      assert spec.Ok? && bundle.value.usedTiers == spec.value.usedTiers;
      PipelineTiers(index.postings, index.metadata, metadata.rows, objects.files, objects.root, config.retrievalPlan, q, now);
      CountRetrieveOk(metrics, bundle.value.usedTiers, bundle.value.blocks, config.retrievalPlan.maxResults);
      metrics := CountRetrieve(metrics, bundle.value.usedTiers, bundle.value.blocks, config.retrievalPlan.maxResults);
      r := Ok(bundle.value);
    }

    /** `flush_async(owner)`: consolidation, then the archiver when
        `archive_on_flush` is set, then the compactor; the items
        consolidation created are returned. */
    method FlushAsync(owner: string, newId: nat -> string, now: int) returns (created: seq<MemoryItem>)
      requires Valid()
      modifies metadata, index, objects
      ensures Valid()
      ensures created == Consolidate(owner, OwnedBy(old(metadata.rows), old(metadata.order), owner), config.consolidation, newId, now)
      ensures LifecycleState() == FlushEffect(old(LifecycleState()), owner, config.consolidation, objects.root, newId, now)
    {
      ghost var s0 := LifecycleState();
      created := consolidationWorker.RunOnce(owner, newId, now);
      ghost var s1 := LifecycleState();
      assert s1 == ConsolidatePhase(s0, owner, config.consolidation, newId, now);
      if config.consolidation.archiveOnFlush {
        var _ := archiverWorker.RunOnce(owner, now);
        assert LifecycleState() == ArchivePhase(s1, owner, objects.root, now);
      }
      var _ := compactor.RunOnce(owner, now);
    }

    /** `record_access(item_id)`: the rehydrator's count for the id goes up
        by one and the row's `last_accessed` is stamped. */
    method RecordAccess(id: string, now: int)
      requires Valid()
      modifies rehydratorWorker, metadata
      ensures Valid()
      ensures rehydratorWorker.accessCounts == old(rehydratorWorker.accessCounts)[id := Get(old(rehydratorWorker.accessCounts), id, 0) + 1]
      ensures metadata.order == old(metadata.order)
      ensures id in old(metadata.rows) ==> metadata.rows == old(metadata.rows)[id := old(metadata.rows)[id].(lastAccessed := Some(now))]
      ensures id !in old(metadata.rows) ==> metadata.rows == old(metadata.rows)
    {
      rehydratorWorker.RecordAccess(id);
      metadata.UpdateAccess(id, now);
    }

    /** `rehydrate(owner)`: the rehydrator runs once and `thrash_detected`
        goes up by one iff it warmed anything. */
    method Rehydrate(owner: string, now: int) returns (warmed: seq<MemoryItem>)
      requires Valid()
      modifies this, metadata, index
      ensures Valid()
      ensures warmed == Warmed(ToWarm(OwnedBy(old(metadata.rows), old(metadata.order), owner), rehydratorWorker.accessCounts, 3), now)
      ensures TableOf(metadata) == UpsertRows(old(TableOf(metadata)), warmed, now)
      ensures IndexStateOf(index) == IndexAll(old(IndexStateOf(index)), warmed, Hot)
      ensures metrics == old(metrics).(thrashDetected := old(metrics).thrashDetected + if warmed != [] then 1 else 0)
    {
      warmed := rehydratorWorker.RunOnce(owner, now);
      if warmed != [] {
        metrics := metrics.(thrashDetected := metrics.thrashDetected + 1);
      }
    }
  }
}
