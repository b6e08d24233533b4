/** memoryagent/indexers.py: the adapters that turn an item into writes on
    the vector index, the graph store and the feature store. Each holds the
    store it was given and changes nothing else. */
module Indexers {
  import opened PyLib
  import opened Utils
  import opened Models
  import opened InMemory
  import opened LocalDisk

  /** The metadata `index_hot` / `index_archive` attach to an item. */
  function MetaFor(item: MemoryItem, tier: StorageTier): (r: IndexMeta)
    ensures r.owner == item.owner && r.tier == tier && r.mtype == item.mtype && r.item == item
  {
    IndexMeta(item.owner, tier, item.mtype, item)
  }

  /** `EpisodicIndexer` */
  class EpisodicIndexer {
    const index: SimpleVectorIndex

    constructor (index: SimpleVectorIndex)
      ensures this.index == index
    {
      this.index := index;
    }

    /** `index_hot(item)`: the item's text, as a hot entry. */
    method IndexHot(item: MemoryItem)
      requires index.Valid()
      modifies index
      ensures index.Valid()
      ensures index.texts == old(index.texts)[item.id := Text(item)]
      ensures index.metadata == old(index.metadata)[item.id := MetaFor(item, Hot)]
      ensures index.postings == UpsertPostings(old(index.postings), item.id, UniqueTokens(Text(item)))
    {
      index.Upsert(item.id, Text(item), MetaFor(item, Hot));
    }

    /** `index_archive(item)`: the item's summary, as an archive entry under
        the same id, so it takes the place of the hot entry. */
    method IndexArchive(item: MemoryItem)
      requires index.Valid()
      modifies index
      ensures index.Valid()
      ensures index.texts == old(index.texts)[item.id := item.summary]
      ensures index.metadata == old(index.metadata)[item.id := MetaFor(item, ArchiveIndex)]
      ensures index.metadata[item.id].tier == ArchiveIndex
      ensures index.postings == UpsertPostings(old(index.postings), item.id, UniqueTokens(item.summary))
    {
      index.Upsert(item.id, item.summary, MetaFor(item, ArchiveIndex));
    }
  }

  /** Whether `SemanticGraphIndexer.index` writes anything for an item. */
  predicate WritesFacts(item: MemoryItem)
  {
    item.mtype == Semantic && |item.tags| >= 2
  }

  /** The one key every fact of an item goes under: its first tag is the
      subject and the relation is always "related_to". */
  function TagKey(item: MemoryItem): string
    requires |item.tags| >= 1
  {
    FactKey(item.owner, item.tags[0], "related_to")
  }

  /** `SemanticGraphIndexer` */
  class SemanticGraphIndexer {
    const graph: SimpleGraphStore

    constructor (graph: SimpleGraphStore)
      ensures this.graph == graph
    {
      this.graph := graph;
    }

    /** `index(item)`: nothing unless the item is semantic with at least two
        tags; then one fact per later tag, in tag order, all under the first
        tag as subject. */
    method Index(item: MemoryItem)
      requires graph.Valid()
      modifies graph
      ensures graph.Valid()
      ensures !WritesFacts(item) ==> graph.edges == old(graph.edges) && graph.order == old(graph.order)
      ensures WritesFacts(item) ==>
        var key := TagKey(item);
        && graph.edges == old(graph.edges)[key := Get(old(graph.edges), key, []) + item.tags[1..]]
        && graph.order == (if key in old(graph.edges) then old(graph.order) else old(graph.order) + [key])
    {
      if item.mtype != Semantic || |item.tags| < 2 {
        return;
      }
      var subject := item.tags[0];
      var key := TagKey(item);
      ghost var e0 := graph.edges;
      ghost var o0 := graph.order;
      var i := 1;
      while i < |item.tags|
        invariant 1 <= i <= |item.tags|
        invariant graph.Valid()
        invariant i == 1 ==> graph.edges == e0 && graph.order == o0
        invariant i > 1 ==> graph.edges == e0[key := Get(e0, key, []) + item.tags[1..i]]
        invariant i > 1 ==> graph.order == (if key in e0 then o0 else o0 + [key])
      {
        ghost var before := graph.edges;
        graph.UpsertFact(item.owner, subject, "related_to", item.tags[i]);
        assert item.tags[1..i + 1] == item.tags[1..i] + [item.tags[i]];
        assert key == FactKey(item.owner, subject, "related_to");
        if i == 1 {
          assert item.tags[1..i + 1] == [item.tags[i]];
          assert graph.edges == e0[key := Get(e0, key, []) + item.tags[1..i + 1]];
        } else {
          assert Get(before, key, []) == Get(e0, key, []) + item.tags[1..i];
          assert graph.edges == e0[key := Get(e0, key, []) + item.tags[1..i] + [item.tags[i]]];
          assert Get(e0, key, []) + item.tags[1..i] + [item.tags[i]] == Get(e0, key, []) + item.tags[1..i + 1];
        }
        i := i + 1;
      }
      assert item.tags[1..i] == item.tags[1..];
    }
  }

  /** After a semantic item is indexed, every later tag is among the
      objects related to its first tag. */
  lemma IndexedTagsRelated(edges: map<string, seq<string>>, order: seq<string>, item: MemoryItem)
    requires forall k :: k in order <==> k in edges
    requires WritesFacts(item)
    ensures var key := TagKey(item);
      var edges' := edges[key := Get(edges, key, []) + item.tags[1..]];
      var order' := if key in edges then order else order + [key];
      && (forall k :: k in order' <==> k in edges')
      && forall t | t in item.tags[1..] :: t in Related(edges', order', SubjectPrefix(item.owner, item.tags[0]))
  {
    var key := TagKey(item);
    var edges' := edges[key := Get(edges, key, []) + item.tags[1..]];
    var order' := if key in edges then order else order + [key];
    assert key in order';
    var i :| 0 <= i < |order'| && order'[i] == key;
    FactKeyHasPrefix(item.owner, item.tags[0], "related_to");
    forall t | t in item.tags[1..] ensures t in Related(edges', order', SubjectPrefix(item.owner, item.tags[0])) {
      assert t in edges'[order'[i]];
      RelatedContains(edges', order', SubjectPrefix(item.owner, item.tags[0]), i, t);
    }
  }

  /** The feature `PerceptualIndexer` records for an item. */
  function FeatureOf(item: MemoryItem): (r: Feature)
    ensures r.summary == item.summary && r.tags == item.tags && r.confidence == item.confidence
  {
    Feature(item.summary, item.tags, item.confidence)
  }

  /** `PerceptualIndexer` */
  class PerceptualIndexer {
    const features: FeatureStore

    constructor (features: FeatureStore)
      ensures this.features == features
    {
      this.features := features;
    }

    /** `index(item)`: exactly one feature for a perceptual item, and
        nothing for any other. */
    method Index(item: MemoryItem, now: int)
      modifies features
      ensures features.rows == old(features.rows) + (if item.mtype == Perceptual then [FeatureRow(item.owner, now, FeatureOf(item))] else [])
    {
      if item.mtype != Perceptual {
        return;
      }
      features.WriteFeature(item.owner, FeatureOf(item), now);
    }
  }
}
