/** memoryagent/workers.py: the lifecycle workers. Each reads one owner's
    items from the metadata store and moves them between tiers: the
    consolidation worker derives summary and recurring-tag items, the
    archiver moves hot items to the cold object store, the rehydrator warms
    cold items that are read often, and the compactor drops expired ones. */
module Workers {
  import opened PyLib
  import opened Utils
  import opened Models
  import opened Config
  import opened InMemory
  import opened LocalDisk
  import opened Indexers

  // ---------------------------------------------------------------
  // Store transitions as values
  // ---------------------------------------------------------------

  /** The metadata store's contents: rows by id and ids in insertion
      order. */
  datatype Table = Table(rows: map<string, MemoryItem>, order: seq<string>)

  function TableOf(s: MetadataStore): Table
    reads s
  {
    Table(s.rows, s.order)
  }

  /** `upsert(item)`: the row is replaced by id and `updated_at` refreshed;
      a new id goes to the end of the order. */
  function UpsertRow(t: Table, item: MemoryItem, now: int): Table
  {
    Table(t.rows[item.id := item.(updatedAt := now)], if item.id in t.rows then t.order else t.order + [item.id])
  }

  /** The upserts of a loop over `items`, in order. */
  function UpsertRows(t: Table, items: seq<MemoryItem>, now: int): Table
  {
    if items == [] then t
    else UpsertRow(UpsertRows(t, items[..|items| - 1], now), items[|items| - 1], now)
  }

  lemma UpsertRowsSnoc(t: Table, items: seq<MemoryItem>, x: MemoryItem, now: int)
    ensures UpsertRows(t, items + [x], now) == UpsertRow(UpsertRows(t, items, now), x, now)
  {
    assert (items + [x])[..|items|] == items;
  }

  function ItemIds(items: seq<MemoryItem>): (r: seq<string>)
    ensures |r| == |items| && forall i | 0 <= i < |items| :: r[i] == items[i].id
  {
    seq(|items|, i requires 0 <= i < |items| => items[i].id)
  }

  lemma ItemIdsInit(items: seq<MemoryItem>)
    requires items != []
    ensures ItemIds(items) == ItemIds(items[..|items| - 1]) + [items[|items| - 1].id]
    ensures NoDups(ItemIds(items)) ==>
      NoDups(ItemIds(items[..|items| - 1])) && forall i | 0 <= i < |items| - 1 :: items[i].id != items[|items| - 1].id
  {
    var init := items[..|items| - 1];
    assert ItemIds(items) == ItemIds(init) + [items[|items| - 1].id];
    if NoDups(ItemIds(items)) {
      forall i, j | 0 <= i < j < |ItemIds(init)| ensures ItemIds(init)[i] != ItemIds(init)[j] {
        assert ItemIds(init)[i] == ItemIds(items)[i] && ItemIds(init)[j] == ItemIds(items)[j];
      }
      forall i | 0 <= i < |items| - 1 ensures items[i].id != items[|items| - 1].id {
        assert ItemIds(items)[i] == items[i].id;
      }
    }
  }

  /** After the upserts the rows are the old ones plus the upserted items,
      rows of other ids are untouched, and each upserted id holds its last
      upsert. */
  lemma {:induction false} UpsertRowsProps(t: Table, items: seq<MemoryItem>, now: int)
    ensures forall k :: k in UpsertRows(t, items, now).rows <==> k in t.rows || k in ItemIds(items)
    ensures forall k | k in t.rows && k !in ItemIds(items) :: UpsertRows(t, items, now).rows[k] == t.rows[k]
    ensures NoDups(ItemIds(items)) ==>
      forall i | 0 <= i < |items| :: UpsertRows(t, items, now).rows[items[i].id] == items[i].(updatedAt := now)
  {
    if items != [] {
      UpsertRowsProps(t, items[..|items| - 1], now);
      ItemIdsInit(items);
    }
  }

  /** `delete(id)` */
  function DeleteRow(t: Table, id: string): Table
  {
    Table(t.rows - {id}, RemoveFirst(t.order, id))
  }

  /** The deletes of a loop over `items`, in order. */
  function DeleteRows(t: Table, items: seq<MemoryItem>): Table
  {
    if items == [] then t else DeleteRow(DeleteRows(t, items[..|items| - 1]), items[|items| - 1].id)
  }

  /** Deleting removes exactly the rows of the deleted ids. */
  lemma {:induction false} DeleteRowsProps(t: Table, items: seq<MemoryItem>)
    ensures DeleteRows(t, items).rows == t.rows - set x | x in items :: x.id
  {
    if items != [] {
      var init := items[..|items| - 1];
      DeleteRowsProps(t, init);
      assert items == init + [items[|items| - 1]];
      assert (set x | x in items :: x.id) == (set x | x in init :: x.id) + {items[|items| - 1].id};
    }
  }

  /** The vector index's contents. */
  datatype IndexState = IndexState(postings: Postings, metadata: map<string, IndexMeta>, texts: map<string, string>)

  function IndexStateOf(v: SimpleVectorIndex): IndexState
    reads v
  {
    IndexState(v.postings, v.metadata, v.texts)
  }

  /** The text an item is indexed under: the summary in the archive index,
      `text()` otherwise. */
  function EntryText(item: MemoryItem, tier: StorageTier): string
  {
    if tier == ArchiveIndex then item.summary else Text(item)
  }

  /** One `upsert` of an item into the index at a tier. */
  function IndexEntry(s: IndexState, item: MemoryItem, tier: StorageTier): IndexState
  {
    IndexState(UpsertPostings(s.postings, item.id, UniqueTokens(EntryText(item, tier))),
               s.metadata[item.id := MetaFor(item, tier)],
               s.texts[item.id := EntryText(item, tier)])
  }

  /** The index upserts of a loop over `items`, in order. */
  function IndexAll(s: IndexState, items: seq<MemoryItem>, tier: StorageTier): IndexState
  {
    if items == [] then s else IndexEntry(IndexAll(s, items[..|items| - 1], tier), items[|items| - 1], tier)
  }

  lemma IndexAllSnoc(s: IndexState, items: seq<MemoryItem>, x: MemoryItem, tier: StorageTier)
    ensures IndexAll(s, items + [x], tier) == IndexEntry(IndexAll(s, items, tier), x, tier)
  {
    assert (items + [x])[..|items|] == items;
  }

  /** After indexing, the indexed ids are added, each item with a distinct
      id is indexed at the tier under its entry text, and entries of other
      ids are untouched. */
  lemma IndexAllProps(s: IndexState, items: seq<MemoryItem>, tier: StorageTier)
    ensures forall k :: k in IndexAll(s, items, tier).metadata <==> k in s.metadata || k in ItemIds(items)
    ensures forall k :: k in IndexAll(s, items, tier).texts <==> k in s.texts || k in ItemIds(items)
    ensures forall k | k in s.metadata && k !in ItemIds(items) :: IndexAll(s, items, tier).metadata[k] == s.metadata[k]
    ensures NoDups(ItemIds(items)) ==>
      forall i | 0 <= i < |items| :: IndexAll(s, items, tier).metadata[items[i].id] == MetaFor(items[i], tier)
        && IndexAll(s, items, tier).texts[items[i].id] == EntryText(items[i], tier)
  {
    IndexAllKeys(s, items, tier);
    if NoDups(ItemIds(items)) {
      IndexAllEntries(s, items, tier);
    }
  }

  lemma {:induction false} IndexAllKeys(s: IndexState, items: seq<MemoryItem>, tier: StorageTier)
    ensures forall k :: k in IndexAll(s, items, tier).metadata <==> k in s.metadata || k in ItemIds(items)
    ensures forall k :: k in IndexAll(s, items, tier).texts <==> k in s.texts || k in ItemIds(items)
    ensures forall k | k in s.metadata && k !in ItemIds(items) :: IndexAll(s, items, tier).metadata[k] == s.metadata[k]
  {
    if items != [] {
      IndexAllKeys(s, items[..|items| - 1], tier);
      ItemIdsInit(items);
    }
  }

  lemma {:induction false} IndexAllEntries(s: IndexState, items: seq<MemoryItem>, tier: StorageTier)
    requires NoDups(ItemIds(items))
    ensures forall i | 0 <= i < |items| ::
      && items[i].id in IndexAll(s, items, tier).metadata && items[i].id in IndexAll(s, items, tier).texts
      && IndexAll(s, items, tier).metadata[items[i].id] == MetaFor(items[i], tier)
        && IndexAll(s, items, tier).texts[items[i].id] == EntryText(items[i], tier)
  {
    if items != [] {
      IndexAllKeys(s, items, tier);
      IndexAllEntries(s, items[..|items| - 1], tier);
      ItemIdsInit(items);
    }
  }

  // ---------------------------------------------------------------
  // Consolidation
  // ---------------------------------------------------------------

  /** The hot items of one type, in order. */
  function HotOfType(items: seq<MemoryItem>, t: MemoryType): seq<MemoryItem>
  {
    if items == [] then []
    else
      var last := items[|items| - 1];
      HotOfType(items[..|items| - 1], t) + if last.mtype == t && last.tier == Hot then [last] else []
  }

  lemma {:induction false} HotOfTypeMembers(items: seq<MemoryItem>, t: MemoryType)
    ensures forall x :: x in HotOfType(items, t) <==> x in items && x.mtype == t && x.tier == Hot
  {
    if items != [] {
      HotOfTypeMembers(items[..|items| - 1], t);
      assert items == items[..|items| - 1] + [items[|items| - 1]];
    }
  }

  function Summaries(items: seq<MemoryItem>): seq<string>
  {
    seq(|items|, i requires 0 <= i < |items| => items[i].summary)
  }

  /** The session summary: the first five working summaries joined. */
  function SessionSummary(id: string, owner: string, working: seq<MemoryItem>, now: int): MemoryItem
  {
    NewItem(id, Episodic, owner, "Session summary: " + Join(" | ", Summaries(Take(working, 5))), now)
      .(tags := ["session-summary"], confidence := 0.6)
  }

  /** The perceptual summary: the first `limit` perceptual summaries
      joined. */
  function PerceptualSummary(id: string, owner: string, perceptual: seq<MemoryItem>, limit: int, now: int): MemoryItem
  {
    NewItem(id, Episodic, owner, "Perceptual highlights: " + Join(" | ", Summaries(Take(perceptual, limit))), now)
      .(tags := ["perceptual-summary"], confidence := 0.55)
  }

  /** The semantic item for a recurring tag. */
  function RecurringTag(id: string, owner: string, tag: string, now: int): MemoryItem
  {
    NewItem(id, Semantic, owner, "Observed recurring tag: " + tag, now)
      .(tags := [tag, "derived"], confidence := 0.65, stability := 0.6)
  }

  /** What every created item shares: its id is the next fresh id, it
      belongs to the owner, it is hot, it is created now, and it is neither
      working nor perceptual memory. */
  predicate Derived(x: MemoryItem, id: string, owner: string, now: int)
  {
    x.id == id && x.owner == owner && x.tier == Hot && x.createdAt == now && x.updatedAt == now
      && x.mtype != Working && x.mtype != Perceptual
  }

  /** The summary items: a session summary when there is a working item,
      then a perceptual summary when there is a perceptual item. */
  function SummaryItems(owner: string, working: seq<MemoryItem>, perceptual: seq<MemoryItem>, limit: int,
                        newId: nat -> string, now: int): seq<MemoryItem>
  {
    var s1 := if working != [] then [SessionSummary(newId(0), owner, working, now)] else [];
    s1 + if perceptual != [] then [PerceptualSummary(newId(|s1|), owner, perceptual, limit, now)] else []
  }

  lemma SummaryItemsProps(owner: string, working: seq<MemoryItem>, perceptual: seq<MemoryItem>, limit: int,
                          newId: nat -> string, now: int)
    ensures var r := SummaryItems(owner, working, perceptual, limit, newId, now);
      && |r| <= 2
      && (forall i {:trigger r[i]} | 0 <= i < |r| :: Derived(r[i], newId(i), owner, now) && |r[i].tags| == 1)
      && ((exists i | 0 <= i < |r| :: r[i].tags == ["session-summary"]) <==> working != [])
      && ((exists i | 0 <= i < |r| :: r[i].tags == ["perceptual-summary"]) <==> perceptual != [])
  {
    var r := SummaryItems(owner, working, perceptual, limit, newId, now);
    if working != [] {
      assert r[0].tags == ["session-summary"];
    }
    if perceptual != [] {
      assert r[|r| - 1].tags == ["perceptual-summary"];
    }
  }

  /** A `Counter`: its keys in insertion order and the counts. */
  datatype Counter = Counter(keys: seq<string>, counts: map<string, int>)

  function CountOne(c: Counter, t: string): Counter
  {
    if t in c.counts then Counter(c.keys, c.counts[t := c.counts[t] + 1]) else Counter(c.keys + [t], c.counts[t := 1])
  }

  /** `counter.update(tags)` */
  function CountFrom(c: Counter, tags: seq<string>): (r: Counter)
    requires forall k :: k in c.keys <==> k in c.counts
    ensures forall k :: k in r.keys <==> k in r.counts
  {
    if tags == [] then c else CountOne(CountFrom(c, tags[..|tags| - 1]), tags[|tags| - 1])
  }

  /** `Counter(tags)` */
  function CountTags(tags: seq<string>): (r: Counter)
    ensures forall k :: k in r.keys <==> k in r.counts
  {
    CountFrom(Counter([], map[]), tags)
  }

  lemma {:induction false} CountFromAppend(c: Counter, a: seq<string>, b: seq<string>)
    requires forall k :: k in c.keys <==> k in c.counts
    ensures CountFrom(c, a + b) == CountFrom(CountFrom(c, a), b)
    decreases |b|
  {
    if b == [] {
      assert a + b == a;
    } else {
      var init, t := b[..|b| - 1], b[|b| - 1];
      assert (a + b)[..|a + b| - 1] == a + init;
      assert (a + b)[|a + b| - 1] == t;
      assert CountFrom(c, a + b) == CountOne(CountFrom(c, a + init), t);
      CountFromAppend(c, a, init);
      assert CountFrom(CountFrom(c, a), b) == CountOne(CountFrom(CountFrom(c, a), init), t);
    }
  }

  /** The counter's keys are the distinct tags in order of first
      appearance. */
  lemma {:induction false} CountTagsKeys(tags: seq<string>)
    ensures CountTags(tags).keys == Distinct(tags)
  {
    if tags != [] {
      CountTagsKeys(tags[..|tags| - 1]);
    }
  }

  /** Each count is the number of occurrences of its tag. */
  lemma {:induction false} CountTagsCounts(tags: seq<string>)
    ensures forall k | k in CountTags(tags).counts :: CountTags(tags).counts[k] == Count(tags, k)
  {
    if tags != [] {
      var init := tags[..|tags| - 1];
      CountTagsCounts(init);
      CountTagsKeys(init);
      forall k | k in CountTags(tags).counts ensures CountTags(tags).counts[k] == Count(tags, k) {
        CountPositive(init, k);
      }
    }
  }

  /** All tags of the items, in order. */
  function AllTags(items: seq<MemoryItem>): seq<string>
  {
    if items == [] then [] else AllTags(items[..|items| - 1]) + items[|items| - 1].tags
  }

  /** The recurring-tag items for the counter's keys, numbered from
      `base`. */
  function Recurring(keys: seq<string>, counts: map<string, int>, min: int, owner: string,
                     newId: nat -> string, base: nat, now: int): (r: seq<MemoryItem>)
    requires forall k | k in keys :: k in counts
    ensures |r| <= |keys|
  {
    if keys == [] then []
    else
      var prev := Recurring(keys[..|keys| - 1], counts, min, owner, newId, base, now);
      var t := keys[|keys| - 1];
      if counts[t] >= min then prev + [RecurringTag(newId(base + |prev|), owner, t, now)] else prev
  }

  /** A created recurring-tag item: derived, semantic, tagged with its tag
      and "derived". */
  predicate RecurringAt(x: MemoryItem, id: string, owner: string, now: int)
  {
    Derived(x, id, owner, now) && x.mtype == Semantic && |x.tags| == 2 && x.tags[1] == "derived"
  }

  /** The recurring-tag items are semantic, numbered on from `base`, and
      carry their tag and "derived". */
  lemma {:induction false} RecurringShape(keys: seq<string>, counts: map<string, int>, min: int, owner: string,
                                          newId: nat -> string, base: nat, now: int)
    requires forall k | k in keys :: k in counts
    ensures forall i | 0 <= i < |Recurring(keys, counts, min, owner, newId, base, now)| ::
      RecurringAt(Recurring(keys, counts, min, owner, newId, base, now)[i], newId(base + i), owner, now)
  {
    if keys != [] {
      var prev := Recurring(keys[..|keys| - 1], counts, min, owner, newId, base, now);
      RecurringShape(keys[..|keys| - 1], counts, min, owner, newId, base, now);
      var x := RecurringTag(newId(base + |prev|), owner, keys[|keys| - 1], now);
      var r := Recurring(keys, counts, min, owner, newId, base, now);
      if counts[keys[|keys| - 1]] >= min {
        assert r == prev + [x];
        forall i | 0 <= i < |r| ensures RecurringAt(r[i], newId(base + i), owner, now) {
          if i < |prev| {
            assert r[i] == prev[i];
          }
        }
      } else {
        assert r == prev;
      }
    }
  }

  /** Each recurring-tag item's tag is a key whose count reaches `min`. */
  lemma {:induction false} RecurringKeys(keys: seq<string>, counts: map<string, int>, min: int, owner: string,
                                         newId: nat -> string, base: nat, now: int)
    requires forall k | k in keys :: k in counts
    ensures forall x | x in Recurring(keys, counts, min, owner, newId, base, now) ::
      |x.tags| > 0 && x.tags[0] in keys && counts[x.tags[0]] >= min
  {
    if keys != [] {
      var init := keys[..|keys| - 1];
      var t := keys[|keys| - 1];
      RecurringKeys(init, counts, min, owner, newId, base, now);
      var prev := Recurring(init, counts, min, owner, newId, base, now);
      assert keys == init + [t];
      if counts[t] >= min {
        assert Recurring(keys, counts, min, owner, newId, base, now) == prev + [RecurringTag(newId(base + |prev|), owner, t, now)];
      }
    }
  }

  /** Every key whose count reaches `min` gets a recurring-tag item. */
  lemma {:induction false} RecurringHasKey(keys: seq<string>, counts: map<string, int>, min: int, owner: string,
                                           newId: nat -> string, base: nat, now: int, u: string)
    requires forall k | k in keys :: k in counts
    requires u in keys && counts[u] >= min
    ensures exists i | 0 <= i < |Recurring(keys, counts, min, owner, newId, base, now)| ::
      Recurring(keys, counts, min, owner, newId, base, now)[i].tags == [u, "derived"]
  {
    var init := keys[..|keys| - 1];
    var t := keys[|keys| - 1];
    var prev := Recurring(init, counts, min, owner, newId, base, now);
    var r := Recurring(keys, counts, min, owner, newId, base, now);
    assert keys == init + [t];
    if u == t {
      assert r == prev + [RecurringTag(newId(base + |prev|), owner, t, now)];
      assert r[|r| - 1].tags == [u, "derived"];
    } else {
      RecurringHasKey(init, counts, min, owner, newId, base, now, u);
      var i :| 0 <= i < |prev| && prev[i].tags == [u, "derived"];
      if counts[t] >= min {
        assert r == prev + [RecurringTag(newId(base + |prev|), owner, t, now)];
      } else {
        assert r == prev;
      }
      assert r[i] == prev[i];
    }
  }

  /** There is a recurring-tag item for a key exactly when its count
      reaches `min`. */
  lemma RecurringTag1(keys: seq<string>, counts: map<string, int>, min: int, owner: string,
                      newId: nat -> string, base: nat, now: int, u: string)
    requires forall k | k in keys :: k in counts
    ensures (exists i | 0 <= i < |Recurring(keys, counts, min, owner, newId, base, now)| ::
               Recurring(keys, counts, min, owner, newId, base, now)[i].tags == [u, "derived"])
      <==> u in keys && counts[u] >= min
  {
    RecurringKeys(keys, counts, min, owner, newId, base, now);
    if u in keys && counts[u] >= min {
      RecurringHasKey(keys, counts, min, owner, newId, base, now, u);
    }
  }

  lemma RecurringTags(keys: seq<string>, counts: map<string, int>, min: int, owner: string,
                      newId: nat -> string, base: nat, now: int)
    requires forall k | k in keys :: k in counts
    ensures forall u ::
      ((exists i | 0 <= i < |Recurring(keys, counts, min, owner, newId, base, now)| ::
          Recurring(keys, counts, min, owner, newId, base, now)[i].tags == [u, "derived"])
       <==> u in keys && counts[u] >= min)
  {
    forall u ensures (exists i | 0 <= i < |Recurring(keys, counts, min, owner, newId, base, now)| ::
                        Recurring(keys, counts, min, owner, newId, base, now)[i].tags == [u, "derived"])
      <==> u in keys && counts[u] >= min
    {
      RecurringTag1(keys, counts, min, owner, newId, base, now, u);
    }
  }

  /** The tags counted by consolidation: those of the hot working items,
      then those of the hot perceptual items. */
  function ConsolidationTags(items: seq<MemoryItem>): seq<string>
  {
    AllTags(HotOfType(items, Working) + HotOfType(items, Perceptual))
  }

  /** The summaries consolidation creates for the listed items. */
  function SummaryPart(owner: string, items: seq<MemoryItem>, cfg: ConsolidationConfig, newId: nat -> string, now: int): seq<MemoryItem>
  {
    SummaryItems(owner, HotOfType(items, Working), HotOfType(items, Perceptual), cfg.perceptualSummaryLimit, newId, now)
  }

  /** At most two summaries, the `i`-th derived with id `newId(i)`, each
      with a single tag. */
  lemma SummaryPartShape(owner: string, items: seq<MemoryItem>, cfg: ConsolidationConfig, newId: nat -> string, now: int)
    ensures var s := SummaryPart(owner, items, cfg, newId, now);
      && |s| <= 2
      && forall i {:trigger s[i]} | 0 <= i < |s| :: Derived(s[i], newId(i), owner, now) && |s[i].tags| == 1
  {
    SummaryItemsProps(owner, HotOfType(items, Working), HotOfType(items, Perceptual), cfg.perceptualSummaryLimit, newId, now);
  }

  /** The recurring-tag items consolidation creates, numbered from
      `base` (the number of summaries). */
  function RecurringPart(owner: string, items: seq<MemoryItem>, cfg: ConsolidationConfig, newId: nat -> string, base: nat, now: int): seq<MemoryItem>
  {
    var c := CountTags(ConsolidationTags(items));
    Recurring(c.keys, c.counts, cfg.semanticMinCount, owner, newId, base, now)
  }

  /** The items `ConsolidationWorker.run_once` creates for the listed
      items: at most two summaries and one item per distinct tag; the
      `i`-th has id `newId(i)`, belongs to the owner, is hot and created
      now, and is neither working nor perceptual memory. */
  function Consolidate(owner: string, items: seq<MemoryItem>, cfg: ConsolidationConfig, newId: nat -> string, now: int): (r: seq<MemoryItem>)
    ensures |r| <= 2 + |Distinct(ConsolidationTags(items))|
    ensures forall i {:trigger r[i]} | 0 <= i < |r| :: Derived(r[i], newId(i), owner, now)
  {
    SummaryPartShape(owner, items, cfg, newId, now);
    WithRecurring(owner, items, cfg, newId, now, SummaryPart(owner, items, cfg, newId, now))
  }

  /** The summaries `s` followed by the recurring-tag items, numbered on
      after them. */
  function WithRecurring(owner: string, items: seq<MemoryItem>, cfg: ConsolidationConfig, newId: nat -> string, now: int,
                         s: seq<MemoryItem>): (r: seq<MemoryItem>)
    requires |s| <= 2
    requires forall i {:trigger s[i]} | 0 <= i < |s| :: Derived(s[i], newId(i), owner, now)
    ensures |r| <= 2 + |Distinct(ConsolidationTags(items))|
    ensures forall i {:trigger r[i]} | 0 <= i < |r| :: Derived(r[i], newId(i), owner, now)
  {
    var rec := RecurringPart(owner, items, cfg, newId, |s|, now);
    RecurringPartShape(owner, items, cfg, newId, |s|, now);
    DerivedJoin(s, rec, owner, newId, now);
    s + rec
  }

  /** The recurring-tag items: at most one per distinct tag, numbered on
      from `base`, semantic and derived. */
  lemma RecurringPartShape(owner: string, items: seq<MemoryItem>, cfg: ConsolidationConfig, newId: nat -> string, base: nat, now: int)
    ensures |RecurringPart(owner, items, cfg, newId, base, now)| <= |Distinct(ConsolidationTags(items))|
    ensures forall i | 0 <= i < |RecurringPart(owner, items, cfg, newId, base, now)| ::
      RecurringAt(RecurringPart(owner, items, cfg, newId, base, now)[i], newId(base + i), owner, now)
  {
    var tags := ConsolidationTags(items);
    var c := CountTags(tags);
    CountTagsKeys(tags);
    RecurringShape(c.keys, c.counts, cfg.semanticMinCount, owner, newId, base, now);
  }

  /** There is a recurring-tag item for a tag exactly when it occurs at
      least `semantic_min_count` times. */
  lemma RecurringPartTags(owner: string, items: seq<MemoryItem>, cfg: ConsolidationConfig, newId: nat -> string, base: nat, now: int)
    ensures var rec := RecurringPart(owner, items, cfg, newId, base, now);
      var tags := ConsolidationTags(items);
      forall t :: (exists i | 0 <= i < |rec| :: rec[i].tags == [t, "derived"]) <==> t in tags && Count(tags, t) >= cfg.semanticMinCount
  {
    var tags := ConsolidationTags(items);
    var c := CountTags(tags);
    CountTagsKeys(tags);
    CountTagsCounts(tags);
    RecurringTags(c.keys, c.counts, cfg.semanticMinCount, owner, newId, base, now);
    forall t ensures t in c.keys && c.counts[t] >= cfg.semanticMinCount <==> t in tags && Count(tags, t) >= cfg.semanticMinCount {
      assert t in c.keys <==> t in tags;
    }
  }

  /** Items numbered from 0 followed by items numbered on from there are
      numbered from 0. */
  lemma DerivedJoin(s: seq<MemoryItem>, rec: seq<MemoryItem>, owner: string, newId: nat -> string, now: int)
    requires forall i {:trigger s[i]} | 0 <= i < |s| :: Derived(s[i], newId(i), owner, now)
    requires forall i | 0 <= i < |rec| :: RecurringAt(rec[i], newId(|s| + i), owner, now)
    ensures forall i {:trigger (s + rec)[i]} | 0 <= i < |s + rec| :: Derived((s + rec)[i], newId(i), owner, now)
  {
    forall i {:trigger (s + rec)[i]} | 0 <= i < |s + rec| ensures Derived((s + rec)[i], newId(i), owner, now) {
      if i >= |s| {
        assert (s + rec)[i] == rec[i - |s|];
      }
    }
  }

  /** There is a session summary exactly when a hot working item was
      listed, and a perceptual summary exactly when a hot perceptual item
      was. */
  lemma ConsolidateSummaries(owner: string, items: seq<MemoryItem>, cfg: ConsolidationConfig, newId: nat -> string, now: int)
    ensures var r := Consolidate(owner, items, cfg, newId, now);
      && ((exists i | 0 <= i < |r| :: r[i].tags == ["session-summary"]) <==> exists x | x in items :: x.mtype == Working && x.tier == Hot)
      && ((exists i | 0 <= i < |r| :: r[i].tags == ["perceptual-summary"]) <==> exists x | x in items :: x.mtype == Perceptual && x.tier == Hot)
  {
    var s := SummaryPart(owner, items, cfg, newId, now);
    var rec := RecurringPart(owner, items, cfg, newId, |s|, now);
    assert Consolidate(owner, items, cfg, newId, now) == s + rec;
    var working := HotOfType(items, Working);
    var perceptual := HotOfType(items, Perceptual);
    SummaryItemsProps(owner, working, perceptual, cfg.perceptualSummaryLimit, newId, now);
    RecurringPartShape(owner, items, cfg, newId, |s|, now);
    SingleTagIn(s, rec, "session-summary");
    SingleTagIn(s, rec, "perceptual-summary");
    HotOfTypeMembers(items, Working);
    HotOfTypeMembers(items, Perceptual);
    if working != [] {
      assert working[0] in working;
    }
    if perceptual != [] {
      assert perceptual[0] in perceptual;
    }
  }

  /** A one-tag list can only come from the summaries. */
  lemma SingleTagIn(s: seq<MemoryItem>, rec: seq<MemoryItem>, tag: string)
    requires forall i | 0 <= i < |rec| :: |rec[i].tags| == 2
    ensures (exists i | 0 <= i < |s + rec| :: (s + rec)[i].tags == [tag]) <==> exists i | 0 <= i < |s| :: s[i].tags == [tag]
  {
    if exists i | 0 <= i < |s + rec| :: (s + rec)[i].tags == [tag] {
      var i :| 0 <= i < |s + rec| && (s + rec)[i].tags == [tag];
      assert s[i].tags == [tag];
    }
    if exists i | 0 <= i < |s| :: s[i].tags == [tag] {
      var i :| 0 <= i < |s| && s[i].tags == [tag];
      assert (s + rec)[i] == s[i];
    }
  }

  /** There is a semantic "recurring tag" item for a tag exactly when the
      tag occurs at least `semantic_min_count` times over the hot working
      and perceptual items. */
  lemma ConsolidateRecurring(owner: string, items: seq<MemoryItem>, cfg: ConsolidationConfig, newId: nat -> string, now: int)
    ensures var r := Consolidate(owner, items, cfg, newId, now);
      var tags := ConsolidationTags(items);
      forall t :: (exists i | 0 <= i < |r| :: r[i].mtype == Semantic && r[i].tags == [t, "derived"])
        <==> t in tags && Count(tags, t) >= cfg.semanticMinCount
  {
    var s := SummaryPart(owner, items, cfg, newId, now);
    var rec := RecurringPart(owner, items, cfg, newId, |s|, now);
    assert Consolidate(owner, items, cfg, newId, now) == s + rec;
    SummaryPartShape(owner, items, cfg, newId, now);
    RecurringPartShape(owner, items, cfg, newId, |s|, now);
    RecurringPartTags(owner, items, cfg, newId, |s|, now);
    var r: seq<MemoryItem> := s + rec;
    forall t: string ensures (exists i | 0 <= i < |r| :: r[i].mtype == Semantic && r[i].tags == [t, "derived"])
      <==> exists j | 0 <= j < |rec| :: rec[j].tags == [t, "derived"]
    {
      PairTagIn(s, rec, t);
    }
  }

  /** A two-tag list can only come from the recurring-tag items. */
  lemma PairTagIn(s: seq<MemoryItem>, rec: seq<MemoryItem>, t: string)
    requires forall i | 0 <= i < |s| :: |s[i].tags| == 1
    requires forall i | 0 <= i < |rec| :: rec[i].mtype == Semantic
    ensures (exists i | 0 <= i < |s + rec| :: (s + rec)[i].mtype == Semantic && (s + rec)[i].tags == [t, "derived"])
      <==> exists j | 0 <= j < |rec| :: rec[j].tags == [t, "derived"]
  {
    if exists i | 0 <= i < |s + rec| :: (s + rec)[i].mtype == Semantic && (s + rec)[i].tags == [t, "derived"] {
      var i :| 0 <= i < |s + rec| && (s + rec)[i].mtype == Semantic && (s + rec)[i].tags == [t, "derived"];
      assert rec[i - |s|].tags == [t, "derived"];
    }
    if exists j | 0 <= j < |rec| :: rec[j].tags == [t, "derived"] {
      var j :| 0 <= j < |rec| && rec[j].tags == [t, "derived"];
      assert (s + rec)[|s| + j] == rec[j];
    }
  }

  /** Consolidation neither marks nor clears the items it reads: listing
      the items again with the created ones added gives the same hot
      working and perceptual items, so the next run summarises them
      again. */
  lemma ConsolidateRepeats(owner: string, items: seq<MemoryItem>, cfg: ConsolidationConfig, newId: nat -> string, now: int)
    ensures var created := Consolidate(owner, items, cfg, newId, now);
      && HotOfType(items + created, Working) == HotOfType(items, Working)
      && HotOfType(items + created, Perceptual) == HotOfType(items, Perceptual)
  {
    var created := Consolidate(owner, items, cfg, newId, now);
    HotOfTypeAppend(items, created, Working);
    HotOfTypeAppend(items, created, Perceptual);
  }

  lemma {:induction false} HotOfTypeAppend(items: seq<MemoryItem>, extra: seq<MemoryItem>, t: MemoryType)
    requires forall i | 0 <= i < |extra| :: extra[i].mtype != t
    ensures HotOfType(items + extra, t) == HotOfType(items, t)
    decreases |extra|
  {
    if extra == [] {
      assert items + extra == items;
    } else {
      var init := extra[..|extra| - 1];
      assert (items + extra)[..|items + extra| - 1] == items + init;
      HotOfTypeAppend(items, init, t);
    }
  }

  /** The tag counting loop. */
  method CountLoop(pool: seq<MemoryItem>) returns (c: Counter)
    ensures c == CountTags(AllTags(pool))
  {
    c := Counter([], map[]);
    var i := 0;
    while i < |pool|
      invariant 0 <= i <= |pool|
      invariant c == CountTags(AllTags(pool[..i]))
    {
      assert AllTags(pool[..i + 1]) == AllTags(pool[..i]) + pool[i].tags by {
        assert pool[..i + 1][..i] == pool[..i];
      }
      CountFromAppend(Counter([], map[]), AllTags(pool[..i]), pool[i].tags);
      c := UpdateLoop(c, pool[i].tags);
      i := i + 1;
    }
    assert pool[..i] == pool;
  }

  /** `tag_counts.update(item.tags)` */
  method UpdateLoop(c0: Counter, tags: seq<string>) returns (c: Counter)
    requires forall k :: k in c0.keys <==> k in c0.counts
    ensures c == CountFrom(c0, tags)
  {
    c := c0;
    var j := 0;
    while j < |tags|
      invariant 0 <= j <= |tags|
      invariant c == CountFrom(c0, tags[..j])
    {
      assert tags[..j + 1][..j] == tags[..j];
      var t := tags[j];
      if t in c.counts {
        c := Counter(c.keys, c.counts[t := c.counts[t] + 1]);
      } else {
        c := Counter(c.keys + [t], c.counts[t := 1]);
      }
      j := j + 1;
    }
    assert tags[..j] == tags;
  }

  /** The loop creating one semantic item per recurring tag. */
  method RecurringLoop(c: Counter, min: int, owner: string, newId: nat -> string, base: nat, now: int) returns (r: seq<MemoryItem>)
    requires forall k | k in c.keys :: k in c.counts
    ensures r == Recurring(c.keys, c.counts, min, owner, newId, base, now)
  {
    r := [];
    var i := 0;
    while i < |c.keys|
      invariant 0 <= i <= |c.keys|
      invariant r == Recurring(c.keys[..i], c.counts, min, owner, newId, base, now)
    {
      assert c.keys[..i + 1][..i] == c.keys[..i];
      var tag := c.keys[i];
      if c.counts[tag] >= min {
        r := r + [RecurringTag(newId(base + |r|), owner, tag, now)];
      }
      i := i + 1;
    }
    assert c.keys[..i] == c.keys;
  }

  /** `ConsolidationWorker` */
  class ConsolidationWorker {
    const metadata: MetadataStore
    const index: SimpleVectorIndex
    const config: MemorySystemConfig
    const indexer: EpisodicIndexer

    ghost predicate Valid()
      reads this, metadata, index
    {
      indexer.index == index && metadata.Valid() && index.Valid()
    }

    constructor (metadata: MetadataStore, index: SimpleVectorIndex, config: MemorySystemConfig)
      requires metadata.Valid() && index.Valid()
      ensures this.metadata == metadata && this.index == index && this.config == config
      ensures Valid()
    {
      this.metadata := metadata;
      this.index := index;
      this.config := config;
      this.indexer := new EpisodicIndexer(index);
    }

    /** `run_once(owner)`; `newId(i)` is the id drawn for the `i`-th created
        item and `now` the clock. The created items are upserted and
        indexed hot, in order; nothing else in either store changes. */
    method RunOnce(owner: string, newId: nat -> string, now: int) returns (created: seq<MemoryItem>)
      requires Valid()
      modifies metadata, index
      ensures Valid()
      ensures created == Consolidate(owner, OwnedBy(old(metadata.rows), old(metadata.order), owner), config.consolidation, newId, now)
      ensures TableOf(metadata) == UpsertRows(old(TableOf(metadata)), created, now)
      ensures IndexStateOf(index) == IndexAll(old(IndexStateOf(index)), created, Hot)
    {
      var items := metadata.ListByOwner(owner);
      created := Create(owner, items, newId, now);
      StoreAll(created, now);
    }

    /** The items derived from the listed ones, before they are stored. */
    method Create(owner: string, items: seq<MemoryItem>, newId: nat -> string, now: int) returns (newItems: seq<MemoryItem>)
      ensures newItems == Consolidate(owner, items, config.consolidation, newId, now)
    {
      var working := HotOfType(items, Working);
      var perceptual := HotOfType(items, Perceptual);
      newItems := [];
      if working != [] {
        newItems := newItems + [SessionSummary(newId(|newItems|), owner, working, now)];
      }
      if perceptual != [] {
        newItems := newItems + [PerceptualSummary(newId(|newItems|), owner, perceptual, config.consolidation.perceptualSummaryLimit, now)];
      }
      assert newItems == SummaryPart(owner, items, config.consolidation, newId, now);
      var counter := CountLoop(working + perceptual);
      var recurring := RecurringLoop(counter, config.consolidation.semanticMinCount, owner, newId, |newItems|, now);
      newItems := newItems + recurring;
    }

    /** The loop upserting and indexing the created items. */
    method StoreAll(items: seq<MemoryItem>, now: int)
      requires Valid()
      modifies metadata, index
      ensures Valid()
      ensures TableOf(metadata) == UpsertRows(old(TableOf(metadata)), items, now)
      ensures IndexStateOf(index) == IndexAll(old(IndexStateOf(index)), items, Hot)
    {
      ghost var t0 := TableOf(metadata);
      ghost var s0 := IndexStateOf(index);
      var i := 0;
      while i < |items|
        invariant 0 <= i <= |items|
        invariant Valid()
        invariant TableOf(metadata) == UpsertRows(t0, items[..i], now)
        invariant IndexStateOf(index) == IndexAll(s0, items[..i], Hot)
      {
        assert items[..i + 1] == items[..i] + [items[i]];
        UpsertRowsSnoc(t0, items[..i], items[i], now);
        IndexAllSnoc(s0, items[..i], items[i], Hot);
        StoreOne(items[i], now);
        i := i + 1;
      }
      assert items[..i] == items;
    }

    /** One iteration: `upsert(item)`, then `index_hot(item)`. */
    method StoreOne(item: MemoryItem, now: int)
      requires Valid()
      modifies metadata, index
      ensures Valid()
      ensures TableOf(metadata) == UpsertRow(old(TableOf(metadata)), item, now)
      ensures IndexStateOf(index) == IndexEntry(old(IndexStateOf(index)), item, Hot)
    {
      var _ := metadata.Upsert(item, now);
      indexer.IndexHot(item);
    }
  }

  /** With ids not yet in the store, consolidation leaves every existing
      row as it was and adds each created item as it was made. */
  lemma ConsolidationKeepsRows(t: Table, created: seq<MemoryItem>, now: int)
    requires forall i | 0 <= i < |created| :: created[i].id !in t.rows
    requires NoDups(ItemIds(created))
    requires forall i | 0 <= i < |created| :: created[i].updatedAt == now
    ensures forall k | k in t.rows :: k in UpsertRows(t, created, now).rows && UpsertRows(t, created, now).rows[k] == t.rows[k]
    ensures forall i | 0 <= i < |created| ::
      created[i].id in UpsertRows(t, created, now).rows && UpsertRows(t, created, now).rows[created[i].id] == created[i]
  {
    UpsertRowsProps(t, created, now);
    forall k | k in t.rows ensures k !in ItemIds(created) {
      forall i | 0 <= i < |created| ensures ItemIds(created)[i] != k {
      }
    }
    forall i | 0 <= i < |created| ensures created[i].id in ItemIds(created) {
      assert ItemIds(created)[i] == created[i].id;
    }
  }

  // ---------------------------------------------------------------
  // Archiving
  // ---------------------------------------------------------------

  /** The Gregorian leap-year rule. */
  predicate IsLeap(y: int)
  {
    (y % 4 == 0 && y % 100 != 0) || y % 400 == 0
  }

  function DaysInYear(y: int): int
  {
    if IsLeap(y) then 366 else 365
  }

  function DaysInMonth(y: int, m: int): int
  {
    if m == 2 then (if IsLeap(y) then 29 else 28)
    else if m == 4 || m == 6 || m == 9 || m == 11 then 30
    else 31
  }

  /** The year holding day `days` counted from January 1 of year `y`, and
      that day's offset within its year. */
  function YearAndDay(y: int, days: int): (int, int)
    decreases days < 0, if days < 0 then -days else days
  {
    if days < 0 then YearAndDay(y - 1, days + DaysInYear(y - 1))
    else if days >= DaysInYear(y) then YearAndDay(y + 1, days - DaysInYear(y))
    else (y, days)
  }

  /** The month holding day `doy` of year `y` counted from the first of
      month `m`, and that day's offset within its month. */
  function MonthAndDay(y: int, m: int, doy: int): (int, int)
    decreases 12 - m
  {
    if m < 12 && doy >= DaysInMonth(y, m) then MonthAndDay(y, m + 1, doy - DaysInMonth(y, m))
    else (m, doy)
  }

  /** Days since 1970-01-01 to (year, month, day) in the proleptic
      Gregorian calendar. */
  function CivilFromDays(days: int): (int, int, int)
  {
    var (y, doy) := YearAndDay(1970, days);
    var (m, d) := MonthAndDay(y, 1, doy);
    (y, m, d + 1)
  }

  function Pad2(n: int): string
  {
    PadLeft(IntToString(n), 2)
  }

  /** `created_at.strftime("%Y/%m/%d")` for a time in seconds since the
      epoch, UTC. */
  function DatePath(t: int): string
  {
    var (y, m, d) := CivilFromDays(t / 86400);
    IntToString(y) + "/" + Pad2(m) + "/" + Pad2(d)
  }

  /** The object key of an owner's daily-notes file for a day. */
  function DailyKey(owner: string, createdAt: int): string
  {
    owner + "/" + DatePath(createdAt) + "/daily_notes"
  }

  /** The record the archiver writes for an item. */
  function PayloadOf(item: MemoryItem): (r: Payload)
    ensures r.id == item.id && r.summary == item.summary && r.content == item.content && r.tags == item.tags
    ensures r.mtype == TypeValue(item.mtype) && r.owner == item.owner && r.createdAt == item.createdAt
  {
    Payload(item.id, item.summary, item.content, item.tags, TypeValue(item.mtype), item.owner, item.createdAt)
  }

  /** The items the archiver selects: every hot item that is not working
      memory, whatever its age or confidence. */
  function ToArchive(items: seq<MemoryItem>): seq<MemoryItem>
  {
    if items == [] then []
    else
      var last := items[|items| - 1];
      ToArchive(items[..|items| - 1]) + if last.tier == Hot && last.mtype != Working then [last] else []
  }

  lemma {:induction false} ToArchiveMembers(items: seq<MemoryItem>)
    ensures forall x :: x in ToArchive(items) <==> x in items && x.tier == Hot && x.mtype != Working
  {
    if items != [] {
      ToArchiveMembers(items[..|items| - 1]);
      assert items == items[..|items| - 1] + [items[|items| - 1]];
    }
  }

  /** An item after archiving: pointed at its payload and its key, cold,
      and updated now. */
  function Archived(item: MemoryItem, owner: string, root: string, now: int): MemoryItem
  {
    var key := DailyKey(owner, item.createdAt);
    item.(pointer := item.pointer["object_key" := ResolvePath(root, key)]["archive_key" := key], tier := Cold, updatedAt := now)
  }

  /** The items the archiving loop returns: each selected item, archived,
      in order. */
  function ArchivedAll(items: seq<MemoryItem>, owner: string, root: string, now: int): (r: seq<MemoryItem>)
    ensures |r| == |items|
  {
    seq(|items|, i requires 0 <= i < |items| => Archived(items[i], owner, root, now))
  }

  /** An archived item keeps everything but its tier, its pointer and its
      update time: it is cold, its `object_key` is the path its payload was
      appended to, its `archive_key` the daily-notes key, and its other
      pointer entries are kept. */
  lemma ArchivedProps(item: MemoryItem, owner: string, root: string, now: int)
    ensures var a := Archived(item, owner, root, now);
      && a.tier == Cold && a.updatedAt == now
      && a.pointer["object_key"] == ResolvePath(root, DailyKey(owner, item.createdAt))
      && a.pointer["archive_key"] == DailyKey(owner, item.createdAt)
      && a.pointer.Keys == item.pointer.Keys + {"object_key", "archive_key"}
      && (forall k | k in item.pointer && k != "object_key" && k != "archive_key" :: a.pointer[k] == item.pointer[k])
      && a == item.(tier := Cold, updatedAt := now, pointer := a.pointer)
  {
    assert "object_key" != "archive_key";
  }

  /** `append(key, payload)` on the file map. */
  function AppendFile(files: map<string, FileData>, path: string, p: Payload): map<string, FileData>
  {
    files[path := Parsed(JList(Existing(files, path) + [p]))]
  }

  /** The path an item's payload is appended to. */
  function ArchivePath(owner: string, root: string): MemoryItem -> string
  {
    (item: MemoryItem) => ResolvePath(root, DailyKey(owner, item.createdAt))
  }

  /** Appending each item's payload, in order, to the file `pathOf` gives
      for it. */
  function AppendEach(files: map<string, FileData>, pathOf: MemoryItem -> string, items: seq<MemoryItem>): map<string, FileData>
  {
    if items == [] then files
    else
      var last := items[|items| - 1];
      AppendFile(AppendEach(files, pathOf, items[..|items| - 1]), pathOf(last), PayloadOf(last))
  }

  /** The appends of the archiving loop. */
  function AppendAll(files: map<string, FileData>, owner: string, root: string, items: seq<MemoryItem>): map<string, FileData>
  {
    AppendEach(files, ArchivePath(owner, root), items)
  }

  /** Whether the file at `path` is a list holding payload `p`. */
  predicate Holds(files: map<string, FileData>, path: string, p: Payload)
  {
    path in files && files[path].Parsed? && files[path].j.JList? && p in files[path].j.entries
  }

  /** One append keeps every payload already held and holds the new
      one. */
  lemma AppendFileHolds(files: map<string, FileData>, path: string, p: Payload)
    ensures Holds(AppendFile(files, path, p), path, p)
    ensures forall path', q | Holds(files, path', q) :: Holds(AppendFile(files, path, p), path', q)
  {
    forall path', q | Holds(files, path', q) ensures Holds(AppendFile(files, path, p), path', q) {
      if path' == path {
        assert Existing(files, path) == files[path].j.entries;
      }
    }
  }

  lemma AppendFileKeeps(files: map<string, FileData>, path: string, p: Payload, path': string, q: Payload)
    requires Holds(files, path', q)
    ensures Holds(AppendFile(files, path, p), path', q)
  {
    AppendFileHolds(files, path, p);
  }

  lemma {:induction false} AppendEachKeeps(files: map<string, FileData>, pathOf: MemoryItem -> string, items: seq<MemoryItem>,
                                           path: string, p: Payload)
    requires Holds(files, path, p)
    ensures Holds(AppendEach(files, pathOf, items), path, p)
  {
    if items != [] {
      var last := items[|items| - 1];
      AppendEachKeeps(files, pathOf, items[..|items| - 1], path, p);
      AppendFileKeeps(AppendEach(files, pathOf, items[..|items| - 1]), pathOf(last), PayloadOf(last), path, p);
    }
  }

  lemma {:induction false} AppendEachHolds(files: map<string, FileData>, pathOf: MemoryItem -> string, items: seq<MemoryItem>, i: nat)
    requires i < |items|
    ensures Holds(AppendEach(files, pathOf, items), pathOf(items[i]), PayloadOf(items[i]))
  {
    var init := items[..|items| - 1];
    var last := items[|items| - 1];
    var before := AppendEach(files, pathOf, init);
    if i < |init| {
      AppendEachHolds(files, pathOf, init, i);
      assert items[i] == init[i];
      AppendFileKeeps(before, pathOf(last), PayloadOf(last), pathOf(init[i]), PayloadOf(init[i]));
    } else {
      AppendFileHolds(before, pathOf(last), PayloadOf(last));
    }
  }

  /** Appending keeps every payload already held. */
  lemma AppendAllKeeps(files: map<string, FileData>, owner: string, root: string, items: seq<MemoryItem>,
                       path: string, p: Payload)
    requires Holds(files, path, p)
    ensures Holds(AppendAll(files, owner, root, items), path, p)
  {
    AppendEachKeeps(files, ArchivePath(owner, root), items, path, p);
  }

  /** After archiving, the daily-notes file of every archived item is a
      list holding its payload. */
  lemma AppendAllHolds(files: map<string, FileData>, owner: string, root: string, items: seq<MemoryItem>, i: nat)
    requires i < |items|
    ensures Holds(AppendAll(files, owner, root, items), ResolvePath(root, DailyKey(owner, items[i].createdAt)), PayloadOf(items[i]))
  {
    AppendEachHolds(files, ArchivePath(owner, root), items, i);
  }

  lemma ArchivedAllAppend(xs: seq<MemoryItem>, x: MemoryItem, owner: string, root: string, now: int)
    ensures ArchivedAll(xs + [x], owner, root, now) == ArchivedAll(xs, owner, root, now) + [Archived(x, owner, root, now)]
  {
    var a := ArchivedAll(xs + [x], owner, root, now);
    var b := ArchivedAll(xs, owner, root, now) + [Archived(x, owner, root, now)];
    forall j | 0 <= j < |a| ensures a[j] == b[j] {
      if j < |xs| {
        assert (xs + [x])[j] == xs[j];
      }
    }
  }

  lemma ArchivedAllSnoc(items: seq<MemoryItem>, owner: string, root: string, now: int, i: nat)
    requires i < |items|
    ensures ArchivedAll(items[..i + 1], owner, root, now) == ArchivedAll(items[..i], owner, root, now) + [Archived(items[i], owner, root, now)]
  {
    assert items[..i + 1] == items[..i] + [items[i]];
    ArchivedAllAppend(items[..i], items[i], owner, root, now);
  }

  /** One step of the archiving loop. */
  lemma ArchiveStep(files: map<string, FileData>, owner: string, root: string, items: seq<MemoryItem>, i: nat)
    requires i < |items|
    ensures AppendAll(files, owner, root, items[..i + 1])
      == AppendFile(AppendAll(files, owner, root, items[..i]), ResolvePath(root, DailyKey(owner, items[i].createdAt)), PayloadOf(items[i]))
  {
    AppendEachStep(files, ArchivePath(owner, root), items, i);
  }

  lemma AppendEachStep(files: map<string, FileData>, pathOf: MemoryItem -> string, items: seq<MemoryItem>, i: nat)
    requires i < |items|
    ensures AppendEach(files, pathOf, items[..i + 1]) == AppendFile(AppendEach(files, pathOf, items[..i]), pathOf(items[i]), PayloadOf(items[i]))
  {
    assert items[..i + 1][..i] == items[..i];
  }

  /** `ArchiverWorker` */
  class ArchiverWorker {
    const metadata: MetadataStore
    const objects: FileObjectStore
    const index: SimpleVectorIndex
    const indexer: EpisodicIndexer

    ghost predicate Valid()
      reads this, metadata, index
    {
      indexer.index == index && metadata.Valid() && index.Valid()
    }

    constructor (metadata: MetadataStore, objects: FileObjectStore, index: SimpleVectorIndex)
      requires metadata.Valid() && index.Valid()
      ensures this.metadata == metadata && this.objects == objects && this.index == index
      ensures Valid()
    {
      this.metadata := metadata;
      this.objects := objects;
      this.index := index;
      this.indexer := new EpisodicIndexer(index);
    }

    /** `run_once(owner)`: every selected item's payload is appended to its
        daily-notes file, and the item, now cold and pointing at it, is
        upserted and indexed in the archive tier in its place. The object
        store here always has `append`. */
    method RunOnce(owner: string, now: int) returns (archived: seq<MemoryItem>)
      requires Valid()
      modifies metadata, objects, index
      ensures Valid()
      ensures var selected := ToArchive(OwnedBy(old(metadata.rows), old(metadata.order), owner));
        && archived == ArchivedAll(selected, owner, objects.root, now)
        && objects.files == AppendAll(old(objects.files), owner, objects.root, selected)
      ensures TableOf(metadata) == UpsertRows(old(TableOf(metadata)), archived, now)
      ensures IndexStateOf(index) == IndexAll(old(IndexStateOf(index)), archived, ArchiveIndex)
    {
      var items := metadata.ListByOwner(owner);
      var selected := ToArchive(items);
      archived := ArchiveAll(owner, selected, now);
    }

    /** The loop over the selected items. */
    method ArchiveAll(owner: string, selected: seq<MemoryItem>, now: int) returns (archived: seq<MemoryItem>)
      requires Valid()
      modifies metadata, objects, index
      ensures Valid()
      ensures archived == ArchivedAll(selected, owner, objects.root, now)
      ensures objects.files == AppendAll(old(objects.files), owner, objects.root, selected)
      ensures TableOf(metadata) == UpsertRows(old(TableOf(metadata)), archived, now)
      ensures IndexStateOf(index) == IndexAll(old(IndexStateOf(index)), archived, ArchiveIndex)
    {
      ghost var t0 := TableOf(metadata);
      ghost var s0 := IndexStateOf(index);
      ghost var f0 := objects.files;
      archived := [];
      var i := 0;
      while i < |selected|
        invariant 0 <= i <= |selected|
        invariant Valid()
        invariant archived == ArchivedAll(selected[..i], owner, objects.root, now)
        invariant objects.files == AppendAll(f0, owner, objects.root, selected[..i])
        invariant TableOf(metadata) == UpsertRows(t0, archived, now)
        invariant IndexStateOf(index) == IndexAll(s0, archived, ArchiveIndex)
      {
        ArchiveStep(f0, owner, objects.root, selected, i);
        var item := ArchiveOne(owner, selected[i], now);
        ArchivedAllSnoc(selected, owner, objects.root, now, i);
        UpsertRowsSnoc(t0, archived, item, now);
        IndexAllSnoc(s0, archived, item, ArchiveIndex);
        archived := archived + [item];
        i := i + 1;
      }
      assert selected[..i] == selected;
    }

    /** One iteration: append the payload to the daily-notes file, point the
        item at it, make it cold, then `upsert(item)` and
        `index_archive(item)`. */
    method ArchiveOne(owner: string, item: MemoryItem, now: int) returns (a: MemoryItem)
      requires Valid()
      modifies metadata, objects, index
      ensures Valid()
      ensures a == Archived(item, owner, objects.root, now)
      ensures objects.files == AppendFile(old(objects.files), ResolvePath(objects.root, DailyKey(owner, item.createdAt)), PayloadOf(item))
      ensures TableOf(metadata) == UpsertRow(old(TableOf(metadata)), a, now)
      ensures IndexStateOf(index) == IndexEntry(old(IndexStateOf(index)), a, ArchiveIndex)
    {
      var key := owner + "/" + DatePath(item.createdAt) + "/daily_notes";
      var path := objects.Append(key, PayloadOf(item));
      a := item.(pointer := item.pointer["object_key" := path]);
      a := a.(pointer := a.pointer["archive_key" := key]);
      a := a.(tier := Cold, updatedAt := now);
      var _ := metadata.Upsert(a, now);
      indexer.IndexArchive(a);
    }
  }

  // ---------------------------------------------------------------
  // Rehydration
  // ---------------------------------------------------------------

  /** The cold items read at least `threshold` times. */
  function ToWarm(items: seq<MemoryItem>, counts: map<string, int>, threshold: int): seq<MemoryItem>
  {
    if items == [] then []
    else
      var last := items[|items| - 1];
      ToWarm(items[..|items| - 1], counts, threshold) + if last.tier == Cold && Get(counts, last.id, 0) >= threshold then [last] else []
  }

  lemma {:induction false} ToWarmMembers(items: seq<MemoryItem>, counts: map<string, int>, threshold: int)
    ensures forall x :: x in ToWarm(items, counts, threshold) <==> x in items && x.tier == Cold && Get(counts, x.id, 0) >= threshold
  {
    if items != [] {
      ToWarmMembers(items[..|items| - 1], counts, threshold);
      assert items == items[..|items| - 1] + [items[|items| - 1]];
    }
  }

  /** The selected items made hot now. */
  function Warmed(items: seq<MemoryItem>, now: int): (r: seq<MemoryItem>)
    ensures |r| == |items|
  {
    if items == [] then [] else Warmed(items[..|items| - 1], now) + [items[|items| - 1].(tier := Hot, updatedAt := now)]
  }

  /** `RehydratorWorker`; the access counts live only here and are never
      reset. */
  class RehydratorWorker {
    const metadata: MetadataStore
    const index: SimpleVectorIndex
    const accessThreshold: int
    var accessCounts: map<string, int>

    constructor (metadata: MetadataStore, index: SimpleVectorIndex, accessThreshold: int)
      ensures this.metadata == metadata && this.index == index && this.accessThreshold == accessThreshold
      ensures accessCounts == map[]
    {
      this.metadata := metadata;
      this.index := index;
      this.accessThreshold := accessThreshold;
      accessCounts := map[];
    }

    /** `record_access(item_id)`: that id's count goes up by one. */
    method RecordAccess(id: string)
      modifies this
      ensures accessCounts == old(accessCounts)[id := Get(old(accessCounts), id, 0) + 1]
    {
      accessCounts := accessCounts[id := Get(accessCounts, id, 0) + 1];
    }

    /** `run_once(owner)`: the selected items are made hot, upserted and
        indexed hot again; the counts stay as they are. */
    method RunOnce(owner: string, now: int) returns (warmed: seq<MemoryItem>)
      requires metadata.Valid() && index.Valid()
      modifies metadata, index
      ensures metadata.Valid() && index.Valid()
      ensures warmed == Warmed(ToWarm(OwnedBy(old(metadata.rows), old(metadata.order), owner), accessCounts, accessThreshold), now)
      ensures TableOf(metadata) == UpsertRows(old(TableOf(metadata)), warmed, now)
      ensures IndexStateOf(index) == IndexAll(old(IndexStateOf(index)), warmed, Hot)
    {
      var items := metadata.ListByOwner(owner);
      warmed := WarmAll(items, now);
    }

    /** The loop over the listed items. */
    method WarmAll(items: seq<MemoryItem>, now: int) returns (warmed: seq<MemoryItem>)
      requires metadata.Valid() && index.Valid()
      modifies metadata, index
      ensures metadata.Valid() && index.Valid()
      ensures warmed == Warmed(ToWarm(items, accessCounts, accessThreshold), now)
      ensures TableOf(metadata) == UpsertRows(old(TableOf(metadata)), warmed, now)
      ensures IndexStateOf(index) == IndexAll(old(IndexStateOf(index)), warmed, Hot)
    {
      ghost var t0 := TableOf(metadata);
      ghost var s0 := IndexStateOf(index);
      warmed := [];
      var i := 0;
      while i < |items|
        invariant 0 <= i <= |items|
        invariant metadata.Valid() && index.Valid()
        invariant warmed == Warmed(ToWarm(items[..i], accessCounts, accessThreshold), now)
        invariant TableOf(metadata) == UpsertRows(t0, warmed, now)
        invariant IndexStateOf(index) == IndexAll(s0, warmed, Hot)
      {
        WarmStep(items, i, accessCounts, accessThreshold, now);
        var item := items[i];
        if item.tier != Cold {
          i := i + 1;
          continue;
        }
        var count := if item.id in accessCounts then accessCounts[item.id] else 0;
        if count >= accessThreshold {
          item := item.(tier := Hot, updatedAt := now);
          UpsertRowsSnoc(t0, warmed, item, now);
          IndexAllSnoc(s0, warmed, item, Hot);
          StoreOne(item, now);
          warmed := warmed + [item];
        }
        i := i + 1;
      }
      assert items[..i] == items;
    }

    /** One warmed item's stores: `upsert(item)`, then the index upsert
        at the hot tier. */
    method StoreOne(item: MemoryItem, now: int)
      requires metadata.Valid() && index.Valid()
      modifies metadata, index
      ensures metadata.Valid() && index.Valid()
      ensures TableOf(metadata) == UpsertRow(old(TableOf(metadata)), item, now)
      ensures IndexStateOf(index) == IndexEntry(old(IndexStateOf(index)), item, Hot)
    {
      var _ := metadata.Upsert(item, now);
      index.Upsert(item.id, Text(item), MetaFor(item, Hot));
    }
  }

  /** One step of the rehydration loop. */
  lemma WarmStep(items: seq<MemoryItem>, i: nat, counts: map<string, int>, threshold: int, now: int)
    requires i < |items|
    ensures var x := items[i];
      var picked := x.tier == Cold && Get(counts, x.id, 0) >= threshold;
      Warmed(ToWarm(items[..i + 1], counts, threshold), now)
        == Warmed(ToWarm(items[..i], counts, threshold), now) + if picked then [x.(tier := Hot, updatedAt := now)] else []
  {
    var x := items[i];
    assert items[..i + 1][..i] == items[..i];
    var before := ToWarm(items[..i], counts, threshold);
    if x.tier == Cold && Get(counts, x.id, 0) >= threshold {
      assert ToWarm(items[..i + 1], counts, threshold) == before + [x];
      assert (before + [x])[..|before|] == before;
    } else {
      assert ToWarm(items[..i + 1], counts, threshold) == before + [];
      assert before + [] == before;
    }
  }

  // ---------------------------------------------------------------
  // Compaction
  // ---------------------------------------------------------------

  /** The expired items, in order. */
  function ExpiredOf(items: seq<MemoryItem>, now: int): seq<MemoryItem>
  {
    if items == [] then []
    else
      var last := items[|items| - 1];
      ExpiredOf(items[..|items| - 1], now) + if IsExpired(last, now) then [last] else []
  }

  lemma {:induction false} ExpiredOfMembers(items: seq<MemoryItem>, now: int)
    ensures forall x :: x in ExpiredOf(items, now) <==> x in items && IsExpired(x, now)
  {
    if items != [] {
      ExpiredOfMembers(items[..|items| - 1], now);
      assert items == items[..|items| - 1] + [items[|items| - 1]];
    }
  }

  /** `Compactor` */
  class Compactor {
    const metadata: MetadataStore

    constructor (metadata: MetadataStore)
      ensures this.metadata == metadata
    {
      this.metadata := metadata;
    }

    /** `run_once(owner)`: every expired item of the owner is deleted and
        returned, in listing order. */
    method RunOnce(owner: string, now: int) returns (removed: seq<MemoryItem>)
      requires metadata.Valid()
      modifies metadata
      ensures metadata.Valid()
      ensures removed == ExpiredOf(OwnedBy(old(metadata.rows), old(metadata.order), owner), now)
      ensures TableOf(metadata) == DeleteRows(old(TableOf(metadata)), removed)
    {
      var items := metadata.ListByOwner(owner);
      removed := DeleteExpired(items, now);
    }

    /** The loop over the listed items. */
    method DeleteExpired(items: seq<MemoryItem>, now: int) returns (removed: seq<MemoryItem>)
      requires metadata.Valid()
      modifies metadata
      ensures metadata.Valid()
      ensures removed == ExpiredOf(items, now)
      ensures TableOf(metadata) == DeleteRows(old(TableOf(metadata)), removed)
    {
      ghost var t0 := TableOf(metadata);
      removed := [];
      var i := 0;
      while i < |items|
        invariant 0 <= i <= |items|
        invariant metadata.Valid()
        invariant removed == ExpiredOf(items[..i], now)
        invariant TableOf(metadata) == DeleteRows(t0, removed)
      {
        assert items[..i + 1][..i] == items[..i];
        if IsExpired(items[i], now) {
          assert (removed + [items[i]])[..|removed|] == removed;
          metadata.Delete(items[i].id);
          removed := removed + [items[i]];
        }
        i := i + 1;
      }
      assert items[..i] == items;
    }
  }

  /** The compactor removes exactly the owner's expired items and leaves
      every other row as it was. */
  lemma CompactExactly(t: Table, owner: string, now: int)
    requires forall i | 0 <= i < |t.order| :: t.order[i] in t.rows
    requires forall k | k in t.rows :: t.rows[k].id == k
    requires NoDups(t.order)
    requires forall k :: k in t.order <==> k in t.rows
    ensures var after := DeleteRows(t, ExpiredOf(OwnedBy(t.rows, t.order, owner), now)).rows;
      && (forall k :: k in after <==> k in t.rows && !(t.rows[k].owner == owner && IsExpired(t.rows[k], now)))
      && forall k | k in after :: after[k] == t.rows[k]
  {
    var listed := OwnedBy(t.rows, t.order, owner);
    var removed := ExpiredOf(listed, now);
    OwnedByMembers(t.rows, t.order, owner);
    ExpiredOfMembers(listed, now);
    DeleteRowsProps(t, removed);
    forall k ensures k in (set x | x in removed :: x.id) <==> k in t.rows && t.rows[k].owner == owner && IsExpired(t.rows[k], now) {
      if k in t.rows && t.rows[k].owner == owner && IsExpired(t.rows[k], now) {
        var j :| 0 <= j < |t.order| && t.order[j] == k;
        assert t.rows[k] in listed;
        assert t.rows[k] in removed;
      }
    }
  }
}
