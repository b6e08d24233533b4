/** memoryagent/retrieval.py: the tiered retrieval pipeline. A query is run
    against the hot tier one memory type at a time; when the confidence in
    what came back is low the archive index is searched, and when it is
    still low the archived payloads are read back from the object store.
    The results are then hydrated from the metadata store, deduplicated by
    id, reranked and turned into context blocks. */
module Retrieval {
  import opened PyLib
  import opened Utils
  import opened Models
  import opened Confidence
  import opened InMemory
  import opened LocalDisk

  /** An exception escaping `retrieve`: from the index query, or from
      reading a cold payload that is not valid JSON. */
  datatype RetrieveError = IndexFailed(e: QueryError) | ColdReadFailed(s: StoreError)

  function AllTypes(): seq<MemoryType>
  {
    [Working, Episodic, Semantic, Perceptual]
  }

  // ---------------------------------------------------------------
  // Hot search
  // ---------------------------------------------------------------

  /** `query.types or [all four types]` */
  function HotTypes(q: MemoryQuery): (r: seq<MemoryType>)
    ensures r != []
    ensures q.types.Some? && q.types.value != [] ==> r == q.types.value
    ensures q.types.None? || q.types == Some([]) ==> r == [Working, Episodic, Semantic, Perceptual]
  {
    if q.types.Some? && q.types.value != [] then q.types.value else AllTypes()
  }

  /** `max(1, hot_top_k // max(1, len(types)))`: at least one result per
      type, and otherwise the largest even share of `hot_top_k`. */
  function PerTypeLimit(plan: RetrievalPlan, types: seq<MemoryType>): (r: int)
    ensures r >= 1
    ensures 1 <= |types| <= plan.hotTopK ==> r * |types| <= plan.hotTopK < (r + 1) * |types|
    ensures plan.hotTopK < Max(1, |types|) ==> r == 1
  {
    var n := Max(1, |types|);
    var share := plan.hotTopK / n;
    assert plan.hotTopK == share * n + plan.hotTopK % n;
    assert plan.hotTopK < n ==> share < 1;
    Max(1, share)
  }

  /** The filters of the hot query for one type. */
  function HotFilters(q: MemoryQuery, t: MemoryType): Filters
  {
    Filters(Some(q.owner), Some(Hot), TypesIn([t]))
  }

  /** The filters of the archive query: `types` is passed on as given,
      including `None`. */
  function ArchiveFilters(q: MemoryQuery): Filters
  {
    Filters(Some(q.owner), Some(ArchiveIndex), if q.types.Some? then TypesIn(q.types.value) else TypesNone)
  }

  /** The hot loop: one query per type, the results concatenated. */
  function HotSpec(p: Postings, m: map<string, IndexMeta>, q: MemoryQuery, types: seq<MemoryType>, limit: int): Result<seq<ScoredMemory>, QueryError>
  {
    if types == [] then Ok([])
    else match QuerySpec(p, m, q.text, HotFilters(q, types[0]), limit)
      case Err(e) => Err(e)
      case Ok(v) => PrependAll(v, HotSpec(p, m, q, types[1..], limit))
  }

  /** With an owner and a list of types in the filters no candidate can
      raise, and every hit is in the filtered tier. */
  lemma {:induction false} ScoreAllFiltered(m: map<string, IndexMeta>, counts: map<string, int>, ids: seq<string>, f: Filters, n: int)
    requires f.owner.Some? && f.tier.Some? && f.types.TypesIn?
    ensures ScoreAll(m, counts, ids, f, n).Ok?
    ensures forall s | s in ScoreAll(m, counts, ids, f, n).value :: s.tier == f.tier.value
    decreases |ids|
  {
    if ids != [] {
      ScoreAllFiltered(m, counts, ids[1..], f, n);
    }
  }

  lemma TakeMembers<T>(s: seq<T>, n: int)
    ensures forall x | x in Take(s, n) :: x in s
  {
    var r := Take(s, n);
    forall x | x in r ensures x in s {
      var i :| 0 <= i < |r| && r[i] == x;
      assert s[i] == x;
    }
  }

  /** A hot query cannot fail, returns at most `limit` hits, and every hit
      is from the hot tier. */
  lemma HotQueryProps(p: Postings, m: map<string, IndexMeta>, q: MemoryQuery, t: MemoryType, limit: int)
    requires limit >= 0
    ensures var r := QuerySpec(p, m, q.text, HotFilters(q, t), limit);
      r.Ok? && |r.value| <= limit && forall s | s in r.value :: s.tier == Hot
  {
    var f := HotFilters(q, t);
    var qt := QueryTokens(q.text);
    if qt != [] {
      var tally := TallyTokens(p, EmptyTally(), qt);
      ScoreAllFiltered(m, tally.counts, tally.order, f, |qt|);
      var scored := ScoreAll(m, tally.counts, tally.order, f, |qt|).value;
      var sorted := SortDesc(scored, ScoreOf);
      SortDescCorrect(scored, ScoreOf);
      forall x | x in sorted ensures x in scored {
        assert x in multiset(sorted);
      }
      TakeMembers(sorted, limit);
    }
  }

  /** The hot search never fails; it returns at most `limit` hits per type,
      all from the hot tier. */
  lemma {:induction false} HotSpecProps(p: Postings, m: map<string, IndexMeta>, q: MemoryQuery, types: seq<MemoryType>, limit: int)
    requires limit >= 0
    ensures var r := HotSpec(p, m, q, types, limit);
      r.Ok? && |r.value| <= |types| * limit && forall s | s in r.value :: s.tier == Hot
    decreases |types|
  {
    if types != [] {
      HotQueryProps(p, m, q, types[0], limit);
      HotSpecProps(p, m, q, types[1..], limit);
      var v := QuerySpec(p, m, q.text, HotFilters(q, types[0]), limit).value;
      var rest := HotSpec(p, m, q, types[1..], limit).value;
      assert HotSpec(p, m, q, types, limit) == Ok(v + rest);
      MulStep(|types[1..]|, limit);
    }
  }

  /** Distributing one multiplication, kept apart so that the proof above
      does not reason about non-linear arithmetic (a solver-cost aid). */
  lemma MulStep(n: int, l: int)
    ensures (n + 1) * l == l + n * l
  {
  }

  /** The hot results, which always exist. */
  function HotResults(p: Postings, m: map<string, IndexMeta>, q: MemoryQuery, plan: RetrievalPlan): (r: seq<ScoredMemory>)
    ensures HotSpec(p, m, q, HotTypes(q), PerTypeLimit(plan, HotTypes(q))) == Ok(r)
  {
    var types := HotTypes(q);
    HotSpecProps(p, m, q, types, PerTypeLimit(plan, types));
    HotSpec(p, m, q, types, PerTypeLimit(plan, types)).value
  }

  // ---------------------------------------------------------------
  // Cold fetch
  // ---------------------------------------------------------------

  /** The results scoring at least `min`, in order. */
  function AtLeast(rs: seq<ScoredMemory>, min: real): (r: seq<ScoredMemory>)
    ensures |r| <= |rs|
    ensures forall x :: x in r <==> x in rs && x.score >= min
  {
    if rs == [] then []
    else (if rs[0].score >= min then [rs[0]] else []) + AtLeast(rs[1..], min)
  }

  /** The cold candidates: the archive hits scoring at least
      `cold_fetch_min_score`, in order, the first `cold_fetch_limit` of
      them. */
  function ColdCandidates(archive: seq<ScoredMemory>, plan: RetrievalPlan): (r: seq<ScoredMemory>)
    ensures forall x | x in r :: x in archive && x.score >= plan.coldFetchMinScore
    ensures |r| <= |AtLeast(archive, plan.coldFetchMinScore)| && r == AtLeast(archive, plan.coldFetchMinScore)[..|r|]
    ensures plan.coldFetchLimit >= 0 ==> |r| == Min(plan.coldFetchLimit, |AtLeast(archive, plan.coldFetchMinScore)|)
  {
    var c := Take(AtLeast(archive, plan.coldFetchMinScore), plan.coldFetchLimit);
    TakeMembers(AtLeast(archive, plan.coldFetchMinScore), plan.coldFetchLimit);
    c
  }

  /** The first entry of a daily-notes list carrying the id. */
  function PayloadFor(entries: seq<Payload>, id: string): (r: Option<Payload>)
    ensures r.None? <==> forall i | 0 <= i < |entries| :: entries[i].id != id
    ensures r.Some? ==> exists i | 0 <= i < |entries| ::
      (entries[i] == r.value && r.value.id == id && forall j | 0 <= j < i :: entries[j].id != id)
  {
    if entries == [] then None
    else if entries[0].id == id then Some(entries[0])
    else
      var rest := PayloadFor(entries[1..], id);
      assert forall i | 0 < i < |entries| :: entries[i] == entries[1..][i - 1];
      rest
  }

  /** What one cold candidate contributes. */
  datatype ColdOutcome = NoPointer | Warn(msg: string) | Hit(s: ScoredMemory)

  /** The hydrated copy of a candidate: its content replaced by the
      payload, moved to the cold tier. */
  function ColdHit(c: ScoredMemory, content: Content): ScoredMemory
  {
    ScoredMemory(c.item.(content := content, tier := Cold), c.score, Cold, Some("cold hydrate"))
  }

  /** One turn of the cold loop. */
  function ColdStep(files: map<string, FileData>, root: string, c: ScoredMemory): Result<ColdOutcome, StoreError>
  {
    var pointer := Get(c.item.pointer, "object_key", "");
    if pointer == "" then Ok(NoPointer)
    else match Lookup(files, ResolvePath(root, pointer))
      case Err(e) => Err(e)
      case Ok(None) => Ok(Warn("Missing cold object: " + pointer))
      case Ok(Some(j)) =>
        match j
        case JNull => Ok(Warn("Missing cold object: " + pointer))
        case JList(es) =>
          (match PayloadFor(es, c.item.id)
           case None => Ok(Warn("Missing id " + c.item.id + " in daily notes: " + pointer))
           case Some(pl) => Ok(Hit(ColdHit(c, Record(pl)))))
        case JObject(pl) => Ok(Hit(ColdHit(c, Record(pl))))
        case JString(t) => Ok(Hit(ColdHit(c, Str(t))))
        case JScalar(repr) => Ok(Hit(ColdHit(c, Value(repr))))
  }

  /** The hits and warnings of the cold loop. */
  datatype ColdBatch = ColdBatch(hits: seq<ScoredMemory>, warnings: seq<string>)

  function AddOutcome(o: ColdOutcome, r: Result<ColdBatch, StoreError>): Result<ColdBatch, StoreError>
  {
    match r
    case Err(e) => Err(e)
    case Ok(b) =>
      match o
      case NoPointer => Ok(b)
      case Warn(w) => Ok(ColdBatch(b.hits, [w] + b.warnings))
      case Hit(s) => Ok(ColdBatch([s] + b.hits, b.warnings))
  }

  /** The cold loop over the candidates; a payload that cannot be read
      ends it. */
  function ColdFetch(files: map<string, FileData>, root: string, cs: seq<ScoredMemory>): Result<ColdBatch, StoreError>
  {
    if cs == [] then Ok(ColdBatch([], []))
    else match ColdStep(files, root, cs[0])
      case Err(e) => Err(e)
      case Ok(o) => AddOutcome(o, ColdFetch(files, root, cs[1..]))
  }

  /** Each candidate gives at most one hit or one warning; every hit is a
      candidate moved to the cold tier with its score kept, and the
      candidates without a pointer give nothing. */
  lemma {:induction false} ColdFetchProps(files: map<string, FileData>, root: string, cs: seq<ScoredMemory>)
    ensures var r := ColdFetch(files, root, cs);
      r.Ok? ==>
        && |r.value.hits| + |r.value.warnings| <= |cs|
        && (forall h | h in r.value.hits :: h.tier == Cold && h.item.tier == Cold && h.explanation == Some("cold hydrate")
              && exists c | c in cs :: h.item == c.item.(content := h.item.content, tier := Cold) && h.score == c.score)
    ensures (forall i | 0 <= i < |cs| :: Get(cs[i].item.pointer, "object_key", "") == "") ==> ColdFetch(files, root, cs) == Ok(ColdBatch([], []))
    decreases |cs|
  {
    if cs != [] {
      ColdFetchProps(files, root, cs[1..]);
      var r := ColdFetch(files, root, cs);
      if r.Ok? {
        var rest := ColdFetch(files, root, cs[1..]).value;
        forall h | h in r.value.hits
          ensures h.tier == Cold && h.item.tier == Cold && h.explanation == Some("cold hydrate")
          ensures exists c | c in cs :: h.item == c.item.(content := h.item.content, tier := Cold) && h.score == c.score
        {
          if h !in rest.hits {
            assert h.item == cs[0].item.(content := h.item.content, tier := Cold);
          } else {
            var c :| c in cs[1..] && h.item == c.item.(content := h.item.content, tier := Cold) && h.score == c.score;
            assert c in cs;
          }
        }
      }
    }
  }

  /** The candidates the cold step hydrates, as their hits, in candidate
      order. */
  function HitsOf(files: map<string, FileData>, root: string, cs: seq<ScoredMemory>): seq<ScoredMemory>
  {
    if cs == [] then []
    else
      var first := ColdStep(files, root, cs[0]);
      (if first.Ok? && first.value.Hit? then [first.value.s] else []) + HitsOf(files, root, cs[1..])
  }

  /** The messages of the candidates the cold step warns about, in
      candidate order. */
  function WarningsOf(files: map<string, FileData>, root: string, cs: seq<ScoredMemory>): seq<string>
  {
    if cs == [] then []
    else
      var first := ColdStep(files, root, cs[0]);
      (if first.Ok? && first.value.Warn? then [first.value.msg] else []) + WarningsOf(files, root, cs[1..])
  }

  /** The cold loop succeeds exactly when every candidate's step does, and
      then its hits and warnings are those of the candidates taken one by
      one, in order. */
  lemma {:induction false} ColdFetchSteps(files: map<string, FileData>, root: string, cs: seq<ScoredMemory>)
    ensures ColdFetch(files, root, cs).Ok? <==> forall i | 0 <= i < |cs| :: ColdStep(files, root, cs[i]).Ok?
    ensures ColdFetch(files, root, cs).Ok? ==>
      ColdFetch(files, root, cs).value == ColdBatch(HitsOf(files, root, cs), WarningsOf(files, root, cs))
    decreases |cs|
  {
    if cs != [] {
      ColdFetchSteps(files, root, cs[1..]);
      assert forall i | 1 <= i < |cs| :: cs[i] == cs[1..][i - 1];
    }
  }

  /** A failed cold loop reports the error of the first candidate whose
      payload cannot be read. */
  lemma {:induction false} ColdFetchError(files: map<string, FileData>, root: string, cs: seq<ScoredMemory>)
    requires ColdFetch(files, root, cs).Err?
    ensures exists i | 0 <= i < |cs| ::
      && ColdStep(files, root, cs[i]) == Err(ColdFetch(files, root, cs).error)
      && forall j | 0 <= j < i :: ColdStep(files, root, cs[j]).Ok?
    decreases |cs|
  {
    if ColdStep(files, root, cs[0]).Err? {
      assert ColdStep(files, root, cs[0]) == Err(ColdFetch(files, root, cs).error);
    } else {
      ColdFetchError(files, root, cs[1..]);
      var i :| 0 <= i < |cs[1..]|
        && ColdStep(files, root, cs[1..][i]) == Err(ColdFetch(files, root, cs[1..]).error)
        && forall j | 0 <= j < i :: ColdStep(files, root, cs[1..][j]).Ok?;
      assert forall j | 1 <= j < i + 1 :: cs[j] == cs[1..][j - 1];
      assert ColdStep(files, root, cs[i + 1]) == Err(ColdFetch(files, root, cs).error);
    }
  }

  /** A candidate is hydrated only from the file its `object_key` names:
      the hit is the candidate moved to the cold tier with the payload as
      content, which is the first entry carrying the item's id in a
      daily-notes list, the record itself, or the stored value. */
  lemma ColdStepHit(files: map<string, FileData>, root: string, c: ScoredMemory, h: ScoredMemory)
    requires ColdStep(files, root, c) == Ok(Hit(h))
    ensures var key := Get(c.item.pointer, "object_key", "");
      var path := ResolvePath(root, key);
      && key != "" && path in files && files[path].Parsed?
      && h == ColdHit(c, h.item.content)
      && match files[path].j
         case JList(es) =>
           exists i | 0 <= i < |es| ::
             && es[i].id == c.item.id && h.item.content == Record(es[i])
             && forall j | 0 <= j < i :: es[j].id != c.item.id
         case JObject(pl) => h.item.content == Record(pl)
         case JString(t) => h.item.content == Str(t)
         case JScalar(r) => h.item.content == Value(r)
         case JNull => false
  {
  }

  /** A candidate draws a warning exactly when it has a pointer whose file
      is missing, holds `null`, or is a daily-notes list without the
      item's id; the warning names the pointer. */
  lemma ColdStepWarn(files: map<string, FileData>, root: string, c: ScoredMemory)
    ensures var key := Get(c.item.pointer, "object_key", "");
      var path := ResolvePath(root, key);
      && (ColdStep(files, root, c).Ok? && ColdStep(files, root, c).value.Warn? <==>
            key != "" && (path !in files || (files[path].Parsed? &&
              (files[path].j.JNull? || (files[path].j.JList? && PayloadFor(files[path].j.entries, c.item.id).None?)))))
      && (ColdStep(files, root, c) == Ok(Warn("Missing cold object: " + key)) <==>
            key != "" && (path !in files || files[path] == Parsed(JNull)))
  {
    var key := Get(c.item.pointer, "object_key", "");
    var missingId := "Missing id " + c.item.id + " in daily notes: " + key;
    assert missingId[8] == 'i' != ("Missing cold object: " + key)[8];
  }

  // ---------------------------------------------------------------
  // Hydrate, dedupe, rerank, blocks
  // ---------------------------------------------------------------

  /** `_hydrate` for one result: a result with content and tags is kept;
      otherwise the stored item, when there is one, takes its place. */
  function HydrateOne(rows: map<string, MemoryItem>, s: ScoredMemory): ScoredMemory
  {
    if s.item.content != Null && s.item.tags != [] then s
    else if s.item.id in rows then s.(item := rows[s.item.id])
    else s
  }

  function Hydrate(rows: map<string, MemoryItem>, rs: seq<ScoredMemory>): seq<ScoredMemory>
  {
    seq(|rs|, i requires 0 <= i < |rs| => HydrateOne(rows, rs[i]))
  }

  /** Hydration keeps the length, the order, the ids, scores, tiers and
      explanations; complete results pass through, and the others take
      the stored item when there is one. */
  lemma HydrateProps(rows: map<string, MemoryItem>, rs: seq<ScoredMemory>)
    requires forall k | k in rows :: rows[k].id == k
    ensures var r := Hydrate(rows, rs);
      && |r| == |rs|
      && (forall i | 0 <= i < |rs| :: r[i].item.id == rs[i].item.id && r[i].score == rs[i].score
            && r[i].tier == rs[i].tier && r[i].explanation == rs[i].explanation)
      && (forall i | 0 <= i < |rs| && rs[i].item.content != Null && rs[i].item.tags != [] :: r[i] == rs[i])
      && (forall i | 0 <= i < |rs| && !(rs[i].item.content != Null && rs[i].item.tags != []) ::
            r[i].item == if rs[i].item.id in rows then rows[rs[i].item.id] else rs[i].item)
  {
  }

  function Ids(rs: seq<ScoredMemory>): (r: seq<string>)
    ensures |r| == |rs| && forall i | 0 <= i < |rs| :: r[i] == rs[i].item.id
  {
    seq(|rs|, i requires 0 <= i < |rs| => rs[i].item.id)
  }

  /** The dict `_dedupe` fills: its keys in insertion order and its
      values. */
  datatype Best = Best(keys: seq<string>, best: map<string, ScoredMemory>)

  /** One turn of the dedupe loop: a new id is added at the end, and a
      known id is replaced only by a strictly higher score. */
  function DedupeStep(b: Best, s: ScoredMemory): Best
  {
    var k := s.item.id;
    if k !in b.best then Best(b.keys + [k], b.best[k := s])
    else if s.score > b.best[k].score then Best(b.keys, b.best[k := s])
    else b
  }

  function DedupeFold(rs: seq<ScoredMemory>): (r: Best)
    ensures forall k :: k in r.keys <==> k in r.best
    ensures forall k | k in r.best :: r.best[k].item.id == k
  {
    if rs == [] then Best([], map[]) else DedupeStep(DedupeFold(rs[..|rs| - 1]), rs[|rs| - 1])
  }

  /** `list(best.values())`: the values in key order. */
  function Values(b: Best): seq<ScoredMemory>
    requires forall k | k in b.keys :: k in b.best
  {
    seq(|b.keys|, j requires 0 <= j < |b.keys| => b.best[b.keys[j]])
  }

  /** `_dedupe(results)` */
  function Dedupe(rs: seq<ScoredMemory>): seq<ScoredMemory>
  {
    Values(DedupeFold(rs))
  }

  /** The dict's keys are the result ids, each once, in order of first
      appearance. */
  lemma {:induction false} DedupeKeys(rs: seq<ScoredMemory>)
    ensures DedupeFold(rs).keys == Distinct(Ids(rs))
  {
    if rs != [] {
      var init := rs[..|rs| - 1];
      DedupeKeys(init);
      assert Ids(rs)[..|rs| - 1] == Ids(init);
    }
  }

  /** `rs[i]` is the entry `_dedupe` keeps for id `k`: no entry with that
      id scores higher, and every earlier one scores lower. */
  predicate ChosenAt(rs: seq<ScoredMemory>, k: string, i: int)
  {
    && 0 <= i < |rs| && rs[i].item.id == k
    && (forall j | 0 <= j < |rs| && rs[j].item.id == k :: rs[j].score <= rs[i].score)
    && (forall j | 0 <= j < i && rs[j].item.id == k :: rs[j].score < rs[i].score)
  }

  /** A choice among the first `n` entries stays the choice when the next
      entry has another id or does not score higher. */
  lemma ChosenExtend(rs: seq<ScoredMemory>, n: int, k: string, i: int)
    requires 0 <= n < |rs| && ChosenAt(rs[..n], k, i)
    requires rs[n].item.id != k || rs[n].score <= rs[i].score
    ensures ChosenAt(rs[..n + 1], k, i)
  {
    assert rs[..n + 1][..n] == rs[..n];
  }

  /** Entry `n` is the choice among the first `n + 1` when every earlier
      entry with its id scores lower. */
  lemma ChosenLast(rs: seq<ScoredMemory>, n: int)
    requires 0 <= n < |rs|
    requires forall j | 0 <= j < n && rs[j].item.id == rs[n].item.id :: rs[j].score < rs[n].score
    ensures ChosenAt(rs[..n + 1], rs[n].item.id, n)
  {
  }

  lemma DedupeChosenStep(rs: seq<ScoredMemory>, k: string)
    requires rs != []
    requires var init := rs[..|rs| - 1];
      forall k | k in DedupeFold(init).best :: exists i :: ChosenAt(init, k, i) && init[i] == DedupeFold(init).best[k]
    requires k in DedupeFold(rs).best
    ensures exists i :: ChosenAt(rs, k, i) && rs[i] == DedupeFold(rs).best[k]
  {
    var n := |rs| - 1;
    var init := rs[..n];
    var s := rs[n];
    assert rs[..n + 1] == rs;
    var b := DedupeFold(init);
    if k != s.item.id || (k in b.best && !(s.score > b.best[k].score)) {
      var i :| ChosenAt(init, k, i) && init[i] == b.best[k];
      ChosenExtend(rs, n, k, i);
      assert rs[i] == init[i];
    } else if k !in b.best {
      DedupeKeys(init);
      assert k !in Ids(init);
      forall j | 0 <= j < n ensures rs[j].item.id != k {
        assert Ids(init)[j] == rs[j].item.id;
      }
      ChosenLast(rs, n);
    } else {
      var i :| ChosenAt(init, k, i) && init[i] == b.best[k];
      forall j | 0 <= j < n && rs[j].item.id == k ensures rs[j].score < s.score {
        assert init[j] == rs[j];
      }
      ChosenLast(rs, n);
    }
  }

  lemma {:induction false} DedupeChosen(rs: seq<ScoredMemory>)
    ensures forall k | k in DedupeFold(rs).best :: exists i :: ChosenAt(rs, k, i) && rs[i] == DedupeFold(rs).best[k]
  {
    if rs != [] {
      DedupeChosen(rs[..|rs| - 1]);
      forall k | k in DedupeFold(rs).best ensures exists i :: ChosenAt(rs, k, i) && rs[i] == DedupeFold(rs).best[k] {
        DedupeChosenStep(rs, k);
      }
    }
  }

  /** `_dedupe` keeps one result per id, in order of first appearance; the
      one it keeps carries the highest score for its id, and on a tie the
      first one seen. */
  lemma DedupeProps(rs: seq<ScoredMemory>)
    ensures Ids(Dedupe(rs)) == Distinct(Ids(rs))
    ensures NoDups(Ids(Dedupe(rs)))
    ensures forall j | 0 <= j < |Dedupe(rs)| :: exists i :: ChosenAt(rs, Dedupe(rs)[j].item.id, i) && rs[i] == Dedupe(rs)[j]
  {
    var b := DedupeFold(rs);
    var out := Dedupe(rs);
    DedupeKeys(rs);
    DedupeChosen(rs);
    assert Ids(out) == b.keys;
    forall j | 0 <= j < |out| ensures exists i :: ChosenAt(rs, out[j].item.id, i) && rs[i] == out[j] {
      assert out[j] == b.best[b.keys[j]];
    }
  }

  /** The rerank key: `clamp(0.75 * score + 0.25 * confidence)`. */
  function RerankKey(s: ScoredMemory): real
  {
    Clamp01(0.75 * s.score + 0.25 * s.item.confidence)
  }

  /** `_rerank(results)` */
  function Rerank(rs: seq<ScoredMemory>, maxResults: int): seq<ScoredMemory>
  {
    Take(SortDesc(rs, RerankKey), maxResults)
  }

  /** The reranked list is a prefix of a stable descending sort of the
      input by the rerank key, so it is sorted, drawn from the input and
      at most `max_results` long. */
  lemma RerankProps(rs: seq<ScoredMemory>, maxResults: int)
    ensures var sorted := SortDesc(rs, RerankKey);
      var r := Rerank(rs, maxResults);
      && SortedDesc(r, RerankKey)
      && multiset(r) <= multiset(rs)
      && r == sorted[..|r|]
      && (maxResults >= 0 ==> |r| == Min(maxResults, |rs|))
      && multiset(sorted) == multiset(rs)
      && forall k :: WithKey(sorted, RerankKey, k) == WithKey(rs, RerankKey, k)
  {
    var sorted := SortDesc(rs, RerankKey);
    var r := Rerank(rs, maxResults);
    SortDescCorrect(rs, RerankKey);
    assert sorted == r + sorted[|r|..];
    assert multiset(sorted) == multiset(r) + multiset(sorted[|r|..]);
  }

  /** The block for one result. */
  function BlockOf(s: ScoredMemory): MemoryBlock
  {
    MemoryBlock(Text(s.item), s.item.id, s.item.mtype, s.tier, s.score, s.item.owner, s.item.tags)
  }

  /** `_to_blocks(results)` */
  function ToBlocks(rs: seq<ScoredMemory>): seq<MemoryBlock>
  {
    seq(|rs|, i requires 0 <= i < |rs| => BlockOf(rs[i]))
  }

  /** One block per result, in the same order, carrying the result's text,
      id, type, tier, score, owner and tags. */
  lemma ToBlocksProps(rs: seq<ScoredMemory>)
    ensures var bs := ToBlocks(rs);
      && |bs| == |rs|
      && forall i | 0 <= i < |rs| ::
        bs[i].text == Text(rs[i].item) && bs[i].itemId == rs[i].item.id && bs[i].memoryType == rs[i].item.mtype
        && bs[i].tier == rs[i].tier && bs[i].score == rs[i].score && bs[i].owner == rs[i].item.owner
        && bs[i].tags == rs[i].item.tags
  {
  }

  /** `trace.sources`: "type:tier" for each result. */
  function Sources(rs: seq<ScoredMemory>): seq<string>
  {
    seq(|rs|, i requires 0 <= i < |rs| => TypeValue(rs[i].item.mtype) + ":" + TierValue(rs[i].tier))
  }

  // ---------------------------------------------------------------
  // The pipeline
  // ---------------------------------------------------------------

  const EscArchive := "hot confidence below threshold; searching archive"
  const EscCold := "archive confidence low; fetching cold payloads"

  /** What the search stages gather before the results are post-processed. */
  datatype Gathered = Gathered(
    results: seq<ScoredMemory>,
    usedTiers: seq<StorageTier>,
    confidence: ConfidenceReport,
    escalations: seq<string>,
    warnings: seq<string>)

  /** The hot search, then the escalations. */
  function Gather(p: Postings, m: map<string, IndexMeta>, files: map<string, FileData>, root: string,
                  plan: RetrievalPlan, q: MemoryQuery, now: int): Result<Gathered, RetrieveError>
  {
    var types := HotTypes(q);
    match HotSpec(p, m, q, types, PerTypeLimit(plan, types))
    case Err(e) => Err(IndexFailed(e))
    case Ok(hot) => Escalate(p, m, files, root, plan, q, now, hot)
  }

  /** The archive query of the first escalation. */
  function ArchiveResults(p: Postings, m: map<string, IndexMeta>, plan: RetrievalPlan, q: MemoryQuery): Result<seq<ScoredMemory>, QueryError>
  {
    QuerySpec(p, m, q.text, ArchiveFilters(q), plan.archiveTopK)
  }

  /** Stop at the hot results when they are confident enough; otherwise
      search the archive. */
  function Escalate(p: Postings, m: map<string, IndexMeta>, files: map<string, FileData>, root: string,
                    plan: RetrievalPlan, q: MemoryQuery, now: int, hot: seq<ScoredMemory>): Result<Gathered, RetrieveError>
  {
    var conf0 := Evaluate(q, hot, now);
    if conf0.total >= plan.hotConfidence then Ok(Gathered(hot, [Hot], conf0, [], []))
    else
      match ArchiveResults(p, m, plan, q)
      case Err(e) => Err(IndexFailed(e))
      case Ok(archive) => AfterArchive(files, root, plan, q, now, hot, archive)
  }

  /** After the archive search: stop when the confidence is now high
      enough; otherwise fetch the cold payloads of the best archive hits. */
  function AfterArchive(files: map<string, FileData>, root: string, plan: RetrievalPlan, q: MemoryQuery, now: int,
                        hot: seq<ScoredMemory>, archive: seq<ScoredMemory>): Result<Gathered, RetrieveError>
  {
    var results1 := hot + archive;
    var tiers1 := if archive != [] then [Hot, ArchiveIndex] else [Hot];
    var conf1 := if archive != [] then Evaluate(q, results1, now) else Evaluate(q, hot, now);
    if conf1.total >= plan.coldFetchConfidence then Ok(Gathered(results1, tiers1, conf1, [EscArchive], []))
    else
      var cands := ColdCandidates(archive, plan);
      match ColdFetch(files, root, cands)
      case Err(e) => Err(ColdReadFailed(e))
      case Ok(b) =>
        var results2 := results1 + b.hits;
        Ok(Gathered(results2, if cands != [] then tiers1 + [Cold] else tiers1,
                    if cands != [] then Evaluate(q, results2, now) else conf1,
                    [EscArchive, EscCold], b.warnings))
  }

  /** Everything `retrieve` returns, the trace's lists included. */
  datatype Outcome = Outcome(
    results: seq<ScoredMemory>,
    blocks: seq<MemoryBlock>,
    confidence: ConfidenceReport,
    usedTiers: seq<StorageTier>,
    escalations: seq<string>,
    warnings: seq<string>,
    sources: seq<string>)

  /** Hydrate, dedupe, rerank. */
  function Finish(rows: map<string, MemoryItem>, plan: RetrievalPlan, results: seq<ScoredMemory>): seq<ScoredMemory>
  {
    Rerank(Dedupe(Hydrate(rows, results)), plan.maxResults)
  }

  /** `retrieve(query)` over the stores' contents. */
  function Pipeline(p: Postings, m: map<string, IndexMeta>, rows: map<string, MemoryItem>, files: map<string, FileData>,
                    root: string, plan: RetrievalPlan, q: MemoryQuery, now: int): Result<Outcome, RetrieveError>
  {
    match Gather(p, m, files, root, plan, q, now)
    case Err(e) => Err(e)
    case Ok(g) =>
      var final := Finish(rows, plan, g.results);
      Ok(Outcome(final, ToBlocks(final), g.confidence, g.usedTiers, g.escalations, g.warnings, Sources(Take(final, 10))))
  }

  /** Whether the hot results fall short of the plan's threshold. */
  predicate HotLow(p: Postings, m: map<string, IndexMeta>, plan: RetrievalPlan, q: MemoryQuery, now: int)
  {
    Evaluate(q, HotResults(p, m, q, plan), now).total < plan.hotConfidence
  }

  /** The tiers used after the archive search: the archive tier exactly
      when it found something, the cold tier exactly when the confidence
      stayed low and there were cold candidates (even if none of them could
      be read back), and the archive hits right after the hot ones. */
  lemma AfterArchiveProps(files: map<string, FileData>, root: string, plan: RetrievalPlan, q: MemoryQuery, now: int,
                          hot: seq<ScoredMemory>, archive: seq<ScoredMemory>)
    ensures var r := AfterArchive(files, root, plan, q, now, hot, archive);
      r.Ok? ==>
        && r.value.usedTiers in [[Hot], [Hot, ArchiveIndex], [Hot, Cold], [Hot, ArchiveIndex, Cold]]
        && 1 <= |r.value.escalations| <= 2 && r.value.escalations[0] == EscArchive
        && (ArchiveIndex in r.value.usedTiers <==> archive != [])
        && (Cold in r.value.usedTiers <==> |r.value.escalations| == 2 && ColdCandidates(archive, plan) != [])
        && |hot| + |archive| <= |r.value.results|
        && r.value.results[..|hot| + |archive|] == hot + archive
  {
    var r := AfterArchive(files, root, plan, q, now, hot, archive);
    var results1 := hot + archive;
    var tiers1 := if archive != [] then [Hot, ArchiveIndex] else [Hot];
    var conf1 := if archive != [] then Evaluate(q, results1, now) else Evaluate(q, hot, now);
    if conf1.total >= plan.coldFetchConfidence {
      assert r.value.results == results1;
      assert results1[..|results1|] == results1;
    } else {
      var cands := ColdCandidates(archive, plan);
      if ColdFetch(files, root, cands).Ok? {
        var b := ColdFetch(files, root, cands).value;
        assert r.value.usedTiers == if cands != [] then tiers1 + [Cold] else tiers1;
        assert tiers1 + [Cold] == if archive != [] then [Hot, ArchiveIndex, Cold] else [Hot, Cold];
        assert r.value.escalations == [EscArchive, EscCold];
        assert r.value.results == results1 + b.hits;
        assert (results1 + b.hits)[..|results1|] == results1;
      }
    }
  }

  /** The cold candidates are drawn from the archive hits, so the cold tier
      is never used without the archive tier before it. */
  lemma AfterArchiveTiers(files: map<string, FileData>, root: string, plan: RetrievalPlan, q: MemoryQuery, now: int,
                          hot: seq<ScoredMemory>, archive: seq<ScoredMemory>)
    ensures var r := AfterArchive(files, root, plan, q, now, hot, archive);
      r.Ok? ==> r.value.usedTiers in [[Hot], [Hot, ArchiveIndex], [Hot, ArchiveIndex, Cold]]
  {
    AfterArchiveProps(files, root, plan, q, now, hot, archive);
    var r := AfterArchive(files, root, plan, q, now, hot, archive);
    if r.Ok? && Cold in r.value.usedTiers {
      var c := ColdCandidates(archive, plan);
      assert c[0] in archive;
    }
  }

  /** The tiers used start with the hot tier and list each tier once, in
      the order hot, archive, cold; the cold tier only after the archive. */
  lemma GatherTierOrder(p: Postings, m: map<string, IndexMeta>, files: map<string, FileData>, root: string,
                        plan: RetrievalPlan, q: MemoryQuery, now: int)
    ensures var r := Gather(p, m, files, root, plan, q, now);
      r.Ok? ==> r.value.usedTiers in [[Hot], [Hot, ArchiveIndex], [Hot, ArchiveIndex, Cold]]
  {
    var hot := HotResults(p, m, q, plan);
    if ArchiveResults(p, m, plan, q).Ok? {
      AfterArchiveTiers(files, root, plan, q, now, hot, ArchiveResults(p, m, plan, q).value);
    }
  }

  /** When the hot results are confident enough the search stops there:
      neither the archive nor the object store is consulted, nothing is
      escalated and nothing can fail. */
  lemma ConfidentStaysHot(p: Postings, m: map<string, IndexMeta>, files: map<string, FileData>, root: string,
                          plan: RetrievalPlan, q: MemoryQuery, now: int)
    requires !HotLow(p, m, plan, q, now)
    ensures var hot := HotResults(p, m, q, plan);
      Gather(p, m, files, root, plan, q, now) == Ok(Gathered(hot, [Hot], Evaluate(q, hot, now), [], []))
  {
    var hot := HotResults(p, m, q, plan);
  }

  /** After a low hot confidence the archive is searched; a failing archive
      query fails the retrieval, and otherwise its hits follow the hot ones
      and the tiers are as the archive and cold stages found them. */
  lemma GatherEscalation(p: Postings, m: map<string, IndexMeta>, files: map<string, FileData>, root: string,
                         plan: RetrievalPlan, q: MemoryQuery, now: int)
    requires HotLow(p, m, plan, q, now)
    ensures var r := Gather(p, m, files, root, plan, q, now);
      && (ArchiveResults(p, m, plan, q).Err? ==> r == Err(IndexFailed(ArchiveResults(p, m, plan, q).error)))
      && (ArchiveResults(p, m, plan, q).Ok? ==>
            r == AfterArchive(files, root, plan, q, now, HotResults(p, m, q, plan), ArchiveResults(p, m, plan, q).value))
  {
    var hot := HotResults(p, m, q, plan);
  }

  /** With `types` left unset, the archive escalation hands `None` to the
      index as the type filter; as soon as one indexed entry of the query's
      owner in the archive tier shares a token with the query, the index
      raises and so does the whole retrieval. */
  lemma ArchiveTypesNoneRaises(p: Postings, m: map<string, IndexMeta>, texts: map<string, string>, rows: map<string, MemoryItem>,
                               files: map<string, FileData>, root: string, plan: RetrievalPlan, q: MemoryQuery, now: int, id: string)
    requires ValidIndex(p, m, texts)
    requires q.types.None?
    requires HotLow(p, m, plan, q, now)
    requires id in m && m[id].owner == q.owner && m[id].tier == ArchiveIndex && MatchCount(p, QueryTokens(q.text), id) >= 1
    ensures Pipeline(p, m, rows, files, root, plan, q, now) == Err(IndexFailed(TypeError))
  {
    QueryRaises(p, m, texts, q.text, ArchiveFilters(q), plan.archiveTopK);
    assert PassesOwnerTier(m[id], ArchiveFilters(q));
    GatherEscalation(p, m, files, root, plan, q, now);
  }

  /** No two results share an id. */
  predicate DistinctIds(rs: seq<ScoredMemory>)
  {
    forall i, j | 0 <= i < j < |rs| :: rs[i].item.id != rs[j].item.id
  }

  lemma DistinctIdsIff(rs: seq<ScoredMemory>)
    ensures DistinctIds(rs) <==> NoDups(Ids(rs))
  {
  }

  /** The results `retrieve` returns: one per id, sorted by the rerank key,
      at most `max_results` of them, each with its block in the same
      order. */
  lemma PipelineResults(p: Postings, m: map<string, IndexMeta>, rows: map<string, MemoryItem>, files: map<string, FileData>,
                        root: string, plan: RetrievalPlan, q: MemoryQuery, now: int)
    ensures var r := Pipeline(p, m, rows, files, root, plan, q, now);
      r.Ok? ==>
        && DistinctIds(r.value.results)
        && SortedDesc(r.value.results, RerankKey)
        && (plan.maxResults >= 0 ==> |r.value.results| <= plan.maxResults)
        && |r.value.blocks| == |r.value.results|
        && (forall i | 0 <= i < |r.value.results| :: r.value.blocks[i].itemId == r.value.results[i].item.id)
        && |r.value.sources| == Min(10, |r.value.results|)
  {
    var r := Pipeline(p, m, rows, files, root, plan, q, now);
    if r.Ok? {
      var g := Gather(p, m, files, root, plan, q, now).value;
      var h := Hydrate(rows, g.results);
      DedupeProps(h);
      DistinctIdsIff(Dedupe(h));
      RerankProps(Dedupe(h), plan.maxResults);
      RerankDistinct(Dedupe(h), plan.maxResults);
    }
  }

  /** Reranking a list with distinct ids keeps them distinct. */
  lemma RerankDistinct(d: seq<ScoredMemory>, maxResults: int)
    requires DistinctIds(d)
    ensures DistinctIds(Rerank(d, maxResults))
  {
    var sorted := SortDesc(d, RerankKey);
    var final := Rerank(d, maxResults);
    SortDescCorrect(d, RerankKey);
    assert final == sorted[..|final|];
    forall i, j | 0 <= i < j < |final| ensures final[i].item.id != final[j].item.id {
      SortedIdsDistinct(d, sorted, i, j);
    }
  }

  /** A permutation of a list with distinct ids has distinct ids. */
  lemma SortedIdsDistinct(d: seq<ScoredMemory>, sorted: seq<ScoredMemory>, i: int, j: int)
    requires DistinctIds(d) && multiset(sorted) == multiset(d)
    requires 0 <= i < j < |sorted|
    ensures sorted[i].item.id != sorted[j].item.id
  {
    var x, y := sorted[i], sorted[j];
    assert x in multiset(d) && y in multiset(d);
    var a :| 0 <= a < |d| && d[a] == x;
    var b :| 0 <= b < |d| && d[b] == y;
    MultisetOfDistinct(d, a);
    OccursTwice(sorted, i, j);
    assert a < b ==> d[a].item.id != d[b].item.id;
    assert b < a ==> d[b].item.id != d[a].item.id;
  }

  /** Two positions holding the same value make it occur at least twice. */
  lemma OccursTwice<T>(s: seq<T>, i: int, j: int)
    requires 0 <= i < j < |s|
    ensures s[i] == s[j] ==> multiset(s)[s[i]] >= 2
  {
    var rest := s[i + 1..];
    assert s == s[..i] + [s[i]] + rest;
    assert multiset(s) == multiset(s[..i]) + multiset([s[i]]) + multiset(rest);
    assert rest[j - i - 1] == s[j];
    assert s[j] in multiset(rest);
  }

  /** In a list with distinct ids every entry occurs once. */
  lemma {:induction false} MultisetOfDistinct(d: seq<ScoredMemory>, a: int)
    requires DistinctIds(d) && 0 <= a < |d|
    ensures multiset(d)[d[a]] == 1
    decreases |d|
  {
    var x := d[a];
    var tail := d[1..];
    assert d == [d[0]] + tail;
    assert multiset(d) == multiset([d[0]]) + multiset(tail);
    if a == 0 {
      forall k | 0 <= k < |tail| ensures tail[k] != x {
        assert tail[k] == d[k + 1];
      }
      assert x !in multiset(tail);
    } else {
      assert d[0].item.id != x.item.id;
      assert DistinctIds(tail) by {
        forall i, j | 0 <= i < j < |tail| ensures tail[i].item.id != tail[j].item.id {
          assert tail[i] == d[i + 1] && tail[j] == d[j + 1];
        }
      }
      assert tail[a - 1] == x;
      MultisetOfDistinct(tail, a - 1);
    }
  }

  // ---------------------------------------------------------------
  // The orchestrator
  // ---------------------------------------------------------------

  function ExtendBatch(acc: ColdBatch, r: Result<ColdBatch, StoreError>): Result<ColdBatch, StoreError>
  {
    match r
    case Err(e) => Err(e)
    case Ok(b) => Ok(ColdBatch(acc.hits + b.hits, acc.warnings + b.warnings))
  }

  function Absorb(acc: ColdBatch, o: ColdOutcome): ColdBatch
  {
    match o
    case NoPointer => acc
    case Warn(w) => ColdBatch(acc.hits, acc.warnings + [w])
    case Hit(s) => ColdBatch(acc.hits + [s], acc.warnings)
  }

  /** One turn of the hot loop, given the query result `v` for type `i`. */
  lemma HotSpecStep(p: Postings, m: map<string, IndexMeta>, q: MemoryQuery, types: seq<MemoryType>, i: int, limit: int,
                    acc: seq<ScoredMemory>, v: Result<seq<ScoredMemory>, QueryError>)
    requires 0 <= i < |types|
    requires v == QuerySpec(p, m, q.text, HotFilters(q, types[i]), limit)
    ensures PrependAll(acc, HotSpec(p, m, q, types[i..], limit))
      == if v.Err? then Err(v.error) else PrependAll(acc + v.value, HotSpec(p, m, q, types[i + 1..], limit))
  {
    assert types[i..][1..] == types[i + 1..];
    if v.Ok? {
      var rest := HotSpec(p, m, q, types[i + 1..], limit);
      if rest.Ok? {
        assert acc + (v.value + rest.value) == (acc + v.value) + rest.value;
      }
    }
  }

  lemma PrependNothing(r: Result<seq<ScoredMemory>, QueryError>)
    ensures PrependAll([], r) == r
  {
    if r.Ok? {
      assert [] + r.value == r.value;
    }
  }

  lemma ExtendNothing(r: Result<ColdBatch, StoreError>)
    ensures ExtendBatch(ColdBatch([], []), r) == r
  {
    if r.Ok? {
      assert [] + r.value.hits == r.value.hits && [] + r.value.warnings == r.value.warnings;
    }
  }

  lemma ExtendStep(acc: ColdBatch, o: ColdOutcome, r: Result<ColdBatch, StoreError>)
    ensures ExtendBatch(acc, AddOutcome(o, r)) == ExtendBatch(Absorb(acc, o), r)
  {
    if r.Ok? {
      var b := r.value;
      match o
      case NoPointer =>
      case Warn(w) =>
        assert acc.warnings + ([w] + b.warnings) == (acc.warnings + [w]) + b.warnings;
      case Hit(s) =>
        assert acc.hits + ([s] + b.hits) == (acc.hits + [s]) + b.hits;
    }
  }

  /** `RetrievalOrchestrator`: the stores it reads and the plan. */
  class RetrievalOrchestrator {
    const metadata: MetadataStore
    const index: SimpleVectorIndex
    const objects: FileObjectStore
    const plan: RetrievalPlan

    constructor (metadata: MetadataStore, index: SimpleVectorIndex, objects: FileObjectStore, plan: RetrievalPlan)
      ensures this.metadata == metadata && this.index == index && this.objects == objects && this.plan == plan
    {
      this.metadata := metadata;
      this.index := index;
      this.objects := objects;
      this.plan := plan;
    }

    /** `retrieve(query)`; `now` stands for the clock the confidence
        scorer reads. The stores are only read. */
    method Retrieve(q: MemoryQuery, now: int) returns (r: Result<MemoryBundle, RetrieveError>)
      requires metadata.Valid()
      ensures var spec := Pipeline(index.postings, index.metadata, metadata.rows, objects.files, objects.root, plan, q, now);
        && (r.Ok? <==> spec.Ok?)
        && (r.Err? ==> r.error == spec.error)
        && (r.Ok? ==>
              && r.value.query == q.text && r.value.results == spec.value.results && r.value.blocks == spec.value.blocks
              && r.value.confidence == spec.value.confidence && r.value.usedTiers == spec.value.usedTiers
              && r.value.warnings == spec.value.warnings
              && fresh(r.value.trace)
              && r.value.trace.steps == ["hot search per type"]
              && r.value.trace.escalations == spec.value.escalations
              && r.value.trace.sources == spec.value.sources)
    {
      var trace := new RetrievalTrace();
      trace.AddStep("hot search per type");
      var g := GatherAll(q, now, trace);
      if g.Err? {
        return Err(g.error);
      }
      var hydrated := HydrateAll(g.value.results);
      var deduped := DedupeAll(hydrated);
      var reranked := Rerank(deduped, plan.maxResults);
      var blocks := ToBlocks(reranked);
      trace.sources := Sources(Take(reranked, 10));
      r := Ok(MemoryBundle(q.text, reranked, blocks, g.value.confidence, g.value.usedTiers, trace, g.value.warnings));
    }

    /** The search stages of `retrieve`, recording escalations on the
        trace. */
    method GatherAll(q: MemoryQuery, now: int, trace: RetrievalTrace) returns (r: Result<Gathered, RetrieveError>)
      modifies trace
      ensures r == Gather(index.postings, index.metadata, objects.files, objects.root, plan, q, now)
      ensures r.Ok? ==> trace.escalations == old(trace.escalations) + r.value.escalations
      ensures trace.steps == old(trace.steps) && trace.sources == old(trace.sources)
    {
      var types := HotTypes(q);
      var limit := PerTypeLimit(plan, types);
      var hotR := HotSearch(q, types, limit);
      if hotR.Err? {
        return Err(IndexFailed(hotR.error));
      }
      var hot := hotR.value;
      var confidence := Evaluate(q, hot, now);
      if confidence.total >= plan.hotConfidence {
        return Ok(Gathered(hot, [Hot], confidence, [], []));
      }
      trace.AddEscalation(EscArchive);
      var archiveR := index.Query(q.text, ArchiveFilters(q), plan.archiveTopK);
      if archiveR.Err? {
        return Err(IndexFailed(archiveR.error));
      }
      r := ColdStage(q, now, trace, hot, archiveR.value);
    }

    /** The escalation once the archive has answered: the archive hits join
        the results, and while the confidence is still low the best of them
        are read back from the object store. */
    method ColdStage(q: MemoryQuery, now: int, trace: RetrievalTrace, hot: seq<ScoredMemory>, archive: seq<ScoredMemory>)
      returns (r: Result<Gathered, RetrieveError>)
      modifies trace
      ensures r == AfterArchive(objects.files, objects.root, plan, q, now, hot, archive)
      ensures r.Ok? ==>
        || (r.value.escalations == [EscArchive] && trace.escalations == old(trace.escalations))
        || (r.value.escalations == [EscArchive, EscCold] && trace.escalations == old(trace.escalations) + [EscCold])
      ensures trace.steps == old(trace.steps) && trace.sources == old(trace.sources)
    {
      // The archive hits join the results; the archive tier counts as used
      // and the confidence is re-evaluated only when there were any.
      var results := hot + archive;
      var usedTiers := if archive != [] then [Hot, ArchiveIndex] else [Hot];
      var confidence := if archive != [] then Evaluate(q, results, now) else Evaluate(q, hot, now);
      if confidence.total >= plan.coldFetchConfidence {
        return Ok(Gathered(results, usedTiers, confidence, [EscArchive], []));
      }
      trace.AddEscalation(EscCold);
      var cands := ColdCandidates(archive, plan);
      var batch := FetchCold(cands);
      if batch.Err? {
        return Err(ColdReadFailed(batch.error));
      }
      results := results + batch.value.hits;
      if cands != [] {
        usedTiers := usedTiers + [Cold];
        confidence := Evaluate(q, results, now);
      }
      r := Ok(Gathered(results, usedTiers, confidence, [EscArchive, EscCold], batch.value.warnings));
    }

    /** The hot loop: one index query per type. */
    method HotSearch(q: MemoryQuery, types: seq<MemoryType>, limit: int) returns (r: Result<seq<ScoredMemory>, QueryError>)
      ensures r == HotSpec(index.postings, index.metadata, q, types, limit)
    {
      var acc: seq<ScoredMemory> := [];
      var i := 0;
      PrependNothing(HotSpec(index.postings, index.metadata, q, types, limit));
      while i < |types|
        invariant 0 <= i <= |types|
        invariant HotSpec(index.postings, index.metadata, q, types, limit)
          == PrependAll(acc, HotSpec(index.postings, index.metadata, q, types[i..], limit))
      {
        var v := index.Query(q.text, HotFilters(q, types[i]), limit);
        HotSpecStep(index.postings, index.metadata, q, types, i, limit, acc, v);
        if v.Err? {
          return Err(v.error);
        }
        acc := acc + v.value;
        i := i + 1;
      }
      assert types[i..] == [];
      assert acc + [] == acc;
      r := Ok(acc);
    }

    /** The cold loop over the candidates. */
    method FetchCold(cands: seq<ScoredMemory>) returns (r: Result<ColdBatch, StoreError>)
      ensures r == ColdFetch(objects.files, objects.root, cands)
    {
      var acc := ColdBatch([], []);
      var i := 0;
      ExtendNothing(ColdFetch(objects.files, objects.root, cands));
      while i < |cands|
        invariant 0 <= i <= |cands|
        invariant ColdFetch(objects.files, objects.root, cands) == ExtendBatch(acc, ColdFetch(objects.files, objects.root, cands[i..]))
      {
        assert cands[i..][1..] == cands[i + 1..];
        var c := cands[i];
        var outcome: ColdOutcome;
        var pointer := if "object_key" in c.item.pointer then c.item.pointer["object_key"] else "";
        if pointer == "" {
          outcome := NoPointer;
        } else {
          var payload := objects.Get(pointer);
          if payload.Err? {
            return Err(payload.error);
          }
          if payload.value.None? || payload.value.value.JNull? {
            outcome := Warn("Missing cold object: " + pointer);
          } else if payload.value.value.JList? {
            var found := PayloadFor(payload.value.value.entries, c.item.id);
            if found.None? {
              outcome := Warn("Missing id " + c.item.id + " in daily notes: " + pointer);
            } else {
              outcome := Hit(ColdHit(c, Record(found.value)));
            }
          } else if payload.value.value.JObject? {
            outcome := Hit(ColdHit(c, Record(payload.value.value.p)));
          } else if payload.value.value.JString? {
            outcome := Hit(ColdHit(c, Str(payload.value.value.s)));
          } else {
            outcome := Hit(ColdHit(c, Value(payload.value.value.repr)));
          }
        }
        assert ColdStep(objects.files, objects.root, c) == Ok(outcome);
        ExtendStep(acc, outcome, ColdFetch(objects.files, objects.root, cands[i + 1..]));
        acc := Absorb(acc, outcome);
        i := i + 1;
      }
      assert cands[i..] == [];
      assert acc.hits + [] == acc.hits && acc.warnings + [] == acc.warnings;
      r := Ok(acc);
    }

    /** `_hydrate(results)` */
    method HydrateAll(rs: seq<ScoredMemory>) returns (r: seq<ScoredMemory>)
      requires metadata.Valid()
      ensures r == Hydrate(metadata.rows, rs)
    {
      r := [];
      var i := 0;
      while i < |rs|
        invariant 0 <= i <= |rs|
        invariant |r| == i && forall j | 0 <= j < i :: r[j] == HydrateOne(metadata.rows, rs[j])
      {
        var s := rs[i];
        if s.item.content != Null && s.item.tags != [] {
          r := r + [s];
        } else {
          var full := metadata.Get(s.item.id);
          if full.None? {
            r := r + [s];
          } else {
            r := r + [s.(item := full.value)];
          }
        }
        i := i + 1;
      }
    }

    /** `_dedupe(results)` */
    method DedupeAll(rs: seq<ScoredMemory>) returns (r: seq<ScoredMemory>)
      ensures r == Dedupe(rs)
    {
      var keys: seq<string> := [];
      var best: map<string, ScoredMemory> := map[];
      var i := 0;
      while i < |rs|
        invariant 0 <= i <= |rs|
        invariant Best(keys, best) == DedupeFold(rs[..i])
      {
        assert rs[..i + 1][..i] == rs[..i];
        var s := rs[i];
        var key := s.item.id;
        if key !in best {
          keys := keys + [key];
          best := best[key := s];
        } else if s.score > best[key].score {
          best := best[key := s];
        }
        i := i + 1;
      }
      assert rs[..i] == rs;
      r := Values(Best(keys, best));
    }
  }
}
