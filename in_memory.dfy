/** memoryagent/storage/in_memory.py: the lexical inverted index used as
    the local vector index, and the prefix-keyed graph store. Both keep
    their dicts in place; here they are classes whose map fields the
    methods reassign. */
module InMemory {
  import opened PyLib
  import opened Utils
  import opened Models

  /** The metadata dict every indexer stores with an entry: the owner, the
      tier, the type (by its value) and the item itself. */
  datatype IndexMeta = IndexMeta(owner: string, tier: StorageTier, mtype: MemoryType, item: MemoryItem)

  /** The `types` entry of the filters dict: absent, present but `None`,
      or a list of types. */
  datatype TypesFilter = AnyType | TypesNone | TypesIn(types: seq<MemoryType>)

  /** The filters dict of `query`; an absent key is `None`/`AnyType`. */
  datatype Filters = Filters(owner: Option<string>, tier: Option<StorageTier>, types: TypesFilter)

  /** What `query` can raise: iterating a `None` types filter, or reading
      `meta["item"]` of an id with no metadata when no filter is given. */
  datatype QueryError = TypeError | KeyError

  type Postings = map<string, seq<string>>

  /** What the index keeps true between calls: texts and metadata have the
      same ids, and every posting list is non-empty, repeats no id and
      names only ids with metadata. */
  predicate ValidIndex(p: Postings, m: map<string, IndexMeta>, texts: map<string, string>)
  {
    && texts.Keys == m.Keys
    && forall t | t in p :: p[t] != [] && NoDups(p[t]) && forall i | 0 <= i < |p[t]| :: p[t][i] in m
  }

  // ---------------------------------------------------------------- upsert

  /** `if item_id not in ids: ids.append(item_id)` */
  function AddPosting(ids: seq<string>, id: string): (r: seq<string>)
    ensures |ids| <= |r| && r[..|ids|] == ids
    ensures forall x :: x in r <==> x in ids || x == id
  {
    if id in ids then ids else ids + [id]
  }

  lemma AddPostingNoDups(ids: seq<string>, id: string)
    requires NoDups(ids)
    ensures NoDups(AddPosting(ids, id)) && Count(AddPosting(ids, id), id) == 1
  {
    var r := AddPosting(ids, id);
    if id !in ids {
      forall i, j | 0 <= i < j < |r| ensures r[i] != r[j] {
        if j == |ids| {
          assert r[i] == ids[i];
        } else {
          assert r[i] == ids[i] && r[j] == ids[j];
        }
      }
    }
    NoDupsCount(r, id);
  }

  /** The posting lists after adding `id` under every token of `s`. */
  function UpsertPostings(p: Postings, id: string, s: set<string>): Postings
  {
    map t | t in p.Keys + s :: if t in s then AddPosting(Get(p, t, []), id) else p[t]
  }

  lemma UpsertStep(p: Postings, id: string, done: set<string>, t: string)
    requires t !in done
    ensures Get(UpsertPostings(p, id, done), t, []) == Get(p, t, [])
    ensures UpsertPostings(p, id, done + {t}) == UpsertPostings(p, id, done)[t := AddPosting(Get(p, t, []), id)]
  {
  }

  lemma UpsertShape(p: Postings, id: string, s: set<string>)
    ensures var p' := UpsertPostings(p, id, s);
      && p'.Keys == p.Keys + s
      && (forall t | t in p :: |p[t]| <= |p'[t]| && p'[t][..|p[t]|] == p[t])
      && (forall t | t in p && t !in s :: p'[t] == p[t])
      && (forall t | t in s :: p'[t] == AddPosting(Get(p, t, []), id))
  {
  }

  lemma UpsertValid(p: Postings, m: map<string, IndexMeta>, texts: map<string, string>,
                    id: string, s: set<string>, text: string, meta: IndexMeta)
    requires ValidIndex(p, m, texts)
    ensures var p' := UpsertPostings(p, id, s);
      && (forall t | t in s :: Count(p'[t], id) == 1)
      && ValidIndex(p', m[id := meta], texts[id := text])
  {
    var p' := UpsertPostings(p, id, s);
    var m' := m[id := meta];
    UpsertShape(p, id, s);
    forall t | t in p'
      ensures p'[t] != [] && NoDups(p'[t]) && forall i | 0 <= i < |p'[t]| :: p'[t][i] in m'
      ensures t in s ==> Count(p'[t], id) == 1
    {
      if t in s {
        var old_ := Get(p, t, []);
        AddPostingNoDups(old_, id);
        assert id in p'[t];
        forall i | 0 <= i < |p'[t]| ensures p'[t][i] in m' {
          assert p'[t][i] in old_ || p'[t][i] == id;
        }
      } else {
        assert p'[t] == p[t];
      }
    }
  }

  /** After an upsert every token of the text lists the id exactly once,
      every old posting list survives as a prefix of the new one (stale
      postings of a replaced text are never removed), lists of other
      tokens are untouched, and the index stays valid. */
  lemma UpsertProps(p: Postings, m: map<string, IndexMeta>, texts: map<string, string>,
                    id: string, text: string, meta: IndexMeta)
    requires ValidIndex(p, m, texts)
    ensures var p' := UpsertPostings(p, id, UniqueTokens(text));
      && p'.Keys == p.Keys + UniqueTokens(text)
      && (forall t | t in Tokenize(text) :: t in p' && Count(p'[t], id) == 1)
      && (forall t | t in p :: |p[t]| <= |p'[t]| && p'[t][..|p[t]|] == p[t])
      && (forall t | t in p && t !in UniqueTokens(text) :: p'[t] == p[t])
      && ValidIndex(p', m[id := meta], texts[id := text])
  {
    UpsertShape(p, id, UniqueTokens(text));
    UpsertValid(p, m, texts, id, UniqueTokens(text), text, meta);
  }

  // ---------------------------------------------------------------- delete

  /** The posting lists once the tokens in `done` have had `id` removed,
      dropping lists that became empty. */
  function DeletePartial(p: Postings, id: string, done: set<string>): Postings
  {
    map t | t in p && (t !in done || RemoveFirst(p[t], id) != []) ::
      if t in done then RemoveFirst(p[t], id) else p[t]
  }

  /** The posting lists after `delete(id)`. */
  function DeletePostings(p: Postings, id: string): Postings
  {
    DeletePartial(p, id, p.Keys)
  }

  lemma DeleteStep(p: Postings, id: string, done: set<string>, t: string)
    requires t in p && t !in done
    ensures t in DeletePartial(p, id, done) && DeletePartial(p, id, done)[t] == p[t]
    ensures RemoveFirst(p[t], id) == [] ==>
      DeletePartial(p, id, done + {t}) == DeletePartial(p, id, done) - {t}
    ensures RemoveFirst(p[t], id) != [] ==>
      DeletePartial(p, id, done + {t}) == DeletePartial(p, id, done)[t := RemoveFirst(p[t], id)]
  {
  }

  /** After a delete no posting list names the id, every other id keeps
      its occurrences, the only lists dropped are those that held just the
      id, and the index stays valid. */
  lemma DeleteProps(p: Postings, m: map<string, IndexMeta>, texts: map<string, string>, id: string)
    requires ValidIndex(p, m, texts)
    ensures var p' := DeletePostings(p, id);
      && (forall t | t in p' :: t in p && id !in p'[t])
      && (forall t, y | t in p' && y != id :: Count(p'[t], y) == Count(p[t], y))
      && (forall t | t in p && t !in p' :: p[t] == [id])
      && ValidIndex(p', m - {id}, texts - {id})
  {
    var p' := DeletePostings(p, id);
    forall t | t in p
      ensures NoDups(RemoveFirst(p[t], id)) && id !in RemoveFirst(p[t], id)
      ensures forall y :: y in RemoveFirst(p[t], id) <==> y in p[t] && y != id
    {
      RemoveFirstNoDups(p[t], id);
    }
    forall t | t in p && t !in p' ensures p[t] == [id] {
      assert RemoveFirst(p[t], id) == [];
      assert |p[t]| == 1;
      assert p[t][0] == id;
    }
    var m' := m - {id};
    forall t | t in p'
      ensures p'[t] != [] && NoDups(p'[t]) && forall i | 0 <= i < |p'[t]| :: p'[t][i] in m'
    {
      assert p'[t] == RemoveFirst(p[t], id);
      forall i | 0 <= i < |p'[t]| ensures p'[t][i] in m' {
        assert p'[t][i] in p[t] && p'[t][i] != id;
      }
    }
  }

  // ----------------------------------------------------------------- query

  /** The candidate dict of `query`: ids in first-seen order and the
      number of query tokens each was found under. */
  datatype Tally = Tally(order: seq<string>, counts: map<string, int>)

  function EmptyTally(): Tally { Tally([], map[]) }

  function Bump(t: Tally, id: string): Tally
  {
    if id in t.counts then Tally(t.order, t.counts[id := t.counts[id] + 1])
    else Tally(t.order + [id], t.counts[id := 1])
  }

  function AddIds(t: Tally, ids: seq<string>): Tally
    decreases |ids|
  {
    if ids == [] then t else AddIds(Bump(t, ids[0]), ids[1..])
  }

  /** The nested loop over query tokens and their posting lists. */
  function TallyTokens(p: Postings, t: Tally, ts: seq<string>): Tally
    decreases |ts|
  {
    if ts == [] then t else TallyTokens(p, AddIds(t, Get(p, ts[0], [])), ts[1..])
  }

  /** How many of the tokens `ts` list `id`. */
  function MatchCount(p: Postings, ts: seq<string>, id: string): (r: nat)
    ensures r <= |ts|
  {
    if ts == [] then 0 else (if id in Get(p, ts[0], []) then 1 else 0) + MatchCount(p, ts[1..], id)
  }

  ghost predicate TallyOk(t: Tally)
  {
    && NoDups(t.order)
    && (forall x :: x in t.order <==> x in t.counts)
    && (forall x | x in t.counts :: t.counts[x] >= 1)
  }

  lemma BumpOk(t: Tally, id: string)
    requires TallyOk(t)
    ensures TallyOk(Bump(t, id))
    ensures forall x :: Get(Bump(t, id).counts, x, 0) == Get(t.counts, x, 0) + (if x == id then 1 else 0)
  {
    if id !in t.counts {
      var o := t.order + [id];
      forall i, j | 0 <= i < j < |o| ensures o[i] != o[j] {
        if j == |t.order| {
          assert o[i] == t.order[i];
        } else {
          assert o[i] == t.order[i] && o[j] == t.order[j];
        }
      }
    }
  }

  lemma {:induction false} AddIdsOk(t: Tally, ids: seq<string>)
    requires TallyOk(t) && NoDups(ids)
    ensures TallyOk(AddIds(t, ids))
    ensures forall x :: Get(AddIds(t, ids).counts, x, 0) == Get(t.counts, x, 0) + (if x in ids then 1 else 0)
    decreases |ids|
  {
    if ids != [] {
      BumpOk(t, ids[0]);
      NoDupsTail(ids);
      AddIdsOk(Bump(t, ids[0]), ids[1..]);
      assert forall x :: x in ids <==> x == ids[0] || x in ids[1..] by {
        assert ids == [ids[0]] + ids[1..];
      }
    }
  }

  /** Each candidate's count is the number of query tokens whose posting
      list holds it. */
  lemma {:induction false} TallyTokensCount(p: Postings, t: Tally, ts: seq<string>)
    requires TallyOk(t)
    requires forall k | k in p :: NoDups(p[k])
    ensures TallyOk(TallyTokens(p, t, ts))
    ensures forall x :: Get(TallyTokens(p, t, ts).counts, x, 0) == Get(t.counts, x, 0) + MatchCount(p, ts, x)
    decreases |ts|
  {
    if ts != [] {
      var ids := Get(p, ts[0], []);
      AddIdsOk(t, ids);
      TallyTokensCount(p, AddIds(t, ids), ts[1..]);
    }
  }

  /** The outcome of looking at one candidate. */
  datatype Verdict = Skip | Keep(s: ScoredMemory) | Raise(e: QueryError)

  predicate PassesOwnerTier(meta: IndexMeta, f: Filters)
  {
    (f.owner.None? || meta.owner == f.owner.value) && (f.tier.None? || meta.tier == f.tier.value)
  }

  /** The filter step of `query` for one candidate id. */
  function Judge(m: map<string, IndexMeta>, id: string, f: Filters, score: real): Verdict
  {
    if id !in m then
      (if f.owner.Some? || f.tier.Some? then Skip
       else match f.types
         case AnyType => Raise(KeyError)
         case TypesNone => Raise(TypeError)
         case TypesIn(_) => Skip)
    else
      var meta := m[id];
      var hit := ScoredMemory(meta.item, score, meta.tier, Some("token overlap"));
      if !PassesOwnerTier(meta, f) then Skip
      else match f.types
        case AnyType => Keep(hit)
        case TypesNone => Raise(TypeError)
        case TypesIn(ts) => if meta.mtype in ts then Keep(hit) else Skip
  }

  function Prepend(s: ScoredMemory, r: Result<seq<ScoredMemory>, QueryError>): Result<seq<ScoredMemory>, QueryError>
  {
    match r
    case Ok(v) => Ok([s] + v)
    case Err(e) => Err(e)
  }

  function PrependAll(pre: seq<ScoredMemory>, r: Result<seq<ScoredMemory>, QueryError>): Result<seq<ScoredMemory>, QueryError>
  {
    match r
    case Ok(v) => Ok(pre + v)
    case Err(e) => Err(e)
  }

  /** The scoring loop over the candidates, stopping at the first raise. */
  function ScoreAll(m: map<string, IndexMeta>, counts: map<string, int>, ids: seq<string>, f: Filters, n: int): Result<seq<ScoredMemory>, QueryError>
    decreases |ids|
  {
    if ids == [] then Ok([])
    else
      var score := Get(counts, ids[0], 0) as real / Max(1, n) as real;
      match Judge(m, ids[0], f, score)
      case Raise(e) => Err(e)
      case Skip => ScoreAll(m, counts, ids[1..], f, n)
      case Keep(s) => Prepend(s, ScoreAll(m, counts, ids[1..], f, n))
  }

  lemma PrependAllStep(pre: seq<ScoredMemory>, s: ScoredMemory, r: Result<seq<ScoredMemory>, QueryError>)
    ensures PrependAll(pre, Prepend(s, r)) == PrependAll(pre + [s], r)
    ensures PrependAll([], r) == r
  {
    if r.Ok? {
      assert pre + ([s] + r.value) == (pre + [s]) + r.value;
      assert [] + r.value == r.value;
    }
  }

  function ScoreOf(s: ScoredMemory): real { s.score }

  /** The distinct query tokens. Python iterates the set in hash order;
      the model takes first-occurrence order. */
  function QueryTokens(text: string): (r: seq<string>)
    ensures NoDups(r) && forall t :: t in r <==> t in Tokenize(text)
  {
    Distinct(Tokenize(text))
  }

  /** `query(query, filters, limit)` */
  function QuerySpec(p: Postings, m: map<string, IndexMeta>, text: string, f: Filters, limit: int): Result<seq<ScoredMemory>, QueryError>
  {
    var qt := QueryTokens(text);
    if qt == [] then Ok([])
    else
      var t := TallyTokens(p, EmptyTally(), qt);
      match ScoreAll(m, t.counts, t.order, f, |qt|)
      case Err(e) => Err(e)
      case Ok(scored) => Ok(Take(SortDesc(scored, ScoreOf), limit))
  }

  /** A result hit keeps the filters: its entry passes the owner, tier and
      type filters, and its score is the fraction of distinct query tokens
      whose posting list names it. */
  predicate Keeps(meta: IndexMeta, f: Filters)
  {
    && PassesOwnerTier(meta, f)
    && match f.types
       case AnyType => true
       case TypesNone => false
       case TypesIn(ts) => meta.mtype in ts
  }

  predicate JustifiedBy(s: ScoredMemory, p: Postings, m: map<string, IndexMeta>, qt: seq<string>, f: Filters, id: string)
  {
    && id in m
    && MatchCount(p, qt, id) >= 1
    && Keeps(m[id], f)
    && s == ScoredMemory(m[id].item, MatchCount(p, qt, id) as real / |qt| as real, m[id].tier, Some("token overlap"))
  }

  ghost predicate Justified(s: ScoredMemory, p: Postings, m: map<string, IndexMeta>, qt: seq<string>, f: Filters)
  {
    exists id :: JustifiedBy(s, p, m, qt, f, id)
  }

  lemma {:induction false} ScoreAllSound(p: Postings, m: map<string, IndexMeta>, qt: seq<string>, counts: map<string, int>, ids: seq<string>, f: Filters)
    requires qt != []
    requires forall i | 0 <= i < |ids| :: ids[i] in m && MatchCount(p, qt, ids[i]) >= 1 && Get(counts, ids[i], 0) == MatchCount(p, qt, ids[i])
    ensures ScoreAll(m, counts, ids, f, |qt|).Ok? ==>
      forall s | s in ScoreAll(m, counts, ids, f, |qt|).value :: Justified(s, p, m, qt, f)
    decreases |ids|
  {
    if ids != [] {
      ScoreAllSound(p, m, qt, counts, ids[1..], f);
      var id := ids[0];
      var score := Get(counts, id, 0) as real / Max(1, |qt|) as real;
      match Judge(m, id, f, score)
      case Raise(e) =>
      case Skip =>
      case Keep(s) =>
        assert JustifiedBy(s, p, m, qt, f, id);
    }
  }

  /** When the types filter is present but `None`, the scoring loop raises
      exactly when some candidate gets past the owner and tier filters. */
  lemma {:induction false} ScoreAllRaises(p: Postings, m: map<string, IndexMeta>, counts: map<string, int>, ids: seq<string>, f: Filters, n: int)
    requires forall i | 0 <= i < |ids| :: ids[i] in m
    ensures ScoreAll(m, counts, ids, f, n).Err? <==>
      f.types == TypesNone && exists i | 0 <= i < |ids| :: PassesOwnerTier(m[ids[i]], f)
    ensures ScoreAll(m, counts, ids, f, n).Err? ==> ScoreAll(m, counts, ids, f, n).error == TypeError
    decreases |ids|
  {
    if ids != [] {
      ScoreAllRaises(p, m, counts, ids[1..], f, n);
      if f.types == TypesNone && !PassesOwnerTier(m[ids[0]], f) {
        assert (exists i | 0 <= i < |ids| :: PassesOwnerTier(m[ids[i]], f))
          <==> (exists i | 0 <= i < |ids[1..]| :: PassesOwnerTier(m[ids[1..][i]], f)) by {
          forall i | 0 < i < |ids| ensures ids[i] == ids[1..][i - 1] { }
        }
      }
    }
  }

  lemma TallyFacts(p: Postings, m: map<string, IndexMeta>, texts: map<string, string>, qt: seq<string>)
    requires ValidIndex(p, m, texts)
    ensures var t := TallyTokens(p, EmptyTally(), qt);
      && TallyOk(t)
      && (forall x :: x in t.order <==> MatchCount(p, qt, x) >= 1)
      && (forall i | 0 <= i < |t.order| :: t.order[i] in m && Get(t.counts, t.order[i], 0) == MatchCount(p, qt, t.order[i]))
  {
    TallyTokensCount(p, EmptyTally(), qt);
    var t := TallyTokens(p, EmptyTally(), qt);
    forall x | MatchCount(p, qt, x) >= 1 ensures x in m {
      MatchCountWitness(p, qt, x);
    }
  }

  lemma {:induction false} MatchCountWitness(p: Postings, qt: seq<string>, x: string)
    requires MatchCount(p, qt, x) >= 1
    ensures exists t | t in p :: x in p[t]
    decreases |qt|
  {
    if x !in Get(p, qt[0], []) {
      MatchCountWitness(p, qt[1..], x);
    }
  }

  /** What `query` returns: nothing for a query without tokens; otherwise
      hits sorted by non-increasing score, at most `limit` of them, each
      passing the filters with score `matching tokens / query tokens`,
      which lies in (0, 1]. */
  lemma QueryProps(p: Postings, m: map<string, IndexMeta>, texts: map<string, string>, text: string, f: Filters, limit: int)
    requires ValidIndex(p, m, texts)
    ensures Tokenize(text) == [] ==> QuerySpec(p, m, text, f, limit) == Ok([])
    ensures QuerySpec(p, m, text, f, limit).Ok? ==>
      var rs := QuerySpec(p, m, text, f, limit).value;
      && SortedDesc(rs, ScoreOf)
      && (0 <= limit ==> |rs| <= limit)
      && forall i | 0 <= i < |rs| :: Justified(rs[i], p, m, QueryTokens(text), f) && 0.0 < rs[i].score <= 1.0
  {
    var qt := QueryTokens(text);
    if Tokenize(text) == [] {
      assert qt == [];
    }
    if qt != [] {
      var t := TallyTokens(p, EmptyTally(), qt);
      TallyFacts(p, m, texts, qt);
      ScoreAllSound(p, m, qt, t.counts, t.order, f);
      var r := ScoreAll(m, t.counts, t.order, f, |qt|);
      if r.Ok? {
        var sorted := SortDesc(r.value, ScoreOf);
        SortDescCorrect(r.value, ScoreOf);
        var rs := Take(sorted, limit);
        forall i | 0 <= i < |rs| ensures Justified(rs[i], p, m, qt, f) && 0.0 < rs[i].score <= 1.0 {
          assert rs[i] == sorted[i];
          assert rs[i] in multiset(sorted);
          assert rs[i] in r.value;
          JustifiedScore(rs[i], p, m, qt, f);
        }
        SortedPrefix(sorted, |rs|);
      }
    }
  }

  lemma JustifiedScore(s: ScoredMemory, p: Postings, m: map<string, IndexMeta>, qt: seq<string>, f: Filters)
    requires qt != [] && Justified(s, p, m, qt, f)
    ensures 0.0 < s.score <= 1.0
  {
    var id :| JustifiedBy(s, p, m, qt, f, id);
    Fraction(MatchCount(p, qt, id), |qt|);
  }

  lemma Fraction(a: nat, b: nat)
    requires 0 < a <= b
    ensures 0.0 < a as real / b as real <= 1.0
  {
    var x, y := a as real, b as real;
    assert (x / y) * y == x;
  }

  lemma SortedPrefix(s: seq<ScoredMemory>, n: nat)
    requires SortedDesc(s, ScoreOf) && n <= |s|
    ensures SortedDesc(s[..n], ScoreOf)
  {
  }

  /** A present-but-`None` types filter makes `query` raise `TypeError`
      exactly when some candidate passes the owner and tier filters; any
      other filter never raises on a valid index. */
  lemma QueryRaises(p: Postings, m: map<string, IndexMeta>, texts: map<string, string>, text: string, f: Filters, limit: int)
    requires ValidIndex(p, m, texts)
    ensures QuerySpec(p, m, text, f, limit).Err? <==>
      f.types == TypesNone && exists id | id in m && MatchCount(p, QueryTokens(text), id) >= 1 :: PassesOwnerTier(m[id], f)
    ensures QuerySpec(p, m, text, f, limit).Err? ==> QuerySpec(p, m, text, f, limit).error == TypeError
  {
    var qt := QueryTokens(text);
    if qt != [] {
      var t := TallyTokens(p, EmptyTally(), qt);
      TallyFacts(p, m, texts, qt);
      ScoreAllRaises(p, m, t.counts, t.order, f, |qt|);
      if f.types == TypesNone {
        if exists id | id in m && MatchCount(p, qt, id) >= 1 :: PassesOwnerTier(m[id], f) {
          var id :| id in m && MatchCount(p, qt, id) >= 1 && PassesOwnerTier(m[id], f);
          assert id in t.order;
          var i :| 0 <= i < |t.order| && t.order[i] == id;
          assert PassesOwnerTier(m[t.order[i]], f);
        }
      }
    } else {
      forall id | id in m ensures MatchCount(p, qt, id) == 0 { }
    }
  }

  /** The hit `query` makes of an indexed id: its item, scored by the
      fraction of query tokens whose posting list names it. */
  function HitOf(p: Postings, m: map<string, IndexMeta>, qt: seq<string>, id: string): ScoredMemory
    requires id in m
  {
    ScoredMemory(m[id].item, MatchCount(p, qt, id) as real / Max(1, |qt|) as real, m[id].tier, Some("token overlap"))
  }

  /** The ids a query can return: indexed, named by some query token's
      posting list, and passing the filters. */
  function MatchIds(p: Postings, m: map<string, IndexMeta>, qt: seq<string>, f: Filters): set<string>
  {
    set id | id in m && MatchCount(p, qt, id) >= 1 && Keeps(m[id], f)
  }

  /** The ids of `ids` whose entries pass the filters, in order. */
  function KeptIds(m: map<string, IndexMeta>, f: Filters, ids: seq<string>): (r: seq<string>)
    ensures forall x :: x in r <==> x in ids && x in m && Keeps(m[x], f)
    ensures NoDups(ids) ==> NoDups(r)
  {
    if ids == [] then []
    else
      var rest := KeptIds(m, f, ids[1..]);
      assert forall x :: x in ids <==> x == ids[0] || x in ids[1..] by {
        assert ids == [ids[0]] + ids[1..];
      }
      assert NoDups(ids) ==> NoDups(ids[1..]) && ids[0] !in ids[1..] by {
        if NoDups(ids) {
          NoDupsTail(ids);
        }
      }
      if ids[0] in m && Keeps(m[ids[0]], f) then [ids[0]] + rest else rest
  }

  /** The hits of the ids `ids`, in order. */
  function IndexHits(p: Postings, m: map<string, IndexMeta>, qt: seq<string>, ids: seq<string>): (r: seq<ScoredMemory>)
    requires forall i | 0 <= i < |ids| :: ids[i] in m
    ensures |r| == |ids| && forall i | 0 <= i < |ids| :: r[i] == HitOf(p, m, qt, ids[i])
  {
    if ids == [] then [] else [HitOf(p, m, qt, ids[0])] + IndexHits(p, m, qt, ids[1..])
  }

  /** When the scoring loop does not raise, it yields exactly the hits of
      the candidates that pass the filters, in candidate order. */
  lemma {:induction false} ScoreAllExact(p: Postings, m: map<string, IndexMeta>, qt: seq<string>, counts: map<string, int>, ids: seq<string>, f: Filters)
    requires forall i | 0 <= i < |ids| :: ids[i] in m && Get(counts, ids[i], 0) == MatchCount(p, qt, ids[i])
    ensures ScoreAll(m, counts, ids, f, |qt|).Ok? ==>
      ScoreAll(m, counts, ids, f, |qt|).value == IndexHits(p, m, qt, KeptIds(m, f, ids))
    decreases |ids|
  {
    if ids != [] {
      ScoreAllExact(p, m, qt, counts, ids[1..], f);
      var id := ids[0];
      var hit := HitOf(p, m, qt, id);
      var v := Judge(m, id, f, Get(counts, id, 0) as real / Max(1, |qt|) as real);
      var rest := IndexHits(p, m, qt, KeptIds(m, f, ids[1..]));
      if Keeps(m[id], f) {
        assert v == Keep(hit);
        assert IndexHits(p, m, qt, KeptIds(m, f, ids)) == [hit] + rest;
      } else {
        assert v.Skip? || v.Raise?;
        assert IndexHits(p, m, qt, KeptIds(m, f, ids)) == rest;
      }
    }
  }

  /** The hit of a kept id is among the first `limit` of the sorted hits,
      or `limit` hits scoring at least as high fill them. */
  lemma TopHit(p: Postings, m: map<string, IndexMeta>, qt: seq<string>, kept: seq<string>, limit: nat, id: string)
    requires forall i | 0 <= i < |kept| :: kept[i] in m
    requires id in kept
    ensures var rs := Take(SortDesc(IndexHits(p, m, qt, kept), ScoreOf), limit);
      || HitOf(p, m, qt, id) in rs
      || (|rs| == limit && forall i | 0 <= i < |rs| :: HitOf(p, m, qt, id).score <= rs[i].score)
  {
    var hits := IndexHits(p, m, qt, kept);
    var k :| 0 <= k < |kept| && kept[k] == id;
    assert hits[k] == HitOf(p, m, qt, id);
    TakeSortDesc(hits, ScoreOf, limit, hits[k]);
  }

  /** The first `limit` sorted hits of a list of distinct ids hold
      `min(limit, n)` hits, and every id's hit unless outscored. */
  lemma TopHits(p: Postings, m: map<string, IndexMeta>, qt: seq<string>, kept: seq<string>, limit: nat)
    requires forall i | 0 <= i < |kept| :: kept[i] in m
    requires NoDups(kept)
    ensures var rs := Take(SortDesc(IndexHits(p, m, qt, kept), ScoreOf), limit);
      && |rs| == Min(limit, |set x | x in kept|)
      && forall id | id in kept ::
           || HitOf(p, m, qt, id) in rs
           || (|rs| == limit && forall i | 0 <= i < |rs| :: HitOf(p, m, qt, id).score <= rs[i].score)
  {
    var hits := IndexHits(p, m, qt, kept);
    NoDupsCard(kept);
    if kept != [] {
      TakeSortDesc(hits, ScoreOf, limit, hits[0]);
    }
    forall id | id in kept
      ensures var rs := Take(SortDesc(hits, ScoreOf), limit);
        || HitOf(p, m, qt, id) in rs
        || (|rs| == limit && forall i | 0 <= i < |rs| :: HitOf(p, m, qt, id).score <= rs[i].score)
    {
      TopHit(p, m, qt, kept, limit, id);
    }
  }

  /** The candidates that pass the filters, in tally order. */
  function KeptCandidates(p: Postings, m: map<string, IndexMeta>, qt: seq<string>, f: Filters): seq<string>
  {
    KeptIds(m, f, TallyTokens(p, EmptyTally(), qt).order)
  }

  /** The kept candidates are exactly the matching ids, once each. */
  lemma KeptCandidatesProps(p: Postings, m: map<string, IndexMeta>, texts: map<string, string>, qt: seq<string>, f: Filters)
    requires ValidIndex(p, m, texts)
    ensures var kept := KeptCandidates(p, m, qt, f);
      && NoDups(kept)
      && (forall i | 0 <= i < |kept| :: kept[i] in m)
      && (set x | x in kept) == MatchIds(p, m, qt, f)
  {
    TallyFacts(p, m, texts, qt);
  }

  /** A query with tokens that does not raise sorts the hits of the kept
      candidates and keeps the first `limit`. */
  lemma QueryHits(p: Postings, m: map<string, IndexMeta>, texts: map<string, string>, text: string, f: Filters, limit: int)
    requires ValidIndex(p, m, texts)
    requires QueryTokens(text) != [] && QuerySpec(p, m, text, f, limit).Ok?
    ensures var qt := QueryTokens(text);
      var kept := KeptCandidates(p, m, qt, f);
      && (forall i | 0 <= i < |kept| :: kept[i] in m)
      && QuerySpec(p, m, text, f, limit).value == Take(SortDesc(IndexHits(p, m, qt, kept), ScoreOf), limit)
  {
    var qt := QueryTokens(text);
    var t := TallyTokens(p, EmptyTally(), qt);
    TallyFacts(p, m, texts, qt);
    ScoreAllExact(p, m, qt, t.counts, t.order, f);
  }

  /** `query` misses no match: with a non-negative `limit` it returns
      `min(limit, n)` hits, where `n` is the number of indexed ids that
      match some query token and pass the filters, and the hit of each
      such id is returned unless `limit` hits scoring at least as high
      were returned instead. */
  lemma QueryComplete(p: Postings, m: map<string, IndexMeta>, texts: map<string, string>, text: string, f: Filters, limit: int)
    requires ValidIndex(p, m, texts) && 0 <= limit
    ensures QuerySpec(p, m, text, f, limit).Ok? ==>
      var qt := QueryTokens(text);
      var rs := QuerySpec(p, m, text, f, limit).value;
      && |rs| == Min(limit, |MatchIds(p, m, qt, f)|)
      && forall id | id in MatchIds(p, m, qt, f) ::
           || HitOf(p, m, qt, id) in rs
           || (|rs| == limit && forall i | 0 <= i < |rs| :: HitOf(p, m, qt, id).score <= rs[i].score)
  {
    var qt := QueryTokens(text);
    if qt == [] {
      assert MatchIds(p, m, qt, f) == {};
    } else if QuerySpec(p, m, text, f, limit).Ok? {
      KeptCandidatesProps(p, m, texts, qt, f);
      QueryHits(p, m, texts, text, f, limit);
      TopHits(p, m, qt, KeptCandidates(p, m, qt, f), limit);
    }
  }

  /** `SimpleVectorIndex` */
  class SimpleVectorIndex {
    var postings: Postings
    var metadata: map<string, IndexMeta>
    var texts: map<string, string>

    ghost predicate Valid()
      reads this
    {
      ValidIndex(postings, metadata, texts)
    }

    constructor ()
      ensures Valid() && postings == map[] && metadata == map[] && texts == map[]
    {
      postings, metadata, texts := map[], map[], map[];
    }

    /** `upsert(item_id, text, metadata)` */
    method Upsert(id: string, text: string, meta: IndexMeta)
      requires Valid()
      modifies this
      ensures Valid()
      ensures texts == old(texts)[id := text] && metadata == old(metadata)[id := meta]
      ensures postings == UpsertPostings(old(postings), id, UniqueTokens(text))
    {
      UpsertProps(postings, metadata, texts, id, text, meta);
      texts := texts[id := text];
      metadata := metadata[id := meta];
      AddPostings(id, UniqueTokens(text));
    }

    /** The token loop of `upsert`: `id` joins the list of every token in
        `s`, in whatever order the set is walked. */
    method AddPostings(id: string, s: set<string>)
      modifies this
      ensures texts == old(texts) && metadata == old(metadata)
      ensures postings == UpsertPostings(old(postings), id, s)
    {
      ghost var p := postings;
      ghost var done: set<string> := {};
      var remaining := s;
      while remaining != {}
        invariant done + remaining == s && done !! remaining
        invariant postings == UpsertPostings(p, id, done)
        invariant texts == old(texts) && metadata == old(metadata)
        decreases remaining
      {
        var t :| t in remaining;
        UpsertStep(p, id, done, t);
        var ids := if t in postings then postings[t] else [];
        postings := postings[t := AddPosting(ids, id)];
        done := done + {t};
        remaining := remaining - {t};
      }
    }

    /** `delete(item_id)` */
    method Delete(id: string)
      requires Valid()
      modifies this
      ensures Valid()
      ensures texts == old(texts) - {id} && metadata == old(metadata) - {id}
      ensures postings == DeletePostings(old(postings), id)
    {
      DeleteProps(postings, metadata, texts, id);
      texts := texts - {id};
      metadata := metadata - {id};
      ghost var p := postings;
      var remaining := postings.Keys;
      while remaining != {}
        invariant remaining <= p.Keys
        invariant postings == DeletePartial(p, id, p.Keys - remaining)
        invariant texts == old(texts) - {id} && metadata == old(metadata) - {id}
        decreases remaining
      {
        var t :| t in remaining;
        DeleteStep(p, id, p.Keys - remaining, t);
        var ids := RemoveFirst(postings[t], id);
        if ids == [] {
          postings := postings - {t};
        } else {
          postings := postings[t := ids];
        }
        assert p.Keys - (remaining - {t}) == (p.Keys - remaining) + {t};
        remaining := remaining - {t};
      }
      assert p.Keys - remaining == p.Keys;
    }

    /** `query(query, filters, limit)` */
    method Query(text: string, f: Filters, limit: int) returns (r: Result<seq<ScoredMemory>, QueryError>)
      ensures r == QuerySpec(postings, metadata, text, f, limit)
    {
      var qt := QueryTokens(text);
      if qt == [] {
        return Ok([]);
      }
      var tally := Candidates(qt);
      var scored := ScoreCandidates(tally, f, |qt|);
      if scored.Err? {
        return Err(scored.error);
      }
      r := Ok(Take(SortDesc(scored.value, ScoreOf), limit));
    }

    /** The candidate loop of `query`: every id under every query token,
        counted, in first-seen order. */
    method Candidates(qt: seq<string>) returns (tally: Tally)
      ensures tally == TallyTokens(postings, EmptyTally(), qt)
    {
      tally := EmptyTally();
      var i := 0;
      while i < |qt|
        invariant 0 <= i <= |qt|
        invariant TallyTokens(postings, tally, qt[i..]) == TallyTokens(postings, EmptyTally(), qt)
      {
        var ids := if qt[i] in postings then postings[qt[i]] else [];
        var j := 0;
        while j < |ids|
          invariant 0 <= j <= |ids|
          invariant TallyTokens(postings, AddIds(tally, ids[j..]), qt[i + 1..]) == TallyTokens(postings, EmptyTally(), qt)
        {
          assert ids[j..][1..] == ids[j + 1..];
          tally := Bump(tally, ids[j]);
          j := j + 1;
        }
        assert qt[i..][1..] == qt[i + 1..];
        i := i + 1;
      }
    }

    /** The scoring loop of `query`: filter each candidate and score it by
        its count over `n` query tokens. */
    method ScoreCandidates(tally: Tally, f: Filters, n: int) returns (r: Result<seq<ScoredMemory>, QueryError>)
      ensures r == ScoreAll(metadata, tally.counts, tally.order, f, n)
    {
      var scored: seq<ScoredMemory> := [];
      var k := 0;
      assert tally.order[0..] == tally.order;
      PrependAllStep([], ScoredMemory(NewItem("", Working, "", "", 0), 0.0, Hot, None), ScoreAll(metadata, tally.counts, tally.order, f, n));
      while k < |tally.order|
        invariant 0 <= k <= |tally.order|
        invariant ScoreAll(metadata, tally.counts, tally.order, f, n)
          == PrependAll(scored, ScoreAll(metadata, tally.counts, tally.order[k..], f, n))
      {
        var id := tally.order[k];
        assert tally.order[k..][1..] == tally.order[k + 1..];
        var overlap := if id in tally.counts then tally.counts[id] else 0;
        var score := overlap as real / Max(1, n) as real;
        var v := Judge(metadata, id, f, score);
        if v.Raise? {
          assert ScoreAll(metadata, tally.counts, tally.order[k..], f, n) == Err(v.e);
          return Err(v.e);
        } else if v.Keep? {
          PrependAllStep(scored, v.s, ScoreAll(metadata, tally.counts, tally.order[k + 1..], f, n));
          scored := scored + [v.s];
        }
        k := k + 1;
      }
      assert tally.order[k..] == [];
      assert scored + [] == scored;
      r := Ok(scored);
    }
  }

  // ----------------------------------------------------------------- graph

  /** `f"{owner}:{subject}:{predicate}"` */
  function FactKey(owner: string, subject: string, relation: string): string
  {
    owner + ":" + subject + ":" + relation
  }

  /** `f"{owner}:{subject}:"` */
  function SubjectPrefix(owner: string, subject: string): string
  {
    owner + ":" + subject + ":"
  }

  /** The targets of every key in `keys` starting with `prefix`, in key
      order. */
  function Related(edges: map<string, seq<string>>, keys: seq<string>, prefix: string): seq<string>
    requires forall i | 0 <= i < |keys| :: keys[i] in edges
    decreases |keys|
  {
    if keys == [] then []
    else (if StartsWith(keys[0], prefix) then edges[keys[0]] else []) + Related(edges, keys[1..], prefix)
  }

  /** Every target of a matching key is in the related list. */
  lemma {:induction false} RelatedContains(edges: map<string, seq<string>>, keys: seq<string>, prefix: string, i: int, x: string)
    requires forall j | 0 <= j < |keys| :: keys[j] in edges
    requires 0 <= i < |keys| && StartsWith(keys[i], prefix) && x in edges[keys[i]]
    ensures x in Related(edges, keys, prefix)
    decreases |keys|
  {
    if i > 0 {
      RelatedContains(edges, keys[1..], prefix, i - 1, x);
    }
  }

  /** Only targets of matching keys are in the related list. */
  lemma {:induction false} RelatedOnly(edges: map<string, seq<string>>, keys: seq<string>, prefix: string, x: string)
    requires forall j | 0 <= j < |keys| :: keys[j] in edges
    requires x in Related(edges, keys, prefix)
    ensures exists j | 0 <= j < |keys| :: StartsWith(keys[j], prefix) && x in edges[keys[j]]
    decreases |keys|
  {
    if !(StartsWith(keys[0], prefix) && x in edges[keys[0]]) {
      RelatedOnly(edges, keys[1..], prefix, x);
      var j :| 0 <= j < |keys[1..]| && StartsWith(keys[1..][j], prefix) && x in edges[keys[1..][j]];
      assert keys[j + 1] == keys[1..][j];
    }
  }

  lemma FactKeyHasPrefix(owner: string, subject: string, relation: string)
    ensures StartsWith(FactKey(owner, subject, relation), SubjectPrefix(owner, subject))
  {
    var pre := SubjectPrefix(owner, subject);
    assert FactKey(owner, subject, relation) == pre + relation;
    assert (pre + relation)[..|pre|] == pre;
  }

  /** `SimpleGraphStore`: a dict of key to targets, kept with its key
      order. */
  class SimpleGraphStore {
    var edges: map<string, seq<string>>
    var order: seq<string>

    ghost predicate Valid()
      reads this
    {
      NoDups(order) && forall k :: k in order <==> k in edges
    }

    constructor ()
      ensures Valid() && edges == map[] && order == []
    {
      edges, order := map[], [];
    }

    /** `upsert_fact(owner, subject, predicate, obj)` */
    method UpsertFact(owner: string, subject: string, relation: string, obj: string)
      requires Valid()
      modifies this
      ensures Valid()
      ensures var key := FactKey(owner, subject, relation);
        && edges == old(edges)[key := Get(old(edges), key, []) + [obj]]
        && order == if key in old(edges) then old(order) else old(order) + [key]
    {
      var key := FactKey(owner, subject, relation);
      if key in edges {
        edges := edges[key := edges[key] + [obj]];
      } else {
        forall i, j | 0 <= i < j < |order + [key]| ensures (order + [key])[i] != (order + [key])[j] {
          if j == |order| {
            assert (order + [key])[i] == order[i];
          } else {
            assert (order + [key])[i] == order[i] && (order + [key])[j] == order[j];
          }
        }
        edges := edges[key := [obj]];
        order := order + [key];
        assert Get(old(edges), key, []) + [obj] == [obj];
      }
    }

    /** `query_related(owner, subject, limit)` */
    method QueryRelated(owner: string, subject: string, limit: int) returns (r: seq<string>)
      requires Valid()
      ensures r == Take(Related(edges, order, SubjectPrefix(owner, subject)), limit)
    {
      var prefix := SubjectPrefix(owner, subject);
      var results: seq<string> := [];
      var i := 0;
      while i < |order|
        invariant 0 <= i <= |order|
        invariant Related(edges, order, prefix) == results + Related(edges, order[i..], prefix)
      {
        assert order[i..][1..] == order[i + 1..];
        if StartsWith(order[i], prefix) {
          results := results + edges[order[i]];
        }
        i := i + 1;
      }
      assert order[i..] == [];
      r := Take(results, limit);
    }
  }

  /** A fact just written is found by a related-facts query for its owner
      and subject (with no limit in the way). */
  lemma UpsertThenRelated(edges: map<string, seq<string>>, order: seq<string>,
                          owner: string, subject: string, relation: string, obj: string)
    requires forall k :: k in order <==> k in edges
    ensures var key := FactKey(owner, subject, relation);
      var edges' := edges[key := Get(edges, key, []) + [obj]];
      var order' := if key in edges then order else order + [key];
      (forall k :: k in order' <==> k in edges')
      && obj in Related(edges', order', SubjectPrefix(owner, subject))
  {
    var key := FactKey(owner, subject, relation);
    var edges' := edges[key := Get(edges, key, []) + [obj]];
    var order' := if key in edges then order else order + [key];
    FactKeyHasPrefix(owner, subject, relation);
    assert key in order';
    var i :| 0 <= i < |order'| && order'[i] == key;
    RelatedContains(edges', order', SubjectPrefix(owner, subject), i, obj);
  }
}
