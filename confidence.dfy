/** memoryagent/confidence.py: the five-part confidence score the retrieval
    pipeline uses to decide whether to escalate. Every component looks at
    the first five results only. The wall clock (`datetime.now`) is the
    parameter `now`, in seconds. */
module Confidence {
  import opened PyLib
  import opened Utils
  import opened Models

  function TopFive(rs: seq<ScoredMemory>): (r: seq<ScoredMemory>)
    ensures |r| == Min(5, |rs|) && r == rs[..|r|]
  {
    Take(rs, 5)
  }

  function Sum(xs: seq<real>): real
  {
    if xs == [] then 0.0 else xs[0] + Sum(xs[1..])
  }

  /** `sum(xs) / len(xs)` */
  function Mean(xs: seq<real>): real
    requires xs != []
  {
    Sum(xs) / |xs| as real
  }

  lemma {:induction false} SumBounds(xs: seq<real>, lo: real, hi: real)
    requires forall i | 0 <= i < |xs| :: lo <= xs[i] <= hi
    ensures |xs| as real * lo <= Sum(xs) <= |xs| as real * hi
  {
    if xs != [] {
      SumBounds(xs[1..], lo, hi);
      assert xs[0] == xs[0];
    }
  }

  lemma {:induction false} SumPositive(xs: seq<real>)
    requires xs != []
    requires forall i | 0 <= i < |xs| :: 0.0 < xs[i]
    ensures 0.0 < Sum(xs)
  {
    if |xs| > 1 {
      SumPositive(xs[1..]);
    }
  }

  /** The mean of values in `[lo, hi]` lies in `[lo, hi]`. */
  lemma MeanBounds(xs: seq<real>, lo: real, hi: real)
    requires xs != []
    requires forall i | 0 <= i < |xs| :: lo <= xs[i] <= hi
    ensures lo <= Mean(xs) <= hi
  {
    SumBounds(xs, lo, hi);
    var n := |xs| as real;
    assert n * lo <= Sum(xs) <= n * hi;
    assert Sum(xs) / n >= lo by {
      assert (n * lo) / n == lo;
    }
    assert Sum(xs) / n <= hi by {
      assert (n * hi) / n == hi;
    }
  }

  function Scores(rs: seq<ScoredMemory>): (r: seq<real>)
    ensures |r| == |rs| && forall i | 0 <= i < |rs| :: r[i] == rs[i].score
  {
    seq(|rs|, i requires 0 <= i < |rs| => rs[i].score)
  }

  /** `_semantic_relevance`: the mean score of the first five results. */
  function SemanticRelevance(rs: seq<ScoredMemory>): real
  {
    if rs == [] then 0.0 else Mean(Scores(TopFive(rs)))
  }

  /** Every token of the texts of the given results. */
  function CoveredTokens(rs: seq<ScoredMemory>): (r: set<string>)
    ensures forall i | 0 <= i < |rs| :: UniqueTokens(Text(rs[i].item)) <= r
  {
    if rs == [] then {} else UniqueTokens(Text(rs[0].item)) + CoveredTokens(rs[1..])
  }

  /** `_coverage`: the fraction of distinct query tokens found in the text
      of the first five results. */
  function Coverage(q: MemoryQuery, rs: seq<ScoredMemory>): real
  {
    var qt := UniqueTokens(q.text);
    if |qt| == 0 then 0.0
    else SafeDiv(|qt * CoveredTokens(TopFive(rs))| as real, |qt| as real)
  }

  /** Coverage is a fraction, and it is 1 exactly when every query token is
      covered. */
  lemma CoverageBounds(q: MemoryQuery, rs: seq<ScoredMemory>)
    ensures 0.0 <= Coverage(q, rs) <= 1.0
    ensures UniqueTokens(q.text) != {} ==>
      (Coverage(q, rs) == 1.0 <==> UniqueTokens(q.text) <= CoveredTokens(TopFive(rs)))
  {
    var qt := UniqueTokens(q.text);
    if |qt| != 0 {
      CoveredFraction(qt, CoveredTokens(TopFive(rs)));
    }
  }

  /** The share of `qt` that `c` covers is a fraction, and it is 1 exactly
      when `c` covers all of `qt`. */
  lemma CoveredFraction(qt: set<string>, c: set<string>)
    requires |qt| != 0
    ensures 0.0 <= (|qt * c| as real) / (|qt| as real) <= 1.0
    ensures (|qt * c| as real) / (|qt| as real) == 1.0 <==> qt <= c
  {
    SubsetFraction(qt * c, qt);
    assert qt * c == qt <==> qt <= c;
  }

  /** `max(0, elapsed / 86400)`: the age in days, never negative. */
  function AgeDays(createdAt: int, now: int): (r: real)
    ensures 0.0 <= r
  {
    var days := (now - createdAt) as real / 86400.0;
    if days < 0.0 then 0.0 else days
  }

  /** `1 / (1 + age_days)`: 1 for an item from the future or from now,
      decaying towards 0 with age. */
  function Freshness(createdAt: int, now: int): (r: real)
    ensures 0.0 < r <= 1.0
    ensures createdAt >= now ==> r == 1.0
  {
    var a := AgeDays(createdAt, now);
    assert 1.0 / (1.0 + a) <= 1.0 by {
      assert 1.0 <= 1.0 + a;
    }
    1.0 / (1.0 + a)
  }

  /** An older item is never fresher. */
  lemma FreshnessDecays(older: int, newer: int, now: int)
    requires older <= newer
    ensures Freshness(older, now) <= Freshness(newer, now)
  {
    var a := AgeDays(older, now);
    var b := AgeDays(newer, now);
    assert (now - newer) as real <= (now - older) as real;
    assert b <= a;
    ReciprocalAntitone(1.0 + a, 1.0 + b);
  }

  /** A larger positive number has a smaller reciprocal. */
  lemma ReciprocalAntitone(x: real, y: real)
    requires 0.0 < y <= x
    ensures 1.0 / x <= 1.0 / y
  {
    var fx, fy := 1.0 / x, 1.0 / y;
    assert fx * x == 1.0 && fy * y == 1.0;
    assert 0.0 < fx;
    assert fx * y <= fx * x;
    assert fx * y <= fy * y;
  }

  function FreshnessAll(rs: seq<ScoredMemory>, now: int): (r: seq<real>)
    ensures |r| == |rs| && forall i | 0 <= i < |rs| :: r[i] == Freshness(rs[i].item.createdAt, now)
  {
    seq(|rs|, i requires 0 <= i < |rs| => Freshness(rs[i].item.createdAt, now))
  }

  /** `_temporal_fit` */
  function TemporalFit(rs: seq<ScoredMemory>, now: int): real
  {
    if rs == [] then 0.0 else Mean(FreshnessAll(TopFive(rs), now))
  }

  function AuthorityAll(rs: seq<ScoredMemory>): (r: seq<real>)
    ensures |r| == |rs| && forall i | 0 <= i < |rs| :: r[i] == 0.5 * rs[i].item.authority + 0.5 * rs[i].item.stability
  {
    seq(|rs|, i requires 0 <= i < |rs| => 0.5 * rs[i].item.authority + 0.5 * rs[i].item.stability)
  }

  /** `_authority`: the mean of `0.5 * authority + 0.5 * stability`. */
  function Authority(rs: seq<ScoredMemory>): real
  {
    if rs == [] then 0.0 else Mean(AuthorityAll(TopFive(rs)))
  }

  /** The tag sets of the results (among the first five) that have tags. */
  function TagSets(rs: seq<ScoredMemory>): (r: seq<set<string>>)
    ensures forall i | 0 <= i < |r| :: r[i] != {}
    ensures |r| <= |rs|
  {
    if rs == [] then []
    else if rs[0].item.tags == [] then TagSets(rs[1..])
    else
      var head := set t | t in rs[0].item.tags;
      assert rs[0].item.tags[0] in head;
      [head] + TagSets(rs[1..])
  }

  function InterAll(ss: seq<set<string>>): (r: set<string>)
    requires ss != []
    ensures forall i | 0 <= i < |ss| :: r <= ss[i]
  {
    if |ss| == 1 then ss[0] else ss[0] * InterAll(ss[1..])
  }

  function UnionAll(ss: seq<set<string>>): (r: set<string>)
    requires ss != []
    ensures forall i | 0 <= i < |ss| :: ss[i] <= r
  {
    if |ss| == 1 then ss[0] else ss[0] + UnionAll(ss[1..])
  }

  lemma {:induction false} UnionAllIsUnion(ss: seq<set<string>>, t: string)
    requires ss != []
    ensures t in UnionAll(ss) ==> exists i | 0 <= i < |ss| :: t in ss[i]
  {
    if |ss| > 1 && t in UnionAll(ss) && t !in ss[0] {
      UnionAllIsUnion(ss[1..], t);
      var i :| 0 <= i < |ss[1..]| && t in ss[1..][i];
      assert t in ss[i + 1];
    }
  }

  /** `_consistency`: how much the tag sets of the first five results
      agree — 0.5 with fewer than two results, 0.4 when none has tags,
      otherwise their intersection over their union. */
  function Consistency(rs: seq<ScoredMemory>): real
  {
    if |rs| < 2 then 0.5
    else
      var ts := TagSets(TopFive(rs));
      if ts == [] then 0.4
      else SafeDiv(|InterAll(ts)| as real, |UnionAll(ts)| as real)
  }

  /** The tag ratio is a fraction; it is 1 exactly when every tagged result
      among the first five carries the same tag set. */
  lemma ConsistencyBounds(rs: seq<ScoredMemory>)
    ensures 0.0 <= Consistency(rs) <= 1.0
    ensures |rs| >= 2 && TagSets(TopFive(rs)) != [] ==>
      (Consistency(rs) == 1.0 <==> AllSame(TagSets(TopFive(rs))))
  {
    var ts := TagSets(TopFive(rs));
    if |rs| >= 2 && ts != [] {
      var inter := InterAll(ts);
      var union := UnionAll(ts);
      assert ts[0] <= union && ts[0] != {};
      SubsetFraction(inter, union);
      InterIsUnion(ts);
    }
  }

  /** The intersection of the tag sets is their union exactly when they
      are all the same set. */
  lemma InterIsUnion(ts: seq<set<string>>)
    requires ts != []
    ensures InterAll(ts) == UnionAll(ts) <==> AllSame(ts)
  {
    var inter := InterAll(ts);
    var union := UnionAll(ts);
    if AllSame(ts) {
      forall t | t in union ensures t in inter {
        UnionAllIsUnion(ts, t);
        InterMember(ts, t);
      }
    } else {
      var i :| 0 <= i < |ts| && ts[i] != ts[0];
      if exists t :: t in ts[i] && t !in ts[0] {
        var t :| t in ts[i] && t !in ts[0];
        assert t in union && t !in inter;
      } else {
        var t :| t in ts[0] && t !in ts[i];
        assert t in union && t !in inter;
      }
    }
  }

  predicate AllSame(ss: seq<set<string>>)
    requires ss != []
  {
    forall i | 0 <= i < |ss| :: ss[i] == ss[0]
  }

  lemma {:induction false} InterMember(ss: seq<set<string>>, t: string)
    requires ss != []
    requires AllSame(ss)
    requires exists i | 0 <= i < |ss| :: t in ss[i]
    ensures t in InterAll(ss)
  {
    if |ss| > 1 {
      assert forall i | 0 <= i < |ss[1..]| :: ss[1..][i] == ss[1..][0] by {
        forall i | 0 <= i < |ss[1..]| ensures ss[1..][i] == ss[1..][0] {
          assert ss[1..][i] == ss[i + 1];
        }
      }
      assert t in ss[0];
      assert t in ss[1..][0];
      InterMember(ss[1..], t);
    }
  }

  /** The weighted sum before clamping. */
  function Weighted(semantic: real, coverage: real, temporal: real, authority: real, consistency: real): real
  {
    0.35 * semantic + 0.2 * coverage + 0.2 * temporal + 0.15 * authority + 0.1 * consistency
  }

  /** The recommendation band of a total. */
  function Recommend(total: real): string
  {
    if total >= 0.75 then "accept"
    else if total >= 0.6 then "escalate_archive"
    else if total >= 0.45 then "fetch_cold"
    else "uncertain"
  }

  /** The bands in order of increasing confidence. */
  function BandRank(recommendation: string): int
  {
    if recommendation == "accept" then 3
    else if recommendation == "escalate_archive" then 2
    else if recommendation == "fetch_cold" then 1
    else 0
  }

  /** A higher total never earns a lower band. */
  lemma RecommendMonotone(t1: real, t2: real)
    requires t1 <= t2
    ensures BandRank(Recommend(t1)) <= BandRank(Recommend(t2))
    ensures Recommend(t1) == "accept" ==> Recommend(t2) == "accept"
  {
  }

  /** `evaluate_confidence(query, results)` */
  function Evaluate(q: MemoryQuery, rs: seq<ScoredMemory>, now: int): (r: ConfidenceReport)
    ensures 0.0 <= r.total <= 1.0
    ensures r.recommendation == Recommend(r.total)
  {
    var semantic := SemanticRelevance(rs);
    var coverage := Coverage(q, rs);
    var temporal := TemporalFit(rs, now);
    var authority := Authority(rs);
    var consistency := Consistency(rs);
    var total := Clamp01(Weighted(semantic, coverage, temporal, authority, consistency));
    ConfidenceReport(total, semantic, coverage, temporal, authority, consistency, Recommend(total))
  }

  /** Scores and the authority and stability of items lie in `[0, 1]`
      wherever the engine produces them. */
  predicate WellScored(rs: seq<ScoredMemory>)
  {
    forall i | 0 <= i < |rs| ::
      0.0 <= rs[i].score <= 1.0 && 0.0 <= rs[i].item.authority <= 1.0 && 0.0 <= rs[i].item.stability <= 1.0
  }

  lemma SemanticBounds(rs: seq<ScoredMemory>)
    requires WellScored(rs)
    ensures 0.0 <= SemanticRelevance(rs) <= 1.0
  {
    if rs != [] {
      var top := TopFive(rs);
      assert forall i | 0 <= i < |top| :: top[i] == rs[i];
      MeanBounds(Scores(top), 0.0, 1.0);
    }
  }

  lemma AuthorityBounds(rs: seq<ScoredMemory>)
    requires WellScored(rs)
    ensures 0.0 <= Authority(rs) <= 1.0
  {
    if rs != [] {
      var top := TopFive(rs);
      assert forall i | 0 <= i < |top| :: top[i] == rs[i];
      MeanBounds(AuthorityAll(top), 0.0, 1.0);
    }
  }

  lemma TemporalBounds(rs: seq<ScoredMemory>, now: int)
    ensures 0.0 <= TemporalFit(rs, now) <= 1.0
    ensures rs != [] ==> 0.0 < TemporalFit(rs, now)
  {
    if rs != [] {
      var xs := FreshnessAll(TopFive(rs), now);
      MeanBounds(xs, 0.0, 1.0);
      SumPositive(xs);
      var n := |xs| as real;
      assert 0.0 < Sum(xs) / n;
    }
  }

  /** On well-scored results every component is a fraction, temporal fit
      is positive, and the weights sum to 1, so the total needs no clamp. */
  lemma EvaluateBounds(q: MemoryQuery, rs: seq<ScoredMemory>, now: int)
    requires WellScored(rs)
    ensures var r := Evaluate(q, rs, now);
      0.0 <= r.semanticRelevance <= 1.0 && 0.0 <= r.coverage <= 1.0 && 0.0 <= r.temporalFit <= 1.0
      && 0.0 <= r.authority <= 1.0 && 0.0 <= r.consistency <= 1.0
      && (rs != [] ==> 0.0 < r.temporalFit)
      && r.total == Weighted(r.semanticRelevance, r.coverage, r.temporalFit, r.authority, r.consistency)
  {
    SemanticBounds(rs);
    CoverageBounds(q, rs);
    TemporalBounds(rs, now);
    AuthorityBounds(rs);
    ConsistencyBounds(rs);
    var w := Weighted(SemanticRelevance(rs), Coverage(q, rs), TemporalFit(rs, now), Authority(rs), Consistency(rs));
    assert 0.0 <= w <= 1.0;
  }

  /** Only the first five results count: the report on a longer list is
      the report on its first five. */
  lemma OnlyTopFive(q: MemoryQuery, rs: seq<ScoredMemory>, now: int)
    ensures Evaluate(q, rs, now) == Evaluate(q, TopFive(rs), now)
  {
    var top := TopFive(rs);
    assert TopFive(top) == top;
  }

  /** With no results the report is fixed: every component 0 except the
      consistency default 0.5, a total of 0.05, and "uncertain". */
  lemma EvaluateEmpty(q: MemoryQuery, now: int)
    ensures Evaluate(q, [], now) == ConfidenceReport(0.05, 0.0, 0.0, 0.0, 0.0, 0.5, "uncertain")
  {
    assert CoveredTokens(TopFive([])) == {};
  }
}
