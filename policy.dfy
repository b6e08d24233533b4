/** memoryagent/policy.py: the heuristic that decides whether a
    conversation turn is worth remembering, and the routing policy that
    decides which tiers and indexes a write goes to. */
module Policy {
  import opened PyLib
  import opened Utils
  import opened Models

  /** `MemoryDecision` */
  datatype MemoryDecision = MemoryDecision(
    store: bool,
    memoryType: MemoryType,
    summary: Option<string>,
    tags: Option<seq<string>>,
    reasons: Option<seq<string>>)

  /** `to_event(owner, decision)`: nothing unless the decision stores a
      non-empty summary; otherwise an event carrying the summary as its
      content, with the decision's type and tags. */
  function ToEvent(owner: string, d: MemoryDecision): (r: Option<MemoryEvent>)
    ensures r.None? <==> !d.store || d.summary == None || d.summary == Some("")
    ensures r.Some? ==> (r.value.content == Str(d.summary.value) && r.value.mtype == d.memoryType
      && r.value.owner == owner && r.value.summary == None
      && r.value.tags == (if d.tags.Some? then d.tags.value else [])
      && r.value.ttlSeconds == None && r.value.confidence == 0.5)
  {
    if !d.store || d.summary == None || d.summary == Some("") then None
    else
      var e := NewEvent(Str(d.summary.value), owner);
      Some(e.(mtype := d.memoryType, tags := if d.tags.Some? then d.tags.value else []))
  }

  /** The item a stored decision becomes keeps the decision's summary as
      both its text and its summary. */
  lemma ToEventItem(owner: string, d: MemoryDecision, id: string, now: int)
    requires ToEvent(owner, d).Some?
    ensures var item := ToItem(ToEvent(owner, d).value, id, now);
      item.summary == d.summary.value && Text(item) == d.summary.value && item.mtype == d.memoryType
  {
  }

  /** The defaults of `HeuristicMemoryPolicy.__init__`. */
  function DefaultKeywords(): seq<string>
  {
    ["prefer", "always", "never", "likes", "dislikes"]
  }

  /** The default keywords are already lower case. */
  lemma LowerDefaultKeywords(ks: seq<string>)
    ensures ks == DefaultKeywords() ==> LowerAll(ks) == ks
  {
    if ks == DefaultKeywords() {
      forall i | 0 <= i < |ks| ensures Lower(ks[i]) == ks[i] {
        LowerIdentity(ks[i]);
      }
      LowerAllIdentity(ks);
    }
  }

  /** Lowering a list of lower-case keywords changes nothing. */
  lemma {:induction false} LowerAllIdentity(ks: seq<string>)
    requires forall i | 0 <= i < |ks| :: Lower(ks[i]) == ks[i]
    ensures LowerAll(ks) == ks
  {
    if ks != [] {
      LowerAllIdentity(ks[1..]);
    }
  }

  function LowerAll(ks: seq<string>): (r: seq<string>)
    ensures |r| == |ks| && forall i | 0 <= i < |ks| :: r[i] == Lower(ks[i])
  {
    if ks == [] then [] else [Lower(ks[0])] + LowerAll(ks[1..])
  }

  /** `HeuristicMemoryPolicy`; its fields are only set by the constructor,
      so it is a value here. The keyword set is kept as a list. */
  datatype HeuristicPolicy = HeuristicPolicy(
    minTokens: int,
    noveltyThreshold: real,
    shortTurnMinNovelty: real,
    preferenceKeywords: seq<string>)

  /** `HeuristicMemoryPolicy(...)`: keywords are lowered, and a missing or
      empty keyword list means the defaults. */
  function NewHeuristicPolicy(minTokens: int, noveltyThreshold: real, shortTurnMinNovelty: real,
                              keywords: Option<seq<string>>): (r: HeuristicPolicy)
    ensures r.minTokens == minTokens && r.noveltyThreshold == noveltyThreshold
    ensures r.shortTurnMinNovelty == shortTurnMinNovelty
    ensures keywords.Some? && keywords.value != [] ==> r.preferenceKeywords == LowerAll(keywords.value)
    ensures keywords.None? || keywords == Some([]) ==> r.preferenceKeywords == DefaultKeywords()
  {
    var ks := if keywords.Some? && keywords.value != [] then keywords.value else DefaultKeywords();
    LowerDefaultKeywords(ks);
    HeuristicPolicy(minTokens, noveltyThreshold, shortTurnMinNovelty, LowerAll(ks))
  }

  function DefaultHeuristicPolicy(): (r: HeuristicPolicy)
    ensures r.minTokens == 24 && r.noveltyThreshold == 0.65 && r.shortTurnMinNovelty == 0.8
    ensures r.preferenceKeywords == DefaultKeywords()
  {
    NewHeuristicPolicy(24, 0.65, 0.8, None)
  }

  /** An entry of the conversation history: a string, a dict (its values
      by their `str()` rendering, plus the dict's own rendering), or any
      other value by its `str()` rendering. */
  datatype HistoryEntry = TextEntry(s: string) | DictEntry(fields: map<string, string>, repr: string) | OtherEntry(repr: string)

  /** `_history_entry_text(entry)`; the example API server has a copy. */
  function HistoryEntryText(e: HistoryEntry): (r: string)
    ensures e.TextEntry? ==> r == e.s
    ensures e.DictEntry? && "user" in e.fields && "assistant" in e.fields ==>
      r == "User: " + e.fields["user"] + " Assistant: " + e.fields["assistant"]
    ensures e.DictEntry? && !("user" in e.fields && "assistant" in e.fields) && "role" in e.fields && "text" in e.fields ==>
      r == e.fields["role"] + ": " + e.fields["text"]
    ensures e.OtherEntry? ==> r == e.repr
  {
    match e
    case TextEntry(s) => s
    case DictEntry(f, repr) =>
      if "user" in f && "assistant" in f then "User: " + f["user"] + " Assistant: " + f["assistant"]
      else if "role" in f && "text" in f then f["role"] + ": " + f["text"]
      else repr
    case OtherEntry(repr) => repr
  }

  function EntryTexts(es: seq<HistoryEntry>): (r: seq<string>)
    ensures |r| == |es| && forall i | 0 <= i < |es| :: r[i] == HistoryEntryText(es[i])
  {
    if es == [] then [] else [HistoryEntryText(es[0])] + EntryTexts(es[1..])
  }

  function SetOf(ts: seq<string>): set<string>
  {
    set t | t in ts
  }

  /** `_overlap_ratio(a, b)`: the Jaccard index of the two token sets, 0
      when either list is empty. */
  function OverlapRatio(a: seq<string>, b: seq<string>): real
  {
    if a == [] || b == [] then 0.0
    else (|SetOf(a) * SetOf(b)| as real) / (Max(1, |SetOf(a) + SetOf(b)|) as real)
  }

  /** The overlap is a symmetric fraction, and it is 1 exactly when both
      lists hold the same tokens. */
  lemma OverlapRatioProps(a: seq<string>, b: seq<string>)
    ensures 0.0 <= OverlapRatio(a, b) <= 1.0
    ensures OverlapRatio(a, b) == OverlapRatio(b, a)
    ensures a != [] && b != [] ==> (OverlapRatio(a, b) == 1.0 <==> SetOf(a) == SetOf(b))
  {
    if a != [] && b != [] {
      var sa, sb := SetOf(a), SetOf(b);
      assert a[0] in sa;
      assert sa * sb == sb * sa && sa + sb == sb + sa;
      SubsetCard(sa * sb, sa + sb);
      SubsetCard(sa, sa + sb);
      OverlapFull(sa, sb);
    }
  }

  /** A non-empty intersection-over-union is 1 exactly when the sets are
      equal. */
  lemma OverlapFull(sa: set<string>, sb: set<string>)
    requires |sa * sb| <= |sa + sb| && 0 < |sa + sb|
    ensures (|sa * sb| as real) / (|sa + sb| as real) == 1.0 <==> sa == sb
  {
    SubsetFraction(sa * sb, sa + sb);
    if sa != sb {
      if exists t :: t in sa && t !in sb {
        var t :| t in sa && t !in sb;
        assert t in sa + sb && t !in sa * sb;
      } else {
        var t :| t in sb && t !in sa;
        assert t in sa + sb && t !in sa * sb;
      }
    }
  }

  /** `any(word in combined.lower() for word in keywords)` */
  predicate IsPreference(p: HeuristicPolicy, combined: string)
  {
    exists i | 0 <= i < |p.preferenceKeywords| :: Contains(Lower(combined), p.preferenceKeywords[i])
  }

  /** The text of the last three history entries, joined by spaces. */
  function RecentText(history: seq<HistoryEntry>): string
  {
    Join(" ", EntryTexts(Last(history, 3)))
  }

  /** `1 - overlap` between the turn's tokens and the recent history's. */
  function Novelty(tokens: seq<string>, history: seq<HistoryEntry>): real
  {
    1.0 - OverlapRatio(tokens, Tokenize(RecentText(history)))
  }

  function NoveltyFloor(p: HeuristicPolicy, tokens: seq<string>): real
  {
    if |tokens| < p.minTokens then p.shortTurnMinNovelty else p.noveltyThreshold
  }

  /** `_summarize(user, assistant, type)` */
  function Summarize(user: string, assistant: string, t: MemoryType): (r: string)
    ensures t == Semantic ==> r == "User preference: " + Strip(user)
    ensures t != Semantic ==> r == "User asked: " + Strip(user) + " | Assistant replied: " + Strip(assistant)
  {
    if t == Semantic then "User preference: " + Strip(user)
    else "User asked: " + Strip(user) + " | Assistant replied: " + Strip(assistant)
  }

  /** The reasons list, in the order the rules are checked. */
  function Reasons(short: bool, preference: bool, lowNovelty: bool): (r: seq<string>)
    ensures "short_turn" in r <==> short
    ensures "preference_signal" in r <==> preference
    ensures "low_novelty" in r <==> lowNovelty
    ensures NoDups(r)
  {
    (if short then ["short_turn"] else [])
      + (if preference then ["preference_signal"] else [])
      + (if lowNovelty then ["low_novelty"] else [])
  }

  /** `should_store(owner, history, user, assistant)`; the owner plays no
      part in the decision. */
  function ShouldStore(p: HeuristicPolicy, history: seq<HistoryEntry>, user: string, assistant: string): (r: MemoryDecision)
    ensures r.summary.Some? && r.tags.Some? && r.reasons.Some?
  {
    var combined := user + " " + assistant;
    var tokens := Tokenize(combined);
    var isPreference := IsPreference(p, combined);
    var short := |tokens| < p.minTokens;
    var memoryType := if isPreference then Semantic else Episodic;
    var lowNovelty := history != [] && Novelty(tokens, history) < NoveltyFloor(p, tokens);
    var store := if isPreference then true else !short && !lowNovelty;
    MemoryDecision(store, memoryType, Some(Summarize(user, assistant, memoryType)),
      Some(["conversation", TypeValue(memoryType)]), Some(Reasons(short, isPreference, lowNovelty)))
  }

  /** What the decision means: a preference is always stored as semantic
      memory; anything else is episodic and is stored exactly when it is
      long enough and novel enough against the last three entries. Its
      reasons name every rule that fired, and only those. */
  lemma ShouldStoreDecision(p: HeuristicPolicy, history: seq<HistoryEntry>, user: string, assistant: string)
    ensures var r := ShouldStore(p, history, user, assistant);
      var combined := user + " " + assistant;
      var tokens := Tokenize(combined);
      var lowNovelty := history != [] && Novelty(tokens, history) < NoveltyFloor(p, tokens);
      && (r.memoryType == Semantic <==> IsPreference(p, combined))
      && (r.memoryType != Semantic ==> r.memoryType == Episodic)
      && (r.store <==> IsPreference(p, combined) || (|tokens| >= p.minTokens && !lowNovelty))
      && r.reasons.value == Reasons(|tokens| < p.minTokens, IsPreference(p, combined), lowNovelty)
      && r.tags.value == ["conversation", TypeValue(r.memoryType)]
      && r.summary.value == Summarize(user, assistant, r.memoryType)
  {
  }

  lemma {:induction false} JoinOne(sep: string, s: string)
    ensures Join(sep, [s]) == s
  {
    assert [s][1..] == [];
  }

  /** Repeating the previous turn word for word is never stored as
      episodic memory: its novelty against that turn is 0. */
  lemma RepeatedTurnNotStored(p: HeuristicPolicy, user: string, assistant: string)
    requires p.minTokens > 0 && p.noveltyThreshold > 0.0 && p.shortTurnMinNovelty > 0.0
    requires !IsPreference(p, user + " " + assistant)
    ensures !ShouldStore(p, [TextEntry(user + " " + assistant)], user, assistant).store
  {
    var combined := user + " " + assistant;
    var history := [TextEntry(combined)];
    var tokens := Tokenize(combined);
    assert Last(history, 3) == history;
    JoinOne(" ", combined);
    assert RecentText(history) == combined;
    if tokens != [] {
      OverlapRatioProps(tokens, tokens);
      assert Novelty(tokens, history) == 0.0;
    }
  }

  /** `RoutingDecision` */
  datatype RoutingDecision = RoutingDecision(
    writeHot: bool,
    writeVector: bool,
    writeFeatures: bool,
    archiveCold: bool,
    reasons: seq<string>)

  /** `MemoryRoutingPolicy`; its thresholds are set once. */
  datatype RoutingPolicy = RoutingPolicy(
    hotMinConfidence: real,
    coldMinConfidence: real,
    vectorMinConfidence: real,
    featureMinConfidence: real)

  function DefaultRoutingPolicy(): (r: RoutingPolicy)
    ensures r.hotMinConfidence == 0.4 && r.coldMinConfidence == 0.55
    ensures r.vectorMinConfidence == 0.5 && r.featureMinConfidence == 0.45
  {
    RoutingPolicy(0.4, 0.55, 0.5, 0.45)
  }

  /** `route(item)`: each flag compares the item's confidence with its own
      threshold; working memory never reaches the vector index or the
      cold tier and only perceptual memory reaches the feature store.
      Every flag that is off (features: only for perceptual items) leaves
      its reason, in a fixed order. */
  function Route(p: RoutingPolicy, item: MemoryItem): (r: RoutingDecision)
    ensures r.writeHot <==> item.confidence >= p.hotMinConfidence
    ensures r.writeVector <==> item.confidence >= p.vectorMinConfidence && item.mtype != Working
    ensures r.writeFeatures <==> item.mtype == Perceptual && item.confidence >= p.featureMinConfidence
    ensures r.archiveCold <==> item.mtype != Working && item.confidence >= p.coldMinConfidence
    ensures ("low_confidence_hot" in r.reasons <==> !r.writeHot) && ("skip_vector" in r.reasons <==> !r.writeVector)
    ensures ("skip_features" in r.reasons <==> item.mtype == Perceptual && !r.writeFeatures)
    ensures ("skip_cold" in r.reasons <==> !r.archiveCold)
    ensures NoDups(r.reasons) && |r.reasons| <= 4
  {
    var c := item.confidence;
    var hot := c >= p.hotMinConfidence;
    var vector := c >= p.vectorMinConfidence && item.mtype != Working;
    var features := item.mtype == Perceptual && c >= p.featureMinConfidence;
    var cold := item.mtype in {Episodic, Semantic, Perceptual} && c >= p.coldMinConfidence;
    RouteReasonsNoDups(hot, vector, features || item.mtype != Perceptual, cold);
    RoutingDecision(hot, vector, features, cold, RouteReasons(hot, vector, features || item.mtype != Perceptual, cold))
  }

  /** The reasons of a routing decision, one per flag that is off, in the
      order `route` checks them. */
  function RouteReasons(hot: bool, vector: bool, features: bool, cold: bool): (r: seq<string>)
    ensures ("low_confidence_hot" in r <==> !hot) && ("skip_vector" in r <==> !vector)
    ensures ("skip_features" in r <==> !features) && ("skip_cold" in r <==> !cold)
    ensures |r| <= 4
  {
    (if !hot then ["low_confidence_hot"] else [])
      + (if !vector then ["skip_vector"] else [])
      + (if !features then ["skip_features"] else [])
      + (if !cold then ["skip_cold"] else [])
  }

  /** No reason is given twice. */
  lemma RouteReasonsNoDups(hot: bool, vector: bool, features: bool, cold: bool)
    ensures NoDups(RouteReasons(hot, vector, features, cold))
  {
  }

  /** Under the default thresholds the destinations nest: whatever goes to
      the cold tier, the vector index or the feature store also goes to
      the hot tier, and a cold-archived item is always vector-indexed. */
  lemma DefaultRoutingNests(item: MemoryItem)
    ensures var r := Route(DefaultRoutingPolicy(), item);
      (r.archiveCold ==> r.writeVector) && (r.writeVector ==> r.writeHot)
      && (r.writeFeatures ==> r.writeHot) && (item.mtype == Working ==> r.reasons == if r.writeHot then ["skip_vector", "skip_cold"] else ["low_confidence_hot", "skip_vector", "skip_cold"])
  {
  }
}
