/** memoryagent/models.py: the records the engine passes around. Items are
    values here; timestamps are whole seconds since the epoch (UTC) and
    identifiers are the strings `str(uuid)` would give. */
module Models {
  import opened PyLib

  datatype MemoryType = Working | Episodic | Semantic | Perceptual

  /** The enum's string value. */
  function TypeValue(t: MemoryType): string
  {
    match t
    case Working => "working"
    case Episodic => "episodic"
    case Semantic => "semantic"
    case Perceptual => "perceptual"
  }

  datatype StorageTier = Hot | Cold | ArchiveIndex

  function TierValue(t: StorageTier): string
  {
    match t
    case Hot => "hot"
    case Cold => "cold"
    case ArchiveIndex => "archive_index"
  }

  /** The record the archiver appends to a daily-notes file. */
  datatype Payload = Payload(
    id: string,
    summary: string,
    content: Content,
    tags: seq<string>,
    mtype: string,
    owner: string,
    createdAt: int)

  /** `MemoryItem.content` (typed `Any`): nothing, a string, a hydrated
      archive payload, or any other value, which the model carries by its
      `str()` rendering. */
  datatype Content = Null | Str(s: string) | Record(payload: Payload) | Value(repr: string)

  function Quote(s: string): string { "'" + s + "'" }

  function QuoteAll(ts: seq<string>): seq<string>
  {
    if ts == [] then [] else [Quote(ts[0])] + QuoteAll(ts[1..])
  }

  /** `str(content)` when `nested` is false, and its `repr()` (strings
      quoted) when it is a value inside a container. Dict payloads are
      rendered in Python's dict layout without escaping quotes. */
  function Render(c: Content, nested: bool): string
  {
    match c
    case Null => "None"
    case Str(s) => if nested then Quote(s) else s
    case Value(repr) => repr
    case Record(p) =>
      "{'id': " + Quote(p.id) + ", 'summary': " + Quote(p.summary)
      + ", 'content': " + Render(p.content, true)
      + ", 'tags': [" + Join(", ", QuoteAll(p.tags)) + "]"
      + ", 'type': " + Quote(p.mtype) + ", 'owner': " + Quote(p.owner)
      + ", 'created_at': " + IntToString(p.createdAt) + "}"
  }

  function Show(c: Content): string
  {
    Render(c, false)
  }

  datatype MemoryItem = MemoryItem(
    id: string,
    mtype: MemoryType,
    owner: string,
    summary: string,
    createdAt: int,
    updatedAt: int,
    lastAccessed: Option<int>,
    tier: StorageTier,
    pointer: map<string, string>,
    content: Content,
    tags: seq<string>,
    ttlSeconds: Option<int>,
    confidence: real,
    authority: real,
    stability: real)

  /** `MemoryItem(id=..., type=..., owner=..., summary=...)` with every
      other field at its default; `now` stands for `utc_now()`. */
  function NewItem(id: string, mtype: MemoryType, owner: string, summary: string, now: int): (r: MemoryItem)
    ensures r.id == id && r.mtype == mtype && r.owner == owner && r.summary == summary
    ensures r.createdAt == now && r.updatedAt == now && r.lastAccessed == None
    ensures r.tier == Hot && r.pointer == map[] && r.content == Null && r.tags == [] && r.ttlSeconds == None
    ensures r.confidence == 0.5 && r.authority == 0.5 && r.stability == 0.5
  {
    MemoryItem(id, mtype, owner, summary, now, now, None, Hot, map[], Null, [], None, 0.5, 0.5, 0.5)
  }

  /** `is_expired(now)` */
  predicate IsExpired(item: MemoryItem, now: int)
  {
    match item.ttlSeconds
    case None => false
    case Some(ttl) => item.createdAt + ttl <= now
  }

  /** An item without a ttl never expires, and an expired item stays
      expired as time goes on. */
  lemma ExpiryMonotone(item: MemoryItem, now: int, later: int)
    requires now <= later
    ensures item.ttlSeconds == None ==> !IsExpired(item, later)
    ensures IsExpired(item, now) ==> IsExpired(item, later)
    ensures item.ttlSeconds.Some? && item.ttlSeconds.value <= 0 && item.createdAt <= now ==> IsExpired(item, now)
  {
  }

  /** `text()`: the content when it is a string, otherwise the summary. */
  function Text(item: MemoryItem): (r: string)
    ensures item.content.Str? ==> r == item.content.s
    ensures !item.content.Str? ==> r == item.summary
  {
    if item.content.Str? then item.content.s else item.summary
  }

  datatype MemoryEvent = MemoryEvent(
    content: Content,
    mtype: MemoryType,
    owner: string,
    summary: Option<string>,
    tags: seq<string>,
    ttlSeconds: Option<int>,
    confidence: real,
    authority: real,
    stability: real,
    pointer: map<string, string>)

  /** `MemoryEvent(content=..., owner=...)` with the declared defaults. */
  function NewEvent(content: Content, owner: string): (r: MemoryEvent)
    ensures r.mtype == Working && r.summary == None && r.tags == [] && r.ttlSeconds == None
    ensures r.confidence == 0.5 && r.authority == 0.5 && r.stability == 0.5 && r.pointer == map[]
  {
    MemoryEvent(content, Working, owner, None, [], None, 0.5, 0.5, 0.5, map[])
  }

  /** `to_item()`; `id` and `now` stand for `uuid4()` and `utc_now()`. */
  function ToItem(e: MemoryEvent, id: string, now: int): (r: MemoryItem)
    ensures r.id == id && r.createdAt == now && r.updatedAt == now && r.lastAccessed == None && r.tier == Hot
    ensures r.mtype == e.mtype && r.owner == e.owner && r.content == e.content && r.tags == e.tags
    ensures r.ttlSeconds == e.ttlSeconds && r.pointer == e.pointer
    ensures r.confidence == e.confidence && r.authority == e.authority && r.stability == e.stability
    ensures e.summary.Some? && e.summary.value != "" ==> r.summary == e.summary.value
    ensures (e.summary == None || e.summary == Some("")) && e.content.Str? ==> r.summary == e.content.s
    ensures (e.summary == None || e.summary == Some("")) && e.content.Null? ==> r.summary == "None"
  {
    var summary := if e.summary.Some? && e.summary.value != "" then e.summary.value else Show(e.content);
    MemoryItem(id, e.mtype, e.owner, summary, now, now, None, Hot, e.pointer, e.content, e.tags,
               e.ttlSeconds, e.confidence, e.authority, e.stability)
  }

  /** An item made from an event shows the event's text: `text()` of the
      item is the event's string content, or else its summary. */
  lemma ToItemText(e: MemoryEvent, id: string, now: int)
    ensures e.content.Str? ==> Text(ToItem(e, id, now)) == e.content.s
    ensures !e.content.Str? && e.summary.Some? && e.summary.value != "" ==> Text(ToItem(e, id, now)) == e.summary.value
  {
  }

  datatype MemoryQuery = MemoryQuery(
    text: string,
    owner: string,
    types: Option<seq<MemoryType>>,
    topK: int,
    timeRangeSeconds: Option<int>)

  function NewQuery(text: string, owner: string): (r: MemoryQuery)
    ensures r.text == text && r.owner == owner && r.types == None && r.topK == 10 && r.timeRangeSeconds == None
  {
    MemoryQuery(text, owner, None, 10, None)
  }

  datatype RetrievalPlan = RetrievalPlan(
    hotTopK: int,
    archiveTopK: int,
    coldFetchLimit: int,
    coldFetchMinScore: real,
    hotConfidence: real,
    archiveConfidence: real,
    coldFetchConfidence: real,
    maxResults: int,
    maxContextTokens: int)

  function DefaultPlan(): (r: RetrievalPlan)
    ensures r.hotTopK == 30 && r.archiveTopK == 30 && r.coldFetchLimit == 20 && r.coldFetchMinScore == 0.25
    ensures r.hotConfidence == 0.62 && r.archiveConfidence == 0.72 && r.coldFetchConfidence == 0.58
    ensures r.maxResults == 50 && r.maxContextTokens == 600
  {
    RetrievalPlan(30, 30, 20, 0.25, 0.62, 0.72, 0.58, 50, 600)
  }

  datatype ScoredMemory = ScoredMemory(item: MemoryItem, score: real, tier: StorageTier, explanation: Option<string>)

  datatype ConfidenceReport = ConfidenceReport(
    total: real,
    semanticRelevance: real,
    coverage: real,
    temporalFit: real,
    authority: real,
    consistency: real,
    recommendation: string)

  /** `MemoryBlock`; its metadata dict holds the owner and the tags. */
  datatype MemoryBlock = MemoryBlock(
    text: string,
    itemId: string,
    memoryType: MemoryType,
    tier: StorageTier,
    score: real,
    owner: string,
    tags: seq<string>)

  /** `RetrievalTrace`: three lists the pipeline appends to as it runs. */
  class RetrievalTrace {
    var steps: seq<string>
    var escalations: seq<string>
    var sources: seq<string>

    constructor ()
      ensures steps == [] && escalations == [] && sources == []
    {
      steps, escalations, sources := [], [], [];
    }

    /** `add_step(text)` */
    method AddStep(text: string)
      modifies this
      ensures steps == old(steps) + [text]
      ensures escalations == old(escalations) && sources == old(sources)
    {
      steps := steps + [text];
    }

    /** `add_escalation(text)` */
    method AddEscalation(text: string)
      modifies this
      ensures escalations == old(escalations) + [text]
      ensures steps == old(steps) && sources == old(sources)
    {
      escalations := escalations + [text];
    }
  }

  datatype MemoryBundle = MemoryBundle(
    query: string,
    results: seq<ScoredMemory>,
    blocks: seq<MemoryBlock>,
    confidence: ConfidenceReport,
    usedTiers: seq<StorageTier>,
    trace: RetrievalTrace,
    warnings: seq<string>)
}
