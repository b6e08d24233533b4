/** memoryagent/config.py: the system configuration records and where the
    archive index lives. Paths are strings; `a / b` joins with a `/`. */
module Config {
  import opened PyLib
  import opened Models

  datatype ConsolidationConfig = ConsolidationConfig(
    archiveOnFlush: bool,
    semanticMinCount: int,
    perceptualSummaryLimit: int)

  function DefaultConsolidation(): (r: ConsolidationConfig)
    ensures r.archiveOnFlush && r.semanticMinCount == 2 && r.perceptualSummaryLimit == 5
  {
    ConsolidationConfig(true, 2, 5)
  }

  datatype MemorySystemConfig = MemorySystemConfig(
    workingTtlSeconds: int,
    retrievalPlan: RetrievalPlan,
    consolidation: ConsolidationConfig,
    coldStorePath: string,
    metadataDbPath: string,
    featureDbPath: string,
    vectorDbPath: string,
    vectorDim: int,
    useSqliteVec: bool,
    sqliteVecExtensionPath: Option<string>,
    archiveIndexPath: Option<string>)

  function DefaultConfig(): (r: MemorySystemConfig)
    ensures r.workingTtlSeconds == 3600 && r.vectorDim == 384 && !r.useSqliteVec
    ensures r.retrievalPlan == DefaultPlan() && r.consolidation == DefaultConsolidation()
    ensures r.coldStorePath == ".memoryagent_cold" && r.archiveIndexPath == None
  {
    MemorySystemConfig(3600, DefaultPlan(), DefaultConsolidation(), ".memoryagent_cold",
      ".memoryagent_hot.sqlite", ".memoryagent_features.sqlite", ".memoryagent_vectors.sqlite",
      384, false, None, None)
  }

  /** `path / name` */
  function JoinPath(path: string, name: string): string
  {
    path + "/" + name
  }

  /** `resolved_archive_path()` */
  function ResolvedArchivePath(c: MemorySystemConfig): (r: string)
    ensures c.archiveIndexPath.Some? ==> r == c.archiveIndexPath.value
    ensures c.archiveIndexPath.None? ==> r == c.coldStorePath + "/archive_index.json"
  {
    if c.archiveIndexPath.Some? then c.archiveIndexPath.value
    else JoinPath(c.coldStorePath, "archive_index.json")
  }

  /** Unless a path is configured, the archive index sits inside the cold
      store directory, under a fixed file name. */
  lemma ArchivePathInColdStore(c: MemorySystemConfig)
    requires c.archiveIndexPath.None?
    ensures StartsWith(ResolvedArchivePath(c), c.coldStorePath + "/")
    ensures EndsWith(ResolvedArchivePath(c), "/archive_index.json")
  {
    var r := ResolvedArchivePath(c);
    assert r == (c.coldStorePath + "/") + "archive_index.json";
    assert r[..|c.coldStorePath + "/"|] == c.coldStorePath + "/";
    assert r == c.coldStorePath + "/archive_index.json";
  }
}
