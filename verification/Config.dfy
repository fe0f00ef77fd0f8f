/** The loaded configuration: what validation accepts, what the typed configs are
    built with, and what that means for the fork walk. */
module Config {
  import opened Prelude
  import opened Chain
  import opened ForkPoint
  import opened Ledgers
  import opened Sql

  /** The settings that reach the store and the processor; absent ones take defaults. */
  datatype IndexerConfig = IndexerConfig(
    sourceUrl: Option<string>,
    storeUrl: Option<string>,
    maxConnections: Option<u32>,
    reorgRetention: Option<u32>,
    startHeight: Option<u32>,
    batchSize: Option<u32>,
    maxReorgDepth: Option<u32>)

  datatype ConfigError = Missing(field: string) | Invalid(field: string)
  datatype Verdict = Accepted | Rejected(error: ConfigError)

  datatype StoreConfig = StoreConfig(url: string, maxConnections: u32, reorgRetention: u32)
  datatype ProcessorConfig = ProcessorConfig(startHeight: u32, batchSize: u32, maxReorgDepth: u32)

  function GetOr(o: Option<u32>, default: u32): u32 {
    match o case Some(v) => v case None => default
  }

  function Validate(c: IndexerConfig): Verdict {
    if c.sourceUrl.None? then Rejected(Missing("source.url"))
    else if c.storeUrl.None? then Rejected(Missing("store.url"))
    else
      var retention := GetOr(c.reorgRetention, 5000);
      var depth := GetOr(c.maxReorgDepth, 64);
      if retention != 0 && retention < depth then Rejected(Invalid("store.reorg_retention"))
      else Accepted
  }

  /** The store's config: its own defaults, overridden where a value was given. */
  method BuildStoreConfig(c: IndexerConfig) returns (s: StoreConfig)
    requires c.storeUrl.Some?
    ensures s == StoreConfigOf(c)
    ensures s.url == c.storeUrl.value
    ensures s.maxConnections == match c.maxConnections case None => 5 case Some(0) => 1 case Some(n) => n
    ensures s.reorgRetention == match c.reorgRetention case None => 5000 case Some(n) => n
  {
    s := StoreConfig(c.storeUrl.value, 5, 5000);
    if c.maxConnections.Some? {
      s := s.(maxConnections := Max(c.maxConnections.value, 1));
    }
    if c.reorgRetention.Some? {
      s := s.(reorgRetention := c.reorgRetention.value);
    }
  }

  function StoreConfigOf(c: IndexerConfig): StoreConfig
    requires c.storeUrl.Some?
  {
    StoreConfig(c.storeUrl.value, Max(GetOr(c.maxConnections, 5), 1), GetOr(c.reorgRetention, 5000))
  }

  /** The processor's config: its own defaults, overridden where a value was given. */
  method BuildProcessorConfig(c: IndexerConfig) returns (p: ProcessorConfig)
    ensures p == ProcessorConfigOf(c)
    ensures p.startHeight == match c.startHeight case None => 0 case Some(h) => h
    ensures p.batchSize == match c.batchSize case None => 100 case Some(0) => 1 case Some(n) => n
    ensures p.maxReorgDepth == match c.maxReorgDepth case None => 64 case Some(n) => n
  {
    p := ProcessorConfig(GetOr(c.startHeight, 0), 100, 64);
    if c.batchSize.Some? {
      p := p.(batchSize := Max(c.batchSize.value, 1));
    }
    if c.maxReorgDepth.Some? {
      p := p.(maxReorgDepth := c.maxReorgDepth.value);
    }
  }

  function ProcessorConfigOf(c: IndexerConfig): ProcessorConfig {
    ProcessorConfig(GetOr(c.startHeight, 0), Max(GetOr(c.batchSize, 100), 1), GetOr(c.maxReorgDepth, 64))
  }

  /** Validation speaks of the values that are built, defaults included: it accepts
      exactly the configs with both URLs whose store keeps everything or keeps at
      least the depth the processor may rewind; an error names the setting at fault. */
  lemma ValidateIff(c: IndexerConfig)
    ensures Validate(c).Accepted?
       <==> && c.sourceUrl.Some? && c.storeUrl.Some?
            && (StoreConfigOf(c).reorgRetention == 0
                || ProcessorConfigOf(c).maxReorgDepth <= StoreConfigOf(c).reorgRetention)
    ensures Validate(c) == Rejected(Missing("source.url")) <==> c.sourceUrl.None?
    ensures Validate(c) == Rejected(Missing("store.url")) <==> c.sourceUrl.Some? && c.storeUrl.None?
    ensures Validate(c).Rejected? && c.sourceUrl.Some? && c.storeUrl.Some? ==>
              Validate(c) == Rejected(Invalid("store.reorg_retention"))
  {
  }

  function SetupOf(c: IndexerConfig, handlers: seq<Handlers.Handler>, initial: Tables): Setup
    requires c.storeUrl.Some?
  {
    Setup(ProcessorConfigOf(c).startHeight, StoreConfigOf(c).reorgRetention, ProcessorConfigOf(c).maxReorgDepth,
        handlers, initial)
  }

  /** Some fork of the chain leads the walk, unrefused, to a height that was pruned. */
  ghost predicate CanLoseFork(l: Ledger, max: u32) {
    0 < l.next <= MAX_U32
    && exists chain: seq<Block> :: IsChain(chain) && l.next <= |chain| && NoCollisions(l.rows, chain)
         && EndsBelowTable(l.rows, chain, max, l.next - 1)
  }

  /** What validation is for: that the fork of a reorg is still stored. Whatever an
      indexer under an accepted config has been through, a pruned table keeps it
      exactly when the depth is bounded and the rows left reach below the bound.
      After a rollback they may not: retention counts from the highest height
      ever committed, the depth bound from the cursor. */
  lemma PrunedTableLosesForkIff(c: IndexerConfig, handlers: seq<Handlers.Handler>, initial: Tables, l: Ledger)
    requires Validate(c).Accepted? && TableInv(l, SetupOf(c, handlers, initial))
    requires ProcessorConfigOf(c).startHeight < l.lo < l.next
    ensures var max := ProcessorConfigOf(c).maxReorgDepth;
            CanLoseFork(l, max) <==> max == 0 || l.next - l.lo <= max
  {
    WalkCanLeaveTableIff(l.rows, l.lo, l.next, ProcessorConfigOf(c).maxReorgDepth);
  }

  /** While the cursor stands at the highest height ever committed, an accepted
      config fails in one case only: a depth bound of 0, which means no bound. */
  lemma AcceptedConfigKeepsForkIff(c: IndexerConfig, handlers: seq<Handlers.Handler>, initial: Tables, l: Ledger)
    requires Validate(c).Accepted? && TableInv(l, SetupOf(c, handlers, initial))
    requires ProcessorConfigOf(c).startHeight < l.lo < l.next == l.peak
    ensures CanLoseFork(l, ProcessorConfigOf(c).maxReorgDepth) <==> ProcessorConfigOf(c).maxReorgDepth == 0
  {
    ValidateIff(c);
    PrunedTableLosesForkIff(c, handlers, initial, l);
  }
}
