/**
 * Size estimation and strategy selection (construct_ai.py, count_tokens and
 * get_strategy_config, with the SummaryConfig record).
 */
module Strategy {

  /** Token thresholds of the script's configuration block. */
  const ShortDocThreshold: int := 10000
  const MediumDocThreshold: int := 15000

  /** Characters per estimated token; the same ratio converts chunk sizes. */
  const CharsPerToken: nat := 4

  /** The three values the script gives `document_type`. */
  datatype Tier = Short | Medium | Long

  /** The SummaryConfig record; `documentType` is the tier. */
  datatype SummaryConfig = SummaryConfig(
    documentType: Tier,
    detailLevel: string,
    maxSections: int,
    summaryLength: string,
    needsStructure: bool,
    useIncremental: bool,
    chunkSize: int,
    overlapSize: int)

  /** `len(text) // 4`: never negative, never more than a quarter of the length. */
  function CountTokens(text: string): (t: nat)
    ensures CharsPerToken * t <= |text| < CharsPerToken * t + CharsPerToken
  {
    |text| / CharsPerToken
  }

  lemma CountTokensMonotone(a: string, b: string)
    requires |a| <= |b|
    ensures CountTokens(a) <= CountTokens(b)
  {
  }

  /** Three-band lookup; a count equal to a threshold stays in the lower band. */
  function StrategyFor(tokenCount: int): (c: SummaryConfig)
    ensures c.documentType == Short <==> tokenCount <= ShortDocThreshold
    ensures c.documentType == Medium <==> ShortDocThreshold < tokenCount <= MediumDocThreshold
    ensures c.documentType == Long <==> MediumDocThreshold < tokenCount
  {
    if tokenCount <= ShortDocThreshold then
      SummaryConfig(Short, "concise", 3, "brief", false, false, tokenCount, 0)
    else if tokenCount <= MediumDocThreshold then
      SummaryConfig(Medium, "detailed", 5, "comprehensive", true, true, 8000, 1000)
    else
      SummaryConfig(Long, "hierarchical", 8, "extensive", true, true, 10000, 1500)
  }

  /**
   * A configuration the chunker can run with: when incremental folding is on,
   * the overlap is non-negative and smaller than the chunk.
   */
  predicate ChunkableConfig(c: SummaryConfig)
  {
    c.useIncremental ==> 0 <= c.overlapSize < c.chunkSize
  }

  /** The whole band table, row by row. */
  lemma StrategyTable(t: int)
    ensures var c := StrategyFor(t);
      && (t <= 10000 ==>
            !c.needsStructure && !c.useIncremental && c.chunkSize == t && c.overlapSize == 0 && c.maxSections == 3)
      && (10000 < t <= 15000 ==>
            c.needsStructure && c.useIncremental && c.chunkSize == 8000 && c.overlapSize == 1000 && c.maxSections == 5)
      && (15000 < t ==>
            c.needsStructure && c.useIncremental && c.chunkSize == 10000 && c.overlapSize == 1500 && c.maxSections == 8)
  {
  }

  /** Every configuration the selector produces is safe to chunk with, and
      the outline pass is requested exactly when incremental folding is. */
  lemma StrategyChunkable(t: int)
    ensures ChunkableConfig(StrategyFor(t))
    ensures StrategyFor(t).needsStructure == StrategyFor(t).useIncremental
    ensures StrategyFor(t).useIncremental <==> t > ShortDocThreshold
  {
  }

  /** The tie cases: 10000 is short, 10001 medium, 15000 medium, 15001 long. */
  lemma StrategyTies()
    ensures StrategyFor(10000).documentType == Short
    ensures StrategyFor(10001).documentType == Medium
    ensures StrategyFor(15000).documentType == Medium
    ensures StrategyFor(15001).documentType == Long
  {
  }

  /** A longer text never selects a lower tier. */
  lemma StrategyMonotone(a: string, b: string)
    requires |a| <= |b|
    ensures StrategyFor(CountTokens(a)).documentType == Medium ==> StrategyFor(CountTokens(b)).documentType != Short
    ensures StrategyFor(CountTokens(a)).documentType == Long ==> StrategyFor(CountTokens(b)).documentType == Long
  {
    CountTokensMonotone(a, b);
  }

  /** The tier in terms of the character length directly. */
  lemma TierByLength(text: string)
    ensures StrategyFor(CountTokens(text)).documentType == Short <==> |text| < 40004
    ensures StrategyFor(CountTokens(text)).documentType == Long <==> |text| >= 60004
  {
  }
}
