/**
 * The record conversions (`TryFrom`) of src/models: raw upstream strings are trimmed and
 * parsed field by field, and the first field that fails to parse is the error. Float parsing
 * is the parameter `pf` (Rust's `str::parse::<f64>`, whose accepted syntax is not modelled);
 * the fresh ObjectId is the parameter `freshId`.
 */
module Conversions {
  import opened Wrappers
  import opened Text
  import opened Aggregation
  import opened Records

  /** Which field failed and how. */
  datatype ConversionError = BadInt(field: string) | BadFloat(field: string)

  function IntField(raw: string, name: string): (r: Result<int, ConversionError>)
    ensures r.Ok? <==> ParseI64(Trim(raw)).Some?
    ensures r.Ok? ==> InI64(r.value) && Some(r.value) == ParseI64(Trim(raw))
    ensures r.Err? ==> r.error == BadInt(name)
  {
    match ParseI64(Trim(raw))
    case Some(v) => Ok(v)
    case None => Err(BadInt(name))
  }

  function FloatField(raw: string, name: string, pf: string -> Option<real>): (r: Result<real, ConversionError>)
    ensures r.Ok? <==> pf(Trim(raw)).Some?
    ensures r.Ok? ==> Some(r.value) == pf(Trim(raw))
    ensures r.Err? ==> r.error == BadFloat(name)
  {
    match pf(Trim(raw))
    case Some(v) => Ok(v)
    case None => Err(BadFloat(name))
  }

  // ----- EarningsSummaryRequest -> EarningsHistory -----

  datatype EarningsSummaryRequest = EarningsSummaryRequest(
    startTime: string, endTime: string, blockRewards: string, avgNodeCount: string,
    bondingEarnings: string, liquidityEarnings: string, liquidityFees: string, runePriceUSD: string)

  /** Each of the eight fields, trimmed and parsed on its own. */
  datatype EarningsParsed = EarningsParsed(
    startTime: Result<int, ConversionError>, endTime: Result<int, ConversionError>,
    blockRewards: Result<real, ConversionError>, avgNodeCount: Result<real, ConversionError>,
    bondingEarnings: Result<real, ConversionError>, liquidityEarnings: Result<real, ConversionError>,
    liquidityFees: Result<real, ConversionError>, runePriceUSD: Result<real, ConversionError>)

  function ParseEarningsFields(req: EarningsSummaryRequest, pf: string -> Option<real>): EarningsParsed {
    EarningsParsed(
      IntField(req.startTime, "start_time"), IntField(req.endTime, "end_time"),
      FloatField(req.blockRewards, "block_rewards", pf), FloatField(req.avgNodeCount, "avg_node_count", pf),
      FloatField(req.bondingEarnings, "bonding_earnings", pf),
      FloatField(req.liquidityEarnings, "liquidity_earnings", pf),
      FloatField(req.liquidityFees, "liquidity_fees", pf), FloatField(req.runePriceUSD, "rune_price_usd", pf))
  }

  /** The `?` chain in declaration order: the first failed field is the error. Every parse is
      pure, so taking the parses up front and then the first failure is the same as stopping
      at it. */
  function AssembleEarnings(p: EarningsParsed, freshId: nat): Result<Sample<EarningsValues>, ConversionError> {
    if p.startTime.Err? then Err(p.startTime.error)
    else if p.endTime.Err? then Err(p.endTime.error)
    else if p.blockRewards.Err? then Err(p.blockRewards.error)
    else if p.avgNodeCount.Err? then Err(p.avgNodeCount.error)
    else if p.bondingEarnings.Err? then Err(p.bondingEarnings.error)
    else if p.liquidityEarnings.Err? then Err(p.liquidityEarnings.error)
    else if p.liquidityFees.Err? then Err(p.liquidityFees.error)
    else if p.runePriceUSD.Err? then Err(p.runePriceUSD.error)
    else Ok(Sample(freshId, None, p.startTime.value, p.endTime.value,
      EarningsValues(p.blockRewards.value, p.avgNodeCount.value, p.bondingEarnings.value,
        p.liquidityEarnings.value, p.liquidityFees.value, p.runePriceUSD.value)))
  }

  /** `TryFrom<EarningsSummaryRequest> for EarningsHistory`: the stored summary, a sample
      without a pool. */
  function EarningsFrom(req: EarningsSummaryRequest, freshId: nat, pf: string -> Option<real>)
    : Result<Sample<EarningsValues>, ConversionError>
  {
    AssembleEarnings(ParseEarningsFields(req, pf), freshId)
  }

  /** Field k's parse failed, in declaration order. */
  predicate EarningsFieldFailed(p: EarningsParsed, k: nat)
    requires k < 8
  {
    [p.startTime.Err?, p.endTime.Err?, p.blockRewards.Err?, p.avgNodeCount.Err?,
     p.bondingEarnings.Err?, p.liquidityEarnings.Err?, p.liquidityFees.Err?, p.runePriceUSD.Err?][k]
  }

  function EarningsErrorAt(p: EarningsParsed, k: nat): ConversionError
    requires k < 8 && EarningsFieldFailed(p, k)
  {
    if k == 0 then p.startTime.error else if k == 1 then p.endTime.error
    else if k == 2 then p.blockRewards.error else if k == 3 then p.avgNodeCount.error
    else if k == 4 then p.bondingEarnings.error else if k == 5 then p.liquidityEarnings.error
    else if k == 6 then p.liquidityFees.error else p.runePriceUSD.error
  }

  /** The chain succeeds exactly when no field failed, and then carries every parsed value and
      the fresh id; otherwise it reports the error of the first failed field. */
  lemma AssembleEarningsSpec(p: EarningsParsed, freshId: nat)
    ensures var r := AssembleEarnings(p, freshId);
      (r.Ok? <==> forall k :: 0 <= k < 8 ==> !EarningsFieldFailed(p, k))
      && (r.Ok? ==>
            r.value.id == freshId && r.value.pool.None?
            && p.startTime == Ok(r.value.startTime) && p.endTime == Ok(r.value.endTime)
            && p.blockRewards == Ok(r.value.values.blockRewards)
            && p.avgNodeCount == Ok(r.value.values.avgNodeCount)
            && p.bondingEarnings == Ok(r.value.values.bondingEarnings)
            && p.liquidityEarnings == Ok(r.value.values.liquidityEarnings)
            && p.liquidityFees == Ok(r.value.values.liquidityFees)
            && p.runePriceUSD == Ok(r.value.values.runePriceUSD))
      && (r.Err? ==> exists k :: (0 <= k < 8 && EarningsFieldFailed(p, k)
                                 && (forall j :: 0 <= j < k ==> !EarningsFieldFailed(p, j))
                                 && r.error == EarningsErrorAt(p, k)))
  {
    var r := AssembleEarnings(p, freshId);
    if r.Err? {
      var k: nat :=
        if p.startTime.Err? then 0 else if p.endTime.Err? then 1
        else if p.blockRewards.Err? then 2 else if p.avgNodeCount.Err? then 3
        else if p.bondingEarnings.Err? then 4 else if p.liquidityEarnings.Err? then 5
        else if p.liquidityFees.Err? then 6 else 7;
      assert EarningsFieldFailed(p, k) && r.error == EarningsErrorAt(p, k);
      assert forall j :: 0 <= j < k ==> !EarningsFieldFailed(p, j);
    }
  }

  /** A start_time that does not parse is the error, whatever the other fields hold. */
  lemma EarningsStartTimeFirst(req: EarningsSummaryRequest, freshId: nat, pf: string -> Option<real>)
    requires ParseI64(Trim(req.startTime)).None?
    ensures EarningsFrom(req, freshId, pf) == Err(BadInt("start_time"))
  {
  }

  /** A record whose eight fields all parse converts to those values. */
  lemma EarningsAllParse(req: EarningsSummaryRequest, freshId: nat, pf: string -> Option<real>,
                         st: int, et: int, v: EarningsValues)
    requires ParseI64(Trim(req.startTime)) == Some(st) && ParseI64(Trim(req.endTime)) == Some(et)
    requires pf(Trim(req.blockRewards)) == Some(v.blockRewards)
    requires pf(Trim(req.avgNodeCount)) == Some(v.avgNodeCount)
    requires pf(Trim(req.bondingEarnings)) == Some(v.bondingEarnings)
    requires pf(Trim(req.liquidityEarnings)) == Some(v.liquidityEarnings)
    requires pf(Trim(req.liquidityFees)) == Some(v.liquidityFees)
    requires pf(Trim(req.runePriceUSD)) == Some(v.runePriceUSD)
    ensures EarningsFrom(req, freshId, pf) == Ok(Sample(freshId, None, st, et, v))
  {
  }

  // ----- PoolEarningsRequest -> EarningsHistoryPools -----

  datatype PoolEarningsRequest = PoolEarningsRequest(
    pool: string, assetLiquidityFees: string, runeLiquidityFees: string,
    totalLiquidityFeesRune: string, saverEarning: string, rewards: string,
    startTime: string, endTime: string, earningsSummaryId: nat)

  /** The seven numeric fields, trimmed and parsed on their own. */
  datatype PoolParsed = PoolParsed(
    assetLiquidityFees: Result<real, ConversionError>, runeLiquidityFees: Result<real, ConversionError>,
    totalLiquidityFeesRune: Result<real, ConversionError>, saverEarning: Result<real, ConversionError>,
    rewards: Result<real, ConversionError>,
    startTime: Result<int, ConversionError>, endTime: Result<int, ConversionError>)

  function ParsePoolFields(req: PoolEarningsRequest, pf: string -> Option<real>): PoolParsed {
    PoolParsed(
      FloatField(req.assetLiquidityFees, "asset_liquidity_fees", pf),
      FloatField(req.runeLiquidityFees, "rune_liquidity_fees", pf),
      FloatField(req.totalLiquidityFeesRune, "total_liquidity_fees_rune", pf),
      FloatField(req.saverEarning, "saver_earning", pf), FloatField(req.rewards, "rewards", pf),
      IntField(req.startTime, "start_time"), IntField(req.endTime, "end_time"))
  }

  /** The `?` chain: `pool` is trimmed, which cannot fail; then the five floats, then the two
      times; the parent id is copied. */
  function AssemblePool(pool: string, summaryId: nat, p: PoolParsed, freshId: nat)
    : Result<PoolEarnings, ConversionError>
  {
    if p.assetLiquidityFees.Err? then Err(p.assetLiquidityFees.error)
    else if p.runeLiquidityFees.Err? then Err(p.runeLiquidityFees.error)
    else if p.totalLiquidityFeesRune.Err? then Err(p.totalLiquidityFeesRune.error)
    else if p.saverEarning.Err? then Err(p.saverEarning.error)
    else if p.rewards.Err? then Err(p.rewards.error)
    else if p.startTime.Err? then Err(p.startTime.error)
    else if p.endTime.Err? then Err(p.endTime.error)
    else Ok(PoolEarnings(freshId, pool, p.assetLiquidityFees.value, p.runeLiquidityFees.value,
      p.totalLiquidityFeesRune.value, p.saverEarning.value, p.rewards.value,
      p.startTime.value, p.endTime.value, summaryId))
  }

  /** `TryFrom<PoolEarningsRequest> for EarningsHistoryPools`. */
  function PoolEarningsFrom(req: PoolEarningsRequest, freshId: nat, pf: string -> Option<real>)
    : Result<PoolEarnings, ConversionError>
  {
    AssemblePool(Trim(req.pool), req.earningsSummaryId, ParsePoolFields(req, pf), freshId)
  }

  predicate PoolFieldFailed(p: PoolParsed, k: nat)
    requires k < 7
  {
    [p.assetLiquidityFees.Err?, p.runeLiquidityFees.Err?, p.totalLiquidityFeesRune.Err?,
     p.saverEarning.Err?, p.rewards.Err?, p.startTime.Err?, p.endTime.Err?][k]
  }

  function PoolErrorAt(p: PoolParsed, k: nat): ConversionError
    requires k < 7 && PoolFieldFailed(p, k)
  {
    if k == 0 then p.assetLiquidityFees.error else if k == 1 then p.runeLiquidityFees.error
    else if k == 2 then p.totalLiquidityFeesRune.error else if k == 3 then p.saverEarning.error
    else if k == 4 then p.rewards.error else if k == 5 then p.startTime.error else p.endTime.error
  }

  /**
   * The pool name (already trimmed) never causes an error; the parent id is copied; the chain
   * succeeds exactly when no numeric field failed, and otherwise reports the first
   * failure.
   */
  lemma AssemblePoolSpec(pool: string, summaryId: nat, p: PoolParsed, freshId: nat)
    ensures var r := AssemblePool(pool, summaryId, p, freshId);
      (r.Ok? <==> forall k :: 0 <= k < 7 ==> !PoolFieldFailed(p, k))
      && (r.Ok? ==>
            r.value.id == freshId && r.value.pool == pool && r.value.earningsSummaryId == summaryId
            && p.assetLiquidityFees == Ok(r.value.assetLiquidityFees)
            && p.runeLiquidityFees == Ok(r.value.runeLiquidityFees)
            && p.totalLiquidityFeesRune == Ok(r.value.totalLiquidityFeesRune)
            && p.saverEarning == Ok(r.value.saverEarning)
            && p.rewards == Ok(r.value.rewards)
            && p.startTime == Ok(r.value.startTime) && p.endTime == Ok(r.value.endTime))
      && (r.Err? ==> exists k :: (0 <= k < 7 && PoolFieldFailed(p, k)
                                 && (forall j :: 0 <= j < k ==> !PoolFieldFailed(p, j))
                                 && r.error == PoolErrorAt(p, k)))
  {
    var r := AssemblePool(pool, summaryId, p, freshId);
    if r.Err? {
      var k: nat :=
        if p.assetLiquidityFees.Err? then 0 else if p.runeLiquidityFees.Err? then 1
        else if p.totalLiquidityFeesRune.Err? then 2 else if p.saverEarning.Err? then 3
        else if p.rewards.Err? then 4 else if p.startTime.Err? then 5 else 6;
      assert PoolFieldFailed(p, k) && r.error == PoolErrorAt(p, k);
      assert forall j :: 0 <= j < k ==> !PoolFieldFailed(p, j);
    }
  }

  /** The stored pool name is the trimmed input name. */
  lemma PoolNameTrimmed(req: PoolEarningsRequest, freshId: nat, pf: string -> Option<real>)
    ensures PoolEarningsFrom(req, freshId, pf).Ok? ==> PoolEarningsFrom(req, freshId, pf).value.pool == Trim(req.pool)
  {
  }

  /** The times are read after the fees: a bad fee is reported even when a time is bad too. */
  lemma PoolFeesBeforeTimes(req: PoolEarningsRequest, freshId: nat, pf: string -> Option<real>)
    requires pf(Trim(req.assetLiquidityFees)).None?
    ensures PoolEarningsFrom(req, freshId, pf) == Err(BadFloat("asset_liquidity_fees"))
  {
  }

  // ----- runepool Interval -> RunePoolTotalMembersHistory -----

  datatype RunePoolInterval = RunePoolInterval(
    startTime: string, endTime: string, depth: Option<string>, count: string, units: string)

  /** `depth` is optional and a bad one is dropped rather than reported. */
  function RunePoolFrom(iv: RunePoolInterval, freshId: nat, pf: string -> Option<real>)
    : Result<Sample<RunePoolValues>, ConversionError>
  {
    var st := IntField(iv.startTime, "start_time");
    if st.Err? then Err(st.error) else
    var et := IntField(iv.endTime, "end_time");
    if et.Err? then Err(et.error) else
    var depth := if iv.depth.Some? then pf(Trim(iv.depth.value)) else None;
    var ct := FloatField(iv.count, "count", pf);
    if ct.Err? then Err(ct.error) else
    var un := FloatField(iv.units, "units", pf);
    if un.Err? then Err(un.error) else
    Ok(Sample(freshId, None, st.value, et.value, RunePoolValues(depth, ct.value, un.value)))
  }

  /**
   * The conversion succeeds exactly when the two times and count and units parse, whatever
   * `depth` holds; a missing or unparsable depth is stored as absent; the record has no pool
   * and gets the fresh id; the error names the first of start_time, end_time, count, units
   * that fails.
   */
  lemma RunePoolFromSpec(iv: RunePoolInterval, freshId: nat, pf: string -> Option<real>)
    ensures var r := RunePoolFrom(iv, freshId, pf);
      var okTimes := ParseI64(Trim(iv.startTime)).Some? && ParseI64(Trim(iv.endTime)).Some?;
      (r.Ok? <==> okTimes && pf(Trim(iv.count)).Some? && pf(Trim(iv.units)).Some?)
      && (r.Ok? ==>
            r.value.id == freshId && r.value.pool.None?
            && Some(r.value.startTime) == ParseI64(Trim(iv.startTime))
            && Some(r.value.endTime) == ParseI64(Trim(iv.endTime))
            && (iv.depth.None? ==> r.value.values.depth.None?)
            && (iv.depth.Some? ==> r.value.values.depth == pf(Trim(iv.depth.value)))
            && Some(r.value.values.count) == pf(Trim(iv.count))
            && Some(r.value.values.units) == pf(Trim(iv.units)))
      && (ParseI64(Trim(iv.startTime)).None? ==> r == Err(BadInt("start_time")))
      && (ParseI64(Trim(iv.startTime)).Some? && ParseI64(Trim(iv.endTime)).None? ==> r == Err(BadInt("end_time")))
      && (okTimes && pf(Trim(iv.count)).None? ==> r == Err(BadFloat("count")))
      && (okTimes && pf(Trim(iv.count)).Some? && pf(Trim(iv.units)).None? ==> r == Err(BadFloat("units")))
  {
  }

  /** Times rendered with `ShowInt` survive the trim and the parse: a record written out
      and read back keeps its times. */
  lemma RunePoolTimesRoundTrip(start: int, end: int, count: string, units: string, freshId: nat,
                               pf: string -> Option<real>)
    requires InI64(start) && InI64(end)
    requires pf(Trim(count)).Some? && pf(Trim(units)).Some?
    ensures var r := RunePoolFrom(RunePoolInterval(ShowInt(start), ShowInt(end), None, count, units), freshId, pf);
      r.Ok? && r.value.startTime == start && r.value.endTime == end && r.value.values.depth.None?
  {
    TrimShowInt(start);
    TrimShowInt(end);
    ParseShowRoundTrip(start);
    ParseShowRoundTrip(end);
    assert ParseI64(Trim(ShowInt(start))) == Some(start);
    assert ParseI64(Trim(ShowInt(end))) == Some(end);
    RunePoolFromSpec(RunePoolInterval(ShowInt(start), ShowInt(end), None, count, units), freshId, pf);
  }
}
