/**
 * Shapes of the stored documents. A stored document is an `Aggregation.Sample` whose `values`
 * carry the family's numeric fields; the `_id`, pool and window live in the sample itself.
 * f64 fields are modelled as `real`.
 */
module Records {
  import opened Wrappers

  /** The fields of a stored `DepthPriceHistory` (src/models/depth_price_history.rs). */
  datatype DepthValues = DepthValues(
    assetDepth: real, runeDepth: real, assetPrice: real, assetPriceUSD: real,
    liquidityUnits: real, membersCount: real, synthUnits: real, synthSupply: real,
    units: real, luvi: real)

  /** The fields of a stored swaps sample: seven i64 counts, then volumes, USD volumes, fees,
      average slips and the RUNE price, all f64. */
  datatype SwapValues = SwapValues(
    toAssetCount: int, toRuneCount: int, toTradeCount: int, fromTradeCount: int,
    synthMintCount: int, synthRedeemCount: int, totalCount: int,
    toAssetVolume: real, toRuneVolume: real, toTradeVolume: real, fromTradeVolume: real,
    synthMintVolume: real, synthRedeemVolume: real, totalVolume: real,
    toAssetVolumeUSD: real, toRuneVolumeUSD: real, toTradeVolumeUSD: real, fromTradeVolumeUSD: real,
    synthMintVolumeUSD: real, synthRedeemVolumeUSD: real, totalVolumeUSD: real,
    toAssetFees: real, toRuneFees: real, toTradeFees: real, fromTradeFees: real,
    synthMintFees: real, synthRedeemFees: real, totalFees: real,
    toAssetAverageSlip: real, toRuneAverageSlip: real, toTradeAverageSlip: real,
    fromTradeAverageSlip: real, synthMintAverageSlip: real, synthRedeemAverageSlip: real,
    averageSlip: real, runePriceUSD: real)

  /** The fields of a stored `RunePoolTotalMembersHistory`; `depth` may be null. */
  datatype RunePoolValues = RunePoolValues(depth: Option<real>, count: real, units: real)

  /** The fields of a stored `EarningsHistory`. */
  datatype EarningsValues = EarningsValues(
    blockRewards: real, avgNodeCount: real, bondingEarnings: real,
    liquidityEarnings: real, liquidityFees: real, runePriceUSD: real)

  /** A stored `EarningsHistoryPools` document, linked to its parent by `earningsSummaryId`. */
  datatype PoolEarnings = PoolEarnings(
    id: nat, pool: string,
    assetLiquidityFees: real, runeLiquidityFees: real, totalLiquidityFeesRune: real,
    saverEarning: real, rewards: real,
    startTime: int, endTime: int, earningsSummaryId: nat)
}
