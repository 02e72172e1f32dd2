/** GET /api/history/depth/{pool} (src/routes/depth_history_routes.rs). */
module DepthRoute {
  import opened Wrappers
  import opened Queries
  import opened Aggregation
  import opened HistoryCommon
  import opened Records

  /** The meta block: window bounds, start/end depths and units, member counts cast to i32,
      the asset-price shift and the LUVI increase. The f64-to-string renderings of the source
      are kept as numbers. */
  datatype DepthMeta = DepthMeta(
    startTime: int, endTime: int,
    startAssetDepth: real, endAssetDepth: real,
    startRuneDepth: real, endRuneDepth: real,
    startLPUnits: real, endLPUnits: real,
    startMemberCount: int, endMemberCount: int,
    startSynthUnits: real, endSynthUnits: real,
    priceShiftLoss: real, luviIncrease: real)

  const NotFoundMessage: string := "No depth history found"
  const FetchFailedMessage: string := "Failed to fetch depth history"

  function MetaOf(first: Bucket<DepthValues>, last: Bucket<DepthValues>): DepthMeta {
    DepthMeta(
      first.startTime, last.endTime,
      first.values.assetDepth, last.values.assetDepth,
      first.values.runeDepth, last.values.runeDepth,
      first.values.units, last.values.units,
      F64ToI32(first.values.membersCount), F64ToI32(last.values.membersCount),
      first.values.synthUnits, last.values.synthUnits,
      first.values.assetPrice - last.values.assetPrice,
      last.values.luvi - first.values.luvi)
  }

  /** The route over the depth collection `store` at time `now`; it has no pairing check. */
  function DepthHistory(pool: string, q: QueryParams, now: int, store: seq<Sample<DepthValues>>)
    : Response<Bucket<DepthValues>, DepthMeta>
  {
    LimitedHistory(false, Some(pool), q, now, store, MetaOf, NotFoundMessage, FetchFailedMessage)
  }

  method GetDepthHistory(pool: string, q: QueryParams, now: int, store: seq<Sample<DepthValues>>)
    returns (r: Response<Bucket<DepthValues>, DepthMeta>)
    ensures r == DepthHistory(pool, q, now, store)
  {
    r := RunLimitedHistory(false, Some(pool), q, now, store, MetaOf, NotFoundMessage, FetchFailedMessage);
  }

  /**
   * Never a 400, whatever interval and count say; 500 exactly when the count is not positive;
   * 404 exactly when no sample of the path's pool is in the window; otherwise at most `count`
   * buckets in ascending order, each the bucket of the last matching sample of the path's pool.
   */
  lemma DepthHistorySpec(pool: string, q: QueryParams, now: int, store: seq<Sample<DepthValues>>)
    ensures var r := DepthHistory(pool, q, now, store);
      var w := HistoryWindow(Some(pool), q, now);
      !r.BadRequest?
      && (r.ServerError? <==> Count(q) <= 0)
      && (r.NotFound? <==> Count(q) > 0 && forall i :: 0 <= i < |store| ==>
            !(store[i].pool == Some(pool) && store[i].startTime >= StartBound(q, now)
              && (q.to.Some? ==> store[i].endTime <= q.to.value)))
      && (r.NotFound? ==> r.message == NotFoundMessage)
      && (r.Success? ==>
            0 < |r.intervals| <= Count(q)
            && (forall b :: b in r.intervals ==>
                  exists s: Sample<DepthValues> :: s.pool == Some(pool) && BucketOf(w, store, BucketLength(q), b, s))
            && (forall i, j :: 0 <= i < j < |r.intervals| ==>
                  r.intervals[i].startTime <= r.intervals[j].startTime))
  {
    var w := HistoryWindow(Some(pool), q, now);
    LimitedHistorySpec(false, Some(pool), q, now, store, MetaOf, NotFoundMessage, FetchFailedMessage);
  }

  /** The meta block reads the first bucket for start values and the last for end values:
      priceShiftLoss = first.assetPrice - last.assetPrice, luviIncrease = last.luvi - first.luvi,
      the member counts are the i32 casts of the f64 counts, and the window spans at least one
      bucket length. */
  lemma DepthMetaSpec(pool: string, q: QueryParams, now: int, store: seq<Sample<DepthValues>>)
    ensures var r := DepthHistory(pool, q, now, store);
      r.Success? ==>
        var first, last := r.intervals[0], r.intervals[|r.intervals| - 1];
        r.meta.startTime == first.startTime && r.meta.endTime == last.endTime
        && r.meta.startAssetDepth == first.values.assetDepth && r.meta.endAssetDepth == last.values.assetDepth
        && r.meta.startRuneDepth == first.values.runeDepth && r.meta.endRuneDepth == last.values.runeDepth
        && r.meta.startLPUnits == first.values.units && r.meta.endLPUnits == last.values.units
        && r.meta.startSynthUnits == first.values.synthUnits && r.meta.endSynthUnits == last.values.synthUnits
        && r.meta.priceShiftLoss == first.values.assetPrice - last.values.assetPrice
        && r.meta.luviIncrease == last.values.luvi - first.values.luvi
        && r.meta.startMemberCount == F64ToI32(first.values.membersCount)
        && r.meta.endMemberCount == F64ToI32(last.values.membersCount)
        && r.meta.endTime >= r.meta.startTime + BucketLength(q)
  {
    var r := DepthHistory(pool, q, now, store);
    LimitedHistorySpec(false, Some(pool), q, now, store, MetaOf, NotFoundMessage, FetchFailedMessage);
    if r.Success? {
      var last := r.intervals[|r.intervals| - 1];
      assert last in r.intervals;
      var s :| BucketOf(HistoryWindow(Some(pool), q, now), store, BucketLength(q), last, s);
    }
  }
}
