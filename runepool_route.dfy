/** GET /api/history/runepool, limit-only version (src/routes/rune_pool_history_route.rs). */
module RunePoolRoute {
  import opened Wrappers
  import opened Queries
  import Utils
  import opened Aggregation
  import opened HistoryCommon
  import opened Records

  /** The route file's own copy of the interval table. */
  function LocalSecondsPerInterval(interval: string): int {
    match interval
    case "5min" => 300
    case "hour" => 3600
    case "day" => 86400
    case "week" => 604800
    case "month" => 2592000
    case "quarter" => 7776000
    case "year" => 31536000
    case _ => 3600
  }

  /** The local table agrees with the shared one on every input. */
  lemma LocalTableAgrees(interval: string)
    ensures LocalSecondsPerInterval(interval) == Utils.SecondsPerInterval(interval)
  {
  }

  /** Start values from the first bucket, end values from the last; the f64-to-string
      renderings are kept as numbers. */
  datatype RunePoolMeta = RunePoolMeta(
    startTime: int, endTime: int, startCount: real, endCount: real, startUnits: real, endUnits: real)

  const NotFoundMessage: string := "No runepool history found"
  const FetchFailedMessage: string := "Failed to fetch runepool history"

  function MetaOf(first: Bucket<RunePoolValues>, last: Bucket<RunePoolValues>): RunePoolMeta {
    RunePoolMeta(first.startTime, last.endTime, first.values.count, last.values.count,
      first.values.units, last.values.units)
  }

  function RunePoolHistory(q: QueryParams, now: int, store: seq<Sample<RunePoolValues>>)
    : Response<Bucket<RunePoolValues>, RunePoolMeta>
  {
    LimitedHistory(true, None, q, now, store, MetaOf, NotFoundMessage, FetchFailedMessage)
  }

  method GetRunePoolHistory(q: QueryParams, now: int, store: seq<Sample<RunePoolValues>>)
    returns (r: Response<Bucket<RunePoolValues>, RunePoolMeta>)
    ensures r == RunePoolHistory(q, now, store)
  {
    r := RunLimitedHistory(true, None, q, now, store, MetaOf, NotFoundMessage, FetchFailedMessage);
  }

  /**
   * 400 on a pairing violation; 404 "No runepool history found" exactly when nothing is in the
   * window (and the count is positive); otherwise at most `count` ascending buckets whose
   * count, units and depth are those of the last matching sample of their bucket, with
   * startTime/startCount/startUnits from the first and endTime/endCount/endUnits from the last.
   */
  lemma RunePoolHistorySpec(q: QueryParams, now: int, store: seq<Sample<RunePoolValues>>)
    ensures var r := RunePoolHistory(q, now, store);
      var w := HistoryWindow(None, q, now);
      (r.BadRequest? <==> PairingViolated(q))
      && (r.NotFound? <==> !PairingViolated(q) && Count(q) > 0 && forall i :: 0 <= i < |store| ==>
            !(store[i].startTime >= StartBound(q, now) && (q.to.Some? ==> store[i].endTime <= q.to.value)))
      && (r.NotFound? ==> r.message == NotFoundMessage)
      && (r.Success? ==>
            var first, last := r.intervals[0], r.intervals[|r.intervals| - 1];
            0 < |r.intervals| <= Count(q)
            && (forall b :: b in r.intervals ==> exists s :: BucketOf(w, store, BucketLength(q), b, s))
            && (forall i, j :: 0 <= i < j < |r.intervals| ==>
                  r.intervals[i].startTime <= r.intervals[j].startTime)
            && r.meta.startTime == first.startTime && r.meta.endTime == last.endTime
            && r.meta.startCount == first.values.count && r.meta.endCount == last.values.count
            && r.meta.startUnits == first.values.units && r.meta.endUnits == last.values.units)
  {
    LimitedHistorySpec(true, None, q, now, store, MetaOf, NotFoundMessage, FetchFailedMessage);
  }
}
