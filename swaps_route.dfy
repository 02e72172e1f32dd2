/** GET /api/history/swaps (src/routes/swaps_history_routes.rs). */
module SwapsRoute {
  import opened Wrappers
  import opened Queries
  import Utils
  import opened Aggregation
  import opened HistoryCommon
  import opened Records

  /** The route file's own copy of the interval table. */
  function LocalSecondsPerInterval(interval: string): int {
    match interval
    case "5min" => 300
    case "hour" => 3600
    case "day" => 86400
    case "week" => 604800
    case "month" => 2592000
    case "quarter" => 7776000
    case "year" => 31536000
    case _ => 3600
  }

  /** The local table agrees with the shared one on every input, so the shared bucket length
      is the one this route uses. */
  lemma LocalTableAgrees(interval: string)
    ensures LocalSecondsPerInterval(interval) == Utils.SecondsPerInterval(interval)
  {
  }

  const NotFoundMessage: string := "No depth history found"
  const FetchFailedMessage: string := "Failed to fetch depth history"

  /** The meta block copies every field of the first bucket. */
  function FirstValues(first: Bucket<SwapValues>, last: Bucket<SwapValues>): SwapValues {
    first.values
  }

  /** The route over the swaps collection `store` at time `now`; the window has no pool
      condition. */
  function SwapsHistory(q: QueryParams, now: int, store: seq<Sample<SwapValues>>)
    : Response<Bucket<SwapValues>, SwapValues>
  {
    LimitedHistory(true, None, q, now, store, FirstValues, NotFoundMessage, FetchFailedMessage)
  }

  method GetSwapsHistory(q: QueryParams, now: int, store: seq<Sample<SwapValues>>)
    returns (r: Response<Bucket<SwapValues>, SwapValues>)
    ensures r == SwapsHistory(q, now, store)
  {
    r := RunLimitedHistory(true, None, q, now, store, FirstValues, NotFoundMessage, FetchFailedMessage);
  }

  /**
   * 400 "Both interval and count must be provided together" exactly when one of the two is
   * given without the other; otherwise as the depth route but over every pool: 500 for a
   * non-positive count, 404 when nothing is in the window, else at most `count` ascending
   * buckets, and the meta block is the first bucket's values, whatever the later buckets hold.
   */
  lemma SwapsHistorySpec(q: QueryParams, now: int, store: seq<Sample<SwapValues>>)
    ensures var r := SwapsHistory(q, now, store);
      var w := HistoryWindow(None, q, now);
      (r.BadRequest? <==> (q.interval.Some? && q.count.None?) || (q.interval.None? && q.count.Some?))
      && (r.BadRequest? ==> r.message == PairingMessage)
      && (r.ServerError? <==> !PairingViolated(q) && Count(q) <= 0)
      && (r.NotFound? <==> !PairingViolated(q) && Count(q) > 0 && forall i :: 0 <= i < |store| ==>
            !(store[i].startTime >= StartBound(q, now) && (q.to.Some? ==> store[i].endTime <= q.to.value)))
      && (r.Success? ==>
            0 < |r.intervals| <= Count(q)
            && (forall b :: b in r.intervals ==> exists s :: BucketOf(w, store, BucketLength(q), b, s))
            && (forall i, j :: 0 <= i < j < |r.intervals| ==>
                  r.intervals[i].startTime <= r.intervals[j].startTime)
            && r.meta == r.intervals[0].values)
  {
    LimitedHistorySpec(true, None, q, now, store, FirstValues, NotFoundMessage, FetchFailedMessage);
  }
}
