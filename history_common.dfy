/**
 * What the history routes share: the response shape, the interval/count pairing rule, the
 * defaults read from the query, the `$match` window, and the sort/skip/limit tail of the
 * pipeline, including the server's refusal of a non-positive `$limit` or a negative `$skip`.
 */
module HistoryCommon {
  import opened Wrappers
  import opened Queries
  import Utils
  import opened Aggregation

  /** The paging envelope of the paginated routes. */
  datatype Pagination = Pagination(
    currentPage: int, totalPages: int, totalRecords: int, limit: int, sortBy: string, order: string)

  /** A route's answer: 200 with its intervals, meta block and, on the earnings route, a paging
      envelope; or an error status with its message. */
  datatype Response<I, M> =
    | Success(intervals: seq<I>, meta: M, pagination: Option<Pagination>)
    | BadRequest(message: string)
    | NotFound(message: string)
    | ServerError(message: string)

  // ----- the pairing rule -----

  const PairingMessage: string := "Both interval and count must be provided together"

  /** Exactly one of interval and count is present. */
  predicate PairingViolated(q: QueryParams) {
    (q.interval.Some? && q.count.None?) || (q.interval.None? && q.count.Some?)
  }

  // ----- defaults read from the query -----

  const DefaultInterval: string := "hour"
  const DefaultCount: int := 400

  /** The bucket length L, from `interval` or "hour". */
  function BucketLength(q: QueryParams): (len: int)
    ensures len >= 300
    ensures q.interval.None? ==> len == Utils.HourSeconds
    ensures q.interval.Some? && q.interval.value in Utils.IntervalTable ==>
      len == Utils.IntervalTable[q.interval.value]
  {
    Utils.SecondsPerIntervalMatchesTable(q.interval.GetOr(DefaultInterval));
    Utils.SecondsPerInterval(q.interval.GetOr(DefaultInterval))
  }

  function Count(q: QueryParams): int {
    if q.count.Some? then q.count.value else DefaultCount
  }

  /** Lower bound on start_time: `from`, or `now - count * L` when `from` is absent. */
  function StartBound(q: QueryParams, now: int): int {
    if q.from.Some? then q.from.value else now - Count(q) * BucketLength(q)
  }

  /** The `$match` stage, built field by field as the routes build `match_stage`. */
  method BuildMatchStage(pool: Option<string>, q: QueryParams, now: int) returns (w: Window)
    ensures w == HistoryWindow(pool, q, now)
  {
    w := Window(pool, 0, None);
    if q.from.Some? {
      w := w.(from := q.from.value);
    } else {
      var count := Count(q);
      w := w.(from := now - count * BucketLength(q));
    }
    if q.to.Some? {
      w := w.(to := q.to);
    }
  }

  function HistoryWindow(pool: Option<string>, q: QueryParams, now: int): Window {
    Window(pool, StartBound(q, now), q.to)
  }

  /** A sample passes the window iff it has the pool (when one is required), starts no earlier
      than `from` (or `now - count * L`), and ends no later than `to` when `to` is given. */
  lemma HistoryWindowMeaning<V>(pool: Option<string>, q: QueryParams, now: int, r: Sample<V>)
    ensures InWindow(HistoryWindow(pool, q, now), r) <==>
      (pool.Some? ==> r.pool == pool)
      && r.startTime >= (if q.from.Some? then q.from.value else now - Count(q) * BucketLength(q))
      && (q.to.Some? ==> r.endTime <= q.to.value)
  {
  }

  // ----- sort, skip, limit -----

  /** `$sort: { startTime: 1 }` then `$limit`; None when the server refuses a limit that is not
      positive. */
  function LimitedBuckets<V>(w: Window, rs: seq<Sample<V>>, len: int, limit: int): Option<seq<Bucket<V>>>
    requires len > 0
  {
    if limit <= 0 then None else Some(Page(SortBuckets(Buckets(w, rs, len), StartTimeKey, true), 0, limit))
  }

  /** The limited pipeline returns the `limit` earliest buckets in ascending order: no more than
      `limit`, every one a bucket of the matching samples, none of the left-out buckets earlier
      than one returned, and nothing exactly when nothing matches. */
  lemma LimitedBucketsSpec<V>(w: Window, rs: seq<Sample<V>>, len: int, limit: int)
    requires len > 2
    ensures LimitedBuckets(w, rs, len, limit).Some? <==> limit > 0
    ensures LimitedBuckets(w, rs, len, limit).Some? ==>
      var bs := LimitedBuckets(w, rs, len, limit).value;
      var all := Buckets(w, rs, len);
      |bs| == Min(limit, |all|)
      && SortedBy(bs, StartTimeKey, true)
      && (forall i :: 0 <= i < |bs| ==> bs[i] in all)
      && (forall b :: b in all && b !in bs ==> forall i :: 0 <= i < |bs| ==> bs[i].startTime <= b.startTime)
      && (bs == [] <==> Matching(w, rs) == [])
  {
    if limit > 0 {
      var all := Buckets(w, rs, len);
      var sorted := SortBuckets(all, StartTimeKey, true);
      var bs := Page(sorted, 0, limit);
      assert |sorted| == |all| by {
        assert |multiset(sorted)| == |multiset(all)|;
      }
      forall i | 0 <= i < |bs| ensures bs[i] in all {
        InPermutation(sorted, all, i);
      }
      forall b | b in all && b !in bs ensures forall i :: 0 <= i < |bs| ==> bs[i].startTime <= b.startTime {
        assert b in multiset(sorted);
        var j :| 0 <= j < |sorted| && sorted[j] == b;
        assert j >= |bs| by {
          assert forall k :: 0 <= k < |bs| ==> bs[k] == sorted[k];
        }
        forall i | 0 <= i < |bs| ensures bs[i].startTime <= b.startTime {
          assert Before(sorted[i], sorted[j], StartTimeKey, true);
        }
      }
      assert SortedBy(bs, StartTimeKey, true) by {
        forall i, j | 0 <= i < j < |bs| ensures Before(bs[i], bs[j], StartTimeKey, true) {
          assert bs[i] == sorted[i] && bs[j] == sorted[j];
        }
      }
      BucketsEmptyIff(w, rs, len);
    }
  }

  /** With positive end times, the limited pipeline's buckets are strictly ascending. */
  lemma LimitedBucketsStrictlyAscending<V>(w: Window, rs: seq<Sample<V>>, len: int, limit: int)
    requires len > 2 && limit > 0 && PositiveEndTimes(rs)
    ensures var bs := LimitedBuckets(w, rs, len, limit).value;
      forall i, j :: 0 <= i < j < |bs| ==> bs[i].startTime < bs[j].startTime
  {
    var all := Buckets(w, rs, len);
    BucketsDistinctStarts(w, rs, len);
    SortKeepsDistinctStarts(all, StartTimeKey, true);
    var sorted := SortBuckets(all, StartTimeKey, true);
    SortedStrictly(sorted, true);
  }

  /** `b` is the bucket of sample `s`: s is stored, passes the window and is the last matching
      sample with its key; b carries s's values and `_id` and spans one bucket length, and when
      s's end time is positive b starts on a multiple of L and contains it. */
  ghost predicate BucketOf<V>(w: Window, rs: seq<Sample<V>>, len: int, b: Bucket<V>, s: Sample<V>)
    requires len > 0
  {
    s in rs && InWindow(w, s)
    && LastWithKey(Matching(w, rs), KeyOf(s, len), len) == Some(s)
    && b.values == s.values && b.lastId == s.id && b.endTime == b.startTime + len
    && (s.endTime >= 1 ==> b.startTime % len == 0 && b.startTime < s.endTime <= b.endTime)
  }

  lemma SourceOfBucket<V>(w: Window, rs: seq<Sample<V>>, len: int, b: Bucket<V>) returns (s: Sample<V>)
    requires len > 2 && b in Buckets(w, rs, len)
    ensures BucketOf(w, rs, len, b, s)
  {
    var all := Buckets(w, rs, len);
    var j :| 0 <= j < |all| && all[j] == b;
    BucketsSpec(w, rs, len);
    var m := Matching(w, rs);
    s := LastWithKey(m, KeysOf(m, len)[j], len).value;
  }

  lemma EveryBucketHasSource<V>(w: Window, rs: seq<Sample<V>>, len: int)
    requires len > 2
    ensures forall b :: b in Buckets(w, rs, len) ==> exists s :: BucketOf(w, rs, len, b, s)
  {
    forall b | b in Buckets(w, rs, len) ensures exists s :: BucketOf(w, rs, len, b, s) {
      var s := SourceOfBucket(w, rs, len, b);
    }
  }

  /** The output of a limited route: at most `limit` buckets, in ascending start order, each the
      bucket of the last matching sample with its key; nothing exactly when nothing matches. */
  lemma LimitedOutputSpec<V>(w: Window, rs: seq<Sample<V>>, len: int, limit: int)
    requires len > 2 && limit > 0
    ensures var bs := LimitedBuckets(w, rs, len, limit).value;
      |bs| <= limit
      && (forall b :: b in bs ==> exists s :: BucketOf(w, rs, len, b, s))
      && (forall i, j :: 0 <= i < j < |bs| ==> bs[i].startTime <= bs[j].startTime)
      && (bs == [] <==> Matching(w, rs) == [])
  {
    var bs := LimitedBuckets(w, rs, len, limit).value;
    LimitedBucketsSpec(w, rs, len, limit);
    EveryBucketHasSource(w, rs, len);
    forall i, j | 0 <= i < j < |bs| ensures bs[i].startTime <= bs[j].startTime {
      assert Before(bs[i], bs[j], StartTimeKey, true);
    }
  }

  /**
   * The limit-only history routes: the pairing check when the route has one, then
   * `$match` on the window, `$group`/`$project`, `$sort: { startTime: 1 }`, `$limit: count`;
   * 404 on an empty result, otherwise the buckets and a meta block built from the first and
   * last of them by `metaOf`.
   */
  function LimitedHistory<V, M>(checkPairing: bool, pool: Option<string>, q: QueryParams, now: int,
                                store: seq<Sample<V>>, metaOf: (Bucket<V>, Bucket<V>) -> M,
                                notFound: string, fetchFailed: string): Response<Bucket<V>, M>
  {
    if checkPairing && PairingViolated(q) then BadRequest(PairingMessage)
    else
      match LimitedBuckets(HistoryWindow(pool, q, now), store, BucketLength(q), Count(q))
      case None => ServerError(fetchFailed)
      case Some(bs) =>
        if bs == [] then NotFound(notFound) else Success(bs, metaOf(bs[0], bs[|bs| - 1]), None)
  }

  /** The handler body: build the match stage, run the pipeline, drain the cursor, assemble. */
  method RunLimitedHistory<V, M>(checkPairing: bool, pool: Option<string>, q: QueryParams, now: int,
                                 store: seq<Sample<V>>, metaOf: (Bucket<V>, Bucket<V>) -> M,
                                 notFound: string, fetchFailed: string)
    returns (r: Response<Bucket<V>, M>)
    ensures r == LimitedHistory(checkPairing, pool, q, now, store, metaOf, notFound, fetchFailed)
  {
    if checkPairing && PairingViolated(q) {
      return BadRequest(PairingMessage);
    }
    var len := BucketLength(q);
    var w := BuildMatchStage(pool, q, now);
    var cursor := LimitedBuckets(w, store, len, Count(q));
    if cursor.None? {
      return ServerError(fetchFailed);
    }
    var intervals := Drain(cursor.value);
    if |intervals| == 0 {
      return NotFound(notFound);
    }
    r := Success(intervals, metaOf(intervals[0], intervals[|intervals| - 1]), None);
  }

  /**
   * What a limit-only route answers: 400 exactly on a pairing violation (when checked); 500
   * exactly when the count is not positive, since the server refuses such a `$limit`; 404
   * exactly when no stored sample is in the window; otherwise between 1 and `count` buckets in
   * ascending start order (strictly, when end times are positive), each the bucket of the last
   * matching sample with its key, with the meta block built from the first and the last.
   */
  lemma LimitedHistorySpec<V, M>(checkPairing: bool, pool: Option<string>, q: QueryParams, now: int,
                                 store: seq<Sample<V>>, metaOf: (Bucket<V>, Bucket<V>) -> M,
                                 notFound: string, fetchFailed: string)
    ensures var r := LimitedHistory(checkPairing, pool, q, now, store, metaOf, notFound, fetchFailed);
      var w := HistoryWindow(pool, q, now);
      var pairingFails := checkPairing && PairingViolated(q);
      (r.BadRequest? <==> pairingFails)
      && (r.BadRequest? ==> r.message == PairingMessage)
      && (r.ServerError? <==> !pairingFails && Count(q) <= 0)
      && (r.ServerError? ==> r.message == fetchFailed)
      && (r.NotFound? <==>
            (!pairingFails && Count(q) > 0 && forall i :: 0 <= i < |store| ==> !InWindow(w, store[i])))
      && (r.NotFound? ==> r.message == notFound)
      && (r.Success? ==>
            0 < |r.intervals| <= Count(q)
            && (forall b :: b in r.intervals ==> exists s :: BucketOf(w, store, BucketLength(q), b, s))
            && (forall i, j :: 0 <= i < j < |r.intervals| ==>
                  r.intervals[i].startTime <= r.intervals[j].startTime)
            && (PositiveEndTimes(store) ==> forall i, j :: 0 <= i < j < |r.intervals| ==>
                  r.intervals[i].startTime < r.intervals[j].startTime)
            && r.meta == metaOf(r.intervals[0], r.intervals[|r.intervals| - 1])
            && r.pagination.None?)
  {
    var w := HistoryWindow(pool, q, now);
    var len := BucketLength(q);
    MatchingEmptyIff(w, store);
    if Count(q) > 0 {
      LimitedOutputSpec(w, store, len, Count(q));
      if PositiveEndTimes(store) {
        LimitedBucketsStrictlyAscending(w, store, len, Count(q));
      }
    }
  }

  /** Paging settings of the paginated routes. */
  datatype PageSettings = PageSettings(page: int, limit: int, skip: int, sortField: string, sortOrder: int)

  function Settings(q: QueryParams): PageSettings {
    var page := q.page.GetOr(1);
    var limit := Min(q.limit.GetOr(50), 400);
    var order := q.order.GetOr("asc");
    PageSettings(page, limit, (page - 1) * limit, q.sortBy.GetOr("startTime"),
      if order == "desc" then -1 else 1)
  }

  /** The order name reported in the envelope. */
  function ReportedOrder(sortOrder: int): (name: string)
    ensures name == "asc" <==> sortOrder == 1
  {
    if sortOrder == 1 then "asc" else "desc"
  }

  /** page defaults to 1 and limit to 50; limit is capped at 400 and has no lower bound;
      skip = (page - 1) * limit; only "desc" selects descending order, and the reported order
      names the direction used. */
  lemma SettingsSpec(q: QueryParams)
    ensures q.page.None? ==> Settings(q).page == 1
    ensures q.page.Some? ==> Settings(q).page == q.page.value
    ensures q.limit.None? ==> Settings(q).limit == 50
    ensures Settings(q).limit <= 400
    ensures q.limit.Some? && q.limit.value <= 400 ==> Settings(q).limit == q.limit.value
    ensures q.limit.Some? && q.limit.value > 400 ==> Settings(q).limit == 400
    ensures Settings(q).skip == (Settings(q).page - 1) * Settings(q).limit
    ensures Settings(q).sortOrder == -1 <==> q.order == Some("desc")
    ensures Settings(q).sortOrder == 1 <==> q.order != Some("desc")
    ensures ReportedOrder(Settings(q).sortOrder) == (if q.order == Some("desc") then "desc" else "asc")
    ensures q.sortBy.None? ==> Settings(q).sortField == "startTime"
  {
  }

  /** The sort key a `sort_by` field name selects: startTime and endTime are the projected
      bounds; any other name is looked up among the bucket's values by `valueKey`. */
  function SortKey<V>(field: string, valueKey: (string, V) -> real): Bucket<V> -> real {
    if field == "startTime" then StartTimeKey
    else if field == "endTime" then (b: Bucket<V>) => b.endTime as real
    else (b: Bucket<V>) => valueKey(field, b.values)
  }

  /** `$sort`, `$skip`, `$limit`; None when the server refuses a negative skip or a limit that is
      not positive. */
  function PagedBuckets<V>(w: Window, rs: seq<Sample<V>>, len: int, key: Bucket<V> -> real,
                           ascending: bool, skip: int, limit: int): Option<seq<Bucket<V>>>
    requires len > 0
  {
    if skip < 0 || limit <= 0 then None
    else Some(Page(SortBuckets(Buckets(w, rs, len), key, ascending), skip, limit))
  }

  /** A page is the slice [skip, skip + limit) of the sorted buckets. */
  lemma PagedBucketsSpec<V>(w: Window, rs: seq<Sample<V>>, len: int, key: Bucket<V> -> real,
                            ascending: bool, skip: int, limit: int)
    requires len > 0
    ensures PagedBuckets(w, rs, len, key, ascending, skip, limit).Some? <==> skip >= 0 && limit > 0
    ensures PagedBuckets(w, rs, len, key, ascending, skip, limit).Some? ==>
      var bs := PagedBuckets(w, rs, len, key, ascending, skip, limit).value;
      var sorted := SortBuckets(Buckets(w, rs, len), key, ascending);
      |bs| <= limit
      && (forall i :: 0 <= i < |bs| ==> bs[i] == sorted[skip + i] && bs[i] in Buckets(w, rs, len))
      && SortedBy(bs, key, ascending)
  {
    if skip >= 0 && limit > 0 {
      var all := Buckets(w, rs, len);
      var sorted := SortBuckets(all, key, ascending);
      var bs := Page(sorted, skip, limit);
      forall i | 0 <= i < |bs| ensures bs[i] in all {
        InPermutation(sorted, all, skip + i);
      }
      assert SortedBy(bs, key, ascending) by {
        forall i, j | 0 <= i < j < |bs| ensures Before(bs[i], bs[j], key, ascending) {
          assert bs[i] == sorted[skip + i] && bs[j] == sorted[skip + j];
        }
      }
    }
  }

  /** Every bucket of a page is backed by the last matching sample with its bucket key. */
  lemma PageHasSources<V>(w: Window, rs: seq<Sample<V>>, len: int, key: Bucket<V> -> real,
                          ascending: bool, skip: int, limit: int, bs: seq<Bucket<V>>)
    requires len > 2
    requires PagedBuckets(w, rs, len, key, ascending, skip, limit) == Some(bs)
    ensures forall b :: b in bs ==> exists s :: BucketOf(w, rs, len, b, s)
  {
    PagedBucketsSpec(w, rs, len, key, ascending, skip, limit);
    forall b | b in bs ensures exists s :: BucketOf(w, rs, len, b, s) {
      var i :| 0 <= i < |bs| && bs[i] == b;
      var s := SourceOfBucket(w, rs, len, b);
    }
  }

  /** Walking pages 1 .. ceil(total / limit) visits every sorted bucket exactly once, in order. */
  lemma PagesVisitEveryBucket<V>(w: Window, rs: seq<Sample<V>>, len: int, key: Bucket<V> -> real,
                                 ascending: bool, limit: int)
    requires len > 0 && limit > 0
    ensures var sorted := SortBuckets(Buckets(w, rs, len), key, ascending);
      Pages(sorted, limit, CeilDiv(|sorted|, limit)) == sorted
  {
    PagesCoverAll(SortBuckets(Buckets(w, rs, len), key, ascending), limit);
  }

  /** totalPages: the integer ceiling of totalRecords / limit. */
  function TotalPages(total: nat, limit: int): (n: nat)
    requires limit > 0
    ensures n * limit >= total
    ensures n > 0 ==> (n - 1) * limit < total
  {
    CeilDiv(total, limit)
  }

  /** The paging envelope: `totalPages` is ceil(totalRecords / limit) cast to i32, which
      saturates at the i32 maximum. */
  function PaginationOf(st: PageSettings, total: nat): (p: Pagination)
    requires st.limit > 0
    ensures p.currentPage == st.page && p.limit == st.limit && p.totalRecords == total
    ensures p.sortBy == st.sortField && (p.order == "asc" <==> st.sortOrder == 1)
    ensures 0 <= p.totalPages < 0x8000_0000
    ensures p.totalPages < 0x7fff_ffff ==>
      p.totalPages * st.limit >= total && (p.totalPages > 0 ==> (p.totalPages - 1) * st.limit < total)
  {
    Pagination(st.page, Min(TotalPages(total, st.limit), 0x7fff_ffff), total, st.limit,
      st.sortField, ReportedOrder(st.sortOrder))
  }

  /** The server refuses the page pipeline exactly when the page number is below 1 or the
      limit is not positive. */
  lemma PageRefusedIff(q: QueryParams)
    ensures (Settings(q).skip < 0 || Settings(q).limit <= 0) <==> (Settings(q).page < 1 || Settings(q).limit <= 0)
  {
    var st := Settings(q);
    if st.limit > 0 {
      if st.page >= 1 {
        MulNonNeg(st.page - 1, st.limit);
      } else {
        MulNeg(st.page - 1, st.limit);
      }
    }
  }

  lemma MulNonNeg(a: int, b: int)
    requires a >= 0 && b >= 0
    ensures a * b >= 0
  {
  }

  lemma MulNeg(a: int, b: int)
    requires a < 0 && b > 0
    ensures a * b < 0
  {
  }

  // ----- casts -----

  /** Rust's `f64 as i32`: truncation toward zero, saturating at the i32 bounds. */
  function F64ToI32(x: real): (n: int)
    ensures -0x8000_0000 <= n < 0x8000_0000
    ensures -0x8000_0000 as real <= x < 0x8000_0000 as real ==>
      (x >= 0.0 ==> n as real <= x < n as real + 1.0) && (x < 0.0 ==> n as real - 1.0 < x <= n as real)
  {
    var t := if x >= 0.0 then x.Floor else -((-x).Floor);
    if t < -0x8000_0000 then -0x8000_0000 else if t >= 0x8000_0000 then 0x7fff_ffff else t
  }

  /** Whole numbers within the i32 range survive the cast unchanged. */
  lemma F64ToI32Whole(n: int)
    requires -0x8000_0000 <= n < 0x8000_0000
    ensures F64ToI32(n as real) == n
  {
  }
}
