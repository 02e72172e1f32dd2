/**
 * GET /api/history/runepool, paginated version (bankai.rs): a `$count` pipeline over the
 * buckets, then the bucket pipeline with `$sort` on a chosen field, `$skip` and `$limit`;
 * the paging envelope sits inside the meta block.
 */
module BankaiRoute {
  import opened Wrappers
  import opened Queries
  import opened Aggregation
  import opened HistoryCommon
  import opened Records
  import RunePoolRoute

  // ----- the `$count` reply -----

  /** What `$count: "total"` answers: no document when there is no bucket, otherwise one
      document whose `total` is stored as a 32-bit integer when it fits and as a 64-bit one
      otherwise. */
  datatype CountReply = NoDocument | Int32Total(n: nat) | Int64Total(n: nat)

  function CountReplyOf(buckets: nat): (c: CountReply)
    ensures buckets == 0 <==> c.NoDocument?
    ensures c.Int32Total? <==> 0 < buckets < 0x8000_0000
  {
    if buckets == 0 then NoDocument
    else if buckets < 0x8000_0000 then Int32Total(buckets)
    else Int64Total(buckets)
  }

  /** `get_i64("total").unwrap_or(0)` as written: only a 64-bit `total` is read; a 32-bit one
      is a type mismatch and falls back to 0. */
  function TotalAsWritten(c: CountReply): nat {
    match c
    case NoDocument => 0
    case Int32Total(_) => 0
    case Int64Total(n) => n
  }

  /** Reading `total` whatever its integer width. */
  function Total(c: CountReply): nat {
    match c
    case NoDocument => 0
    case Int32Total(n) => n
    case Int64Total(n) => n
  }

  /** As written, every store with between 1 and 2^31 - 1 buckets reports totalRecords 0 and
      totalPages 0; the corrected reading reports the number of buckets. */
  lemma TotalAsWrittenLosesSmallCounts(buckets: nat)
    requires 0 < buckets < 0x8000_0000
    ensures TotalAsWritten(CountReplyOf(buckets)) == 0
    ensures Total(CountReplyOf(buckets)) == buckets
  {
  }

  /** The corrected reading is the bucket count for every store. */
  lemma TotalIsBucketCount(buckets: nat)
    ensures Total(CountReplyOf(buckets)) == buckets
  {
  }

  // ----- the route -----

  const FetchFailedMessage: string := "Failed to fetch runepool history"

  /** The meta block: the limited route's start/end fields plus the paging envelope. */
  datatype PagedMeta = PagedMeta(summary: RunePoolRoute.RunePoolMeta, pagination: Pagination)

  /** The reply of the count pipeline for the route's window. */
  function CountOf(q: QueryParams, now: int, store: seq<Sample<RunePoolValues>>): CountReply {
    CountReplyOf(|Buckets(HistoryWindow(None, q, now), store, BucketLength(q))|)
  }

  /**
   * The route over the runepool collection `store` at time `now`, reporting `total` as
   * totalRecords; `valueKey` gives the sort value of a bucket's `sort_by` field other than
   * startTime and endTime.
   */
  function PagedRunePoolHistoryWith(q: QueryParams, now: int, store: seq<Sample<RunePoolValues>>,
                                    valueKey: (string, RunePoolValues) -> real, total: nat)
    : Response<Bucket<RunePoolValues>, PagedMeta>
  {
    if PairingViolated(q) then BadRequest(PairingMessage)
    else
      var len := BucketLength(q);
      var w := HistoryWindow(None, q, now);
      var st := Settings(q);
      match PagedBuckets(w, store, len, SortKey(st.sortField, valueKey), st.sortOrder == 1, st.skip, st.limit)
      case None => ServerError(FetchFailedMessage)
      case Some(bs) =>
        if bs == [] then NotFound(RunePoolRoute.NotFoundMessage)
        else
          Success(bs, PagedMeta(RunePoolRoute.MetaOf(bs[0], bs[|bs| - 1]), PaginationOf(st, total)), None)
  }

  /** The route as written: totalRecords is the `$count` reply read with `get_i64`. */
  function PagedRunePoolHistory(q: QueryParams, now: int, store: seq<Sample<RunePoolValues>>,
                                valueKey: (string, RunePoolValues) -> real)
    : Response<Bucket<RunePoolValues>, PagedMeta>
  {
    PagedRunePoolHistoryWith(q, now, store, valueKey, TotalAsWritten(CountOf(q, now, store)))
  }

  /** The route with the count read whatever its integer width. */
  function CorrectedPagedRunePoolHistory(q: QueryParams, now: int, store: seq<Sample<RunePoolValues>>,
                                         valueKey: (string, RunePoolValues) -> real)
    : Response<Bucket<RunePoolValues>, PagedMeta>
  {
    PagedRunePoolHistoryWith(q, now, store, valueKey, Total(CountOf(q, now, store)))
  }

  method GetPagedRunePoolHistory(q: QueryParams, now: int, store: seq<Sample<RunePoolValues>>,
                                 valueKey: (string, RunePoolValues) -> real)
    returns (r: Response<Bucket<RunePoolValues>, PagedMeta>)
    ensures r == PagedRunePoolHistory(q, now, store, valueKey)
  {
    if PairingViolated(q) {
      return BadRequest(PairingMessage);
    }
    var len := BucketLength(q);
    var w := BuildMatchStage(None, q, now);
    var total := TotalAsWritten(CountReplyOf(|Buckets(w, store, len)|));
    var st := Settings(q);
    var page := PagedBuckets(w, store, len, SortKey(st.sortField, valueKey), st.sortOrder == 1, st.skip, st.limit);
    if page.None? {
      return ServerError(FetchFailedMessage);
    }
    var intervals := Drain(page.value);
    if |intervals| == 0 {
      return NotFound(RunePoolRoute.NotFoundMessage);
    }
    var first, last := intervals[0], intervals[|intervals| - 1];
    r := Success(intervals, PagedMeta(RunePoolRoute.MetaOf(first, last), PaginationOf(st, total)), None);
  }

  /**
   * 400 on a pairing violation; 500 "Failed to fetch runepool history" exactly when the page
   * number is below 1 or the limit is not positive; 404 exactly when the page starts at or
   * beyond the last bucket, even if earlier pages hold buckets. None of this depends on the
   * reported total.
   */
  lemma PagedRunePoolHistorySpec(q: QueryParams, now: int, store: seq<Sample<RunePoolValues>>,
                                 valueKey: (string, RunePoolValues) -> real)
    ensures var r := PagedRunePoolHistory(q, now, store, valueKey);
      var st := Settings(q);
      var sorted := SortBuckets(Buckets(HistoryWindow(None, q, now), store, BucketLength(q)),
        SortKey(st.sortField, valueKey), st.sortOrder == 1);
      (r.BadRequest? <==> PairingViolated(q))
      && (r.ServerError? <==> !PairingViolated(q) && (st.page < 1 || st.limit <= 0))
      && (r.ServerError? ==> r.message == FetchFailedMessage)
      && (r.NotFound? <==> !PairingViolated(q) && st.page >= 1 && st.limit > 0 && st.skip >= |sorted|)
  {
    var st := Settings(q);
    var len := BucketLength(q);
    var w := HistoryWindow(None, q, now);
    var key := SortKey(st.sortField, valueKey);
    var all := Buckets(w, store, len);
    var sorted := SortBuckets(all, key, st.sortOrder == 1);
    PageRefusedIff(q);
    if !PairingViolated(q) && st.skip >= 0 && st.limit > 0 {
      var bs := Page(sorted, st.skip, st.limit);
      assert PagedBuckets(w, store, len, key, st.sortOrder == 1, st.skip, st.limit) == Some(bs);
      assert bs == [] <==> st.skip >= |sorted|;
    }
  }

  /** Whatever total it reports, a successful answer is a page of the sorted buckets with the
      summary of its first and last bucket. */
  lemma PagedWithIsPage(q: QueryParams, now: int, store: seq<Sample<RunePoolValues>>,
                        valueKey: (string, RunePoolValues) -> real, total: nat)
    ensures var r := PagedRunePoolHistoryWith(q, now, store, valueKey, total);
      var st := Settings(q);
      var all := Buckets(HistoryWindow(None, q, now), store, BucketLength(q));
      r.Success? ==>
        st.skip >= 0 && st.limit > 0 && |all| > 0
        && r.intervals == Page(SortBuckets(all, SortKey(st.sortField, valueKey), st.sortOrder == 1), st.skip, st.limit)
        && r.meta.pagination == PaginationOf(st, total)
        && r.meta.summary == RunePoolRoute.MetaOf(r.intervals[0], r.intervals[|r.intervals| - 1])
  {
    var r := PagedRunePoolHistoryWith(q, now, store, valueKey, total);
    if r.Success? {
      var st := Settings(q);
      var all := Buckets(HistoryWindow(None, q, now), store, BucketLength(q));
      var sorted := SortBuckets(all, SortKey(st.sortField, valueKey), st.sortOrder == 1);
      assert r.intervals == Page(sorted, st.skip, st.limit);
      assert r.intervals[0] in sorted;
      assert multiset(sorted) == multiset(all);
      assert r.intervals[0] in multiset(all);
    }
  }

  /** The total only reaches the envelope: the status, the intervals and the summary are the
      same whatever total is reported. */
  lemma TotalOnlyInEnvelope(q: QueryParams, now: int, store: seq<Sample<RunePoolValues>>,
                            valueKey: (string, RunePoolValues) -> real, t1: nat, t2: nat)
    ensures var r1 := PagedRunePoolHistoryWith(q, now, store, valueKey, t1);
      var r2 := PagedRunePoolHistoryWith(q, now, store, valueKey, t2);
      (r1.Success? <==> r2.Success?)
      && (!r1.Success? ==> r1 == r2)
      && (r1.Success? ==> r1.intervals == r2.intervals && r1.meta.summary == r2.meta.summary
                          && r1.meta.pagination.totalRecords == t1 && r2.meta.pagination.totalRecords == t2)
  {
  }

  /** A page of the route as written: the intervals are the slice of the sorted buckets, and
      the envelope is built from the settings and the total `get_i64` reads. */
  lemma PagedIntervalsArePage(q: QueryParams, now: int, store: seq<Sample<RunePoolValues>>,
                              valueKey: (string, RunePoolValues) -> real)
    ensures var r := PagedRunePoolHistory(q, now, store, valueKey);
      var st := Settings(q);
      var all := Buckets(HistoryWindow(None, q, now), store, BucketLength(q));
      r.Success? ==>
        st.skip >= 0 && st.limit > 0
        && r.intervals == Page(SortBuckets(all, SortKey(st.sortField, valueKey), st.sortOrder == 1), st.skip, st.limit)
        && r.meta.pagination == PaginationOf(st, TotalAsWritten(CountReplyOf(|all|)))
        && r.meta.summary == RunePoolRoute.MetaOf(r.intervals[0], r.intervals[|r.intervals| - 1])
  {
    PagedWithIsPage(q, now, store, valueKey, TotalAsWritten(CountOf(q, now, store)));
  }

  /**
   * On success the page is the slice [skip, skip + limit) of the buckets sorted by the chosen
   * field and order, and each interval is a bucket of the window, backed by the last matching
   * sample with its bucket key.
   */
  lemma PagedRunePoolContents(q: QueryParams, now: int, store: seq<Sample<RunePoolValues>>,
                              valueKey: (string, RunePoolValues) -> real)
    ensures var r := PagedRunePoolHistory(q, now, store, valueKey);
      var st := Settings(q);
      var w := HistoryWindow(None, q, now);
      var key := SortKey(st.sortField, valueKey);
      var sorted := SortBuckets(Buckets(w, store, BucketLength(q)), key, st.sortOrder == 1);
      r.Success? ==>
        0 < |r.intervals| <= st.limit
        && SliceOf(r.intervals, sorted, st.skip)
        && (forall b :: b in r.intervals ==> exists s :: BucketOf(w, store, BucketLength(q), b, s))
        && SortedBy(r.intervals, key, st.sortOrder == 1)
  {
    var r := PagedRunePoolHistory(q, now, store, valueKey);
    if r.Success? {
      var st := Settings(q);
      var len := BucketLength(q);
      var w := HistoryWindow(None, q, now);
      var key := SortKey(st.sortField, valueKey);
      PagedIntervalsArePage(q, now, store, valueKey);
      PagedBucketsSpec(w, store, len, key, st.sortOrder == 1, st.skip, st.limit);
      assert PagedBuckets(w, store, len, key, st.sortOrder == 1, st.skip, st.limit) == Some(r.intervals);
      PageHasSources(w, store, len, key, st.sortOrder == 1, st.skip, st.limit, r.intervals);
      var sorted := SortBuckets(Buckets(w, store, len), key, st.sortOrder == 1);
      assert SliceOf(r.intervals, sorted, st.skip);
    }
  }

  /**
   * On success the envelope of the route as written reports the total `get_i64` reads, which
   * is 0, with 0 pages, whenever the buckets number fewer than 2^31; the page number, the
   * limit and the order are the settings, and the summary takes start values from the first
   * interval and end values from the last.
   */
  lemma PagedRunePoolEnvelope(q: QueryParams, now: int, store: seq<Sample<RunePoolValues>>,
                              valueKey: (string, RunePoolValues) -> real)
    ensures var r := PagedRunePoolHistory(q, now, store, valueKey);
      var st := Settings(q);
      var n := |Buckets(HistoryWindow(None, q, now), store, BucketLength(q))|;
      r.Success? ==>
        0 < |r.intervals|
        && r.meta.pagination.totalRecords == TotalAsWritten(CountReplyOf(n))
        && (n < 0x8000_0000 ==> r.meta.pagination.totalRecords == 0 && r.meta.pagination.totalPages == 0)
        && r.meta.pagination.currentPage == st.page
        && r.meta.pagination.limit == st.limit
        && (r.meta.pagination.order == "asc" <==> q.order != Some("desc"))
        && r.meta.summary.startTime == r.intervals[0].startTime
        && r.meta.summary.endTime == r.intervals[|r.intervals| - 1].endTime
        && r.meta.summary.startCount == r.intervals[0].values.count
        && r.meta.summary.endCount == r.intervals[|r.intervals| - 1].values.count
  {
    var n := |Buckets(HistoryWindow(None, q, now), store, BucketLength(q))|;
    var total := TotalAsWritten(CountOf(q, now, store));
    var r := PagedRunePoolHistory(q, now, store, valueKey);
    PagedWithIsPage(q, now, store, valueKey, total);
    SettingsSpec(q);
    if r.Success? {
      var p := r.meta.pagination;
      assert p == PaginationOf(Settings(q), total);
      if n < 0x8000_0000 {
        TotalAsWrittenLosesSmallCounts(n);
        assert total == 0;
        assert p.totalPages == 0;
      }
    }
  }

  /** The corrected route answers exactly what the route as written answers, except that its
      envelope reports the number of buckets and the matching page count. */
  lemma CorrectedPagedRunePoolEnvelope(q: QueryParams, now: int, store: seq<Sample<RunePoolValues>>,
                                       valueKey: (string, RunePoolValues) -> real)
    ensures var r := PagedRunePoolHistory(q, now, store, valueKey);
      var c := CorrectedPagedRunePoolHistory(q, now, store, valueKey);
      var st := Settings(q);
      var n := |Buckets(HistoryWindow(None, q, now), store, BucketLength(q))|;
      (c.Success? <==> r.Success?)
      && (!c.Success? ==> c == r)
      && (c.Success? ==>
            c.intervals == r.intervals && c.meta.summary == r.meta.summary
            && c.meta.pagination == PaginationOf(st, n)
            && c.meta.pagination.totalRecords == n)
  {
    var n := |Buckets(HistoryWindow(None, q, now), store, BucketLength(q))|;
    TotalIsBucketCount(n);
    TotalOnlyInEnvelope(q, now, store, valueKey, Total(CountOf(q, now, store)), TotalAsWritten(CountOf(q, now, store)));
    PagedWithIsPage(q, now, store, valueKey, n);
  }
}
