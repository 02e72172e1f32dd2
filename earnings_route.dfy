/**
 * GET /api/history/earnings (src/routes/earning_history_route.rs): buckets of the earnings
 * collection, paged like the paginated runepool route, each joined with the pool documents of
 * the last summary in its bucket; the meta block sums the page's values and averages two of
 * them.
 */
module EarningsRoute {
  import opened Wrappers
  import opened Queries
  import opened Aggregation
  import opened HistoryCommon
  import opened Records

  /** The per-pool entry of an interval, as reshaped from a stored pool document. */
  datatype PoolSummary = PoolSummary(
    pool: string, assetLiquidityFees: real, runeLiquidityFees: real,
    totalLiquidityFeesRune: real, saverEarning: real, rewards: real)

  /** One interval of the response; the bucket's `earnings_id` is dropped after the join. */
  datatype EarningsInterval = EarningsInterval(
    startTime: int, endTime: int, values: EarningsValues, pools: seq<PoolSummary>)

  /** The meta block: the six value fields summed over the page (two of them then averaged),
      startTime of the first interval and endTime of the last. */
  datatype EarningsMeta = EarningsMeta(startTime: int, endTime: int, totals: EarningsValues)

  const NotFoundMessage: string := "No earnings history found"
  const FetchFailedMessage: string := "Failed to fetch earnings history"

  // ----- the pools join -----

  function SummaryOf(p: PoolEarnings): PoolSummary {
    PoolSummary(p.pool, p.assetLiquidityFees, p.runeLiquidityFees, p.totalLiquidityFeesRune,
      p.saverEarning, p.rewards)
  }

  /** `find({earnings_summary_id: id})` over the pools collection, in storage order, reshaped. */
  function PoolsOf(pools: seq<PoolEarnings>, id: nat): (ps: seq<PoolSummary>)
    ensures |ps| <= |pools|
  {
    if pools == [] then []
    else
      var p := pools[|pools| - 1];
      PoolsOf(pools[..|pools| - 1], id) + (if p.earningsSummaryId == id then [SummaryOf(p)] else [])
  }

  /** Every pool looked up for `id` comes from a pool document carrying that summary id. */
  lemma {:induction false} PoolsOfFrom(pools: seq<PoolEarnings>, id: nat, k: nat)
    requires k < |PoolsOf(pools, id)|
    ensures exists j :: 0 <= j < |pools| && pools[j].earningsSummaryId == id && PoolsOf(pools, id)[k] == SummaryOf(pools[j])
  {
    var n := |pools| - 1;
    var init := pools[..n];
    var rest := PoolsOf(init, id);
    assert PoolsOf(pools, id) == rest + (if pools[n].earningsSummaryId == id then [SummaryOf(pools[n])] else []);
    if k < |rest| {
      PoolsOfFrom(init, id, k);
      var j :| 0 <= j < |init| && init[j].earningsSummaryId == id && rest[k] == SummaryOf(init[j]);
      assert init[j] == pools[j];
      assert PoolsOf(pools, id)[k] == rest[k];
    } else {
      assert PoolsOf(pools, id)[k] == SummaryOf(pools[n]);
    }
  }

  /** Every pool document carrying summary id `id` is looked up for it. */
  lemma {:induction false} PoolsOfHas(pools: seq<PoolEarnings>, id: nat, j: nat)
    requires j < |pools| && pools[j].earningsSummaryId == id
    ensures SummaryOf(pools[j]) in PoolsOf(pools, id)
  {
    var n := |pools| - 1;
    var init := pools[..n];
    var rest := PoolsOf(init, id);
    assert PoolsOf(pools, id) == rest + (if pools[n].earningsSummaryId == id then [SummaryOf(pools[n])] else []);
    if j < n {
      assert init[j] == pools[j];
      PoolsOfHas(init, id, j);
    }
  }

  /** A bucket with its pools, looked up by the `_id` of the last summary in the bucket. */
  function IntervalOf(b: Bucket<EarningsValues>, pools: seq<PoolEarnings>): EarningsInterval {
    EarningsInterval(b.startTime, b.endTime, b.values, PoolsOf(pools, b.lastId))
  }

  function Join(bs: seq<Bucket<EarningsValues>>, pools: seq<PoolEarnings>): (out: seq<EarningsInterval>)
    ensures |out| == |bs|
    ensures forall i :: 0 <= i < |bs| ==> out[i] == IntervalOf(bs[i], pools)
  {
    seq(|bs|, i requires 0 <= i < |bs| => IntervalOf(bs[i], pools))
  }

  // ----- the meta block -----

  const Zero: EarningsValues := EarningsValues(0.0, 0.0, 0.0, 0.0, 0.0, 0.0)

  function Add(a: EarningsValues, b: EarningsValues): EarningsValues {
    EarningsValues(a.blockRewards + b.blockRewards, a.avgNodeCount + b.avgNodeCount,
      a.bondingEarnings + b.bondingEarnings, a.liquidityEarnings + b.liquidityEarnings,
      a.liquidityFees + b.liquidityFees, a.runePriceUSD + b.runePriceUSD)
  }

  /** The six running sums, in cursor order. */
  function SumValues(bs: seq<Bucket<EarningsValues>>): EarningsValues {
    if bs == [] then Zero else Add(SumValues(bs[..|bs| - 1]), bs[|bs| - 1].values)
  }

  /** Summing a concatenation sums the parts, so the sums do not depend on how the page is split. */
  lemma {:induction false} SumAppend(a: seq<Bucket<EarningsValues>>, b: seq<Bucket<EarningsValues>>)
    ensures SumValues(a + b) == Add(SumValues(a), SumValues(b))
  {
    if b == [] {
      assert a + b == a;
    } else {
      var b' := b[..|b| - 1];
      assert (a + b)[..|a + b| - 1] == a + b';
      SumAppend(a, b');
    }
  }

  /** When more than one interval was read, avgNodeCount and runePriceUSD are divided by the
      number of intervals; the other four stay sums. */
  function Averaged(sums: EarningsValues, count: nat): EarningsValues {
    if count > 1 then
      sums.(avgNodeCount := sums.avgNodeCount / count as real,
            runePriceUSD := sums.runePriceUSD / count as real)
    else sums
  }

  /** On a non-empty page, the two averaged fields are the mean over the page whether or not
      the page holds more than one interval. */
  lemma AveragedIsMean(sums: EarningsValues, count: nat)
    requires count >= 1
    ensures Averaged(sums, count).avgNodeCount == sums.avgNodeCount / count as real
    ensures Averaged(sums, count).runePriceUSD == sums.runePriceUSD / count as real
    ensures Averaged(sums, count).blockRewards == sums.blockRewards
    ensures Averaged(sums, count).bondingEarnings == sums.bondingEarnings
    ensures Averaged(sums, count).liquidityEarnings == sums.liquidityEarnings
    ensures Averaged(sums, count).liquidityFees == sums.liquidityFees
  {
  }

  function MetaOf(bs: seq<Bucket<EarningsValues>>): EarningsMeta
    requires |bs| > 0
  {
    EarningsMeta(bs[0].startTime, bs[|bs| - 1].endTime, Averaged(SumValues(bs), |bs|))
  }

  /** Two hourly intervals with 100 and 110 nodes report an average of 105. */
  lemma TwoIntervalAverage(a: Bucket<EarningsValues>, b: Bucket<EarningsValues>)
    requires a.values.avgNodeCount == 100.0 && b.values.avgNodeCount == 110.0
    ensures MetaOf([a, b]).totals.avgNodeCount == 105.0
    ensures MetaOf([a, b]).totals.blockRewards == a.values.blockRewards + b.values.blockRewards
  {
    assert [a, b][..1] == [a];
    assert [a][..0] == [];
    assert SumValues([a]) == Add(Zero, a.values);
    assert SumValues([a, b]) == Add(SumValues([a]), b.values);
    assert MetaOf([a, b]).totals.avgNodeCount == 210.0 / 2 as real;
  }

  // ----- the loop over the page -----

  /** The pools lookup of one interval: a scan of the pools collection. */
  method FindPools(pools: seq<PoolEarnings>, id: nat) returns (ps: seq<PoolSummary>)
    ensures ps == PoolsOf(pools, id)
  {
    ps := [];
    var j := 0;
    while j < |pools|
      invariant 0 <= j <= |pools|
      invariant ps == PoolsOf(pools[..j], id)
    {
      assert pools[..j + 1][..j] == pools[..j];
      if pools[j].earningsSummaryId == id {
        ps := ps + [SummaryOf(pools[j])];
      }
      j := j + 1;
    }
    assert pools[..|pools|] == pools;
  }

  /** The cursor loop: each interval adds its values to the sums, bumps the count and gets its
      pools attached. */
  method AssembleEarnings(page: seq<Bucket<EarningsValues>>, pools: seq<PoolEarnings>)
    returns (intervals: seq<EarningsInterval>, sums: EarningsValues, count: nat)
    ensures intervals == Join(page, pools)
    ensures sums == SumValues(page)
    ensures count == |page|
  {
    intervals, sums, count := [], Zero, 0;
    while count < |page|
      invariant 0 <= count <= |page|
      invariant intervals == Join(page[..count], pools)
      invariant sums == SumValues(page[..count])
    {
      var b := page[count];
      assert page[..count + 1][..count] == page[..count];
      sums := Add(sums, b.values);
      var ps := FindPools(pools, b.lastId);
      intervals := intervals + [EarningsInterval(b.startTime, b.endTime, b.values, ps)];
      count := count + 1;
    }
    assert page[..|page|] == page;
  }

  // ----- the route -----

  /**
   * The route over the earnings collection `store` and the pools collection `pools` at time
   * `now`; `valueKey` gives the sort value of a `sort_by` field other than startTime/endTime.
   * totalRecords counts the matching summary documents, not the buckets.
   */
  function EarningsHistory(q: QueryParams, now: int, store: seq<Sample<EarningsValues>>,
                           pools: seq<PoolEarnings>, valueKey: (string, EarningsValues) -> real)
    : Response<EarningsInterval, EarningsMeta>
  {
    if PairingViolated(q) then BadRequest(PairingMessage)
    else
      var st := Settings(q);
      var len := BucketLength(q);
      var w := HistoryWindow(None, q, now);
      var total := |Matching(w, store)|;
      match PagedBuckets(w, store, len, SortKey(st.sortField, valueKey), st.sortOrder == 1, st.skip, st.limit)
      case None => ServerError(FetchFailedMessage)
      case Some(bs) =>
        if bs == [] then NotFound(NotFoundMessage)
        else Success(Join(bs, pools), MetaOf(bs), Some(PaginationOf(st, total)))
  }

  method GetEarningsHistory(q: QueryParams, now: int, store: seq<Sample<EarningsValues>>,
                            pools: seq<PoolEarnings>, valueKey: (string, EarningsValues) -> real)
    returns (r: Response<EarningsInterval, EarningsMeta>)
    ensures r == EarningsHistory(q, now, store, pools, valueKey)
  {
    if PairingViolated(q) {
      return BadRequest(PairingMessage);
    }
    var st := Settings(q);
    var len := BucketLength(q);
    var w := BuildMatchStage(None, q, now);
    var total := |Matching(w, store)|;
    var page := PagedBuckets(w, store, len, SortKey(st.sortField, valueKey), st.sortOrder == 1, st.skip, st.limit);
    if page.None? {
      return ServerError(FetchFailedMessage);
    }
    var intervals, sums, count := AssembleEarnings(page.value, pools);
    if |intervals| == 0 {
      return NotFound(NotFoundMessage);
    }
    var first, last := page.value[0], page.value[|page.value| - 1];
    r := Success(intervals, EarningsMeta(first.startTime, last.endTime, Averaged(sums, count)),
      Some(PaginationOf(st, total)));
  }

  /**
   * 400 on a pairing violation; 500 "Failed to fetch earnings history" exactly when the page
   * number is below 1 or the limit is not positive; 404 "No earnings history found" exactly
   * when the page starts at or beyond the last bucket.
   */
  lemma EarningsHistoryStatus(q: QueryParams, now: int, store: seq<Sample<EarningsValues>>,
                              pools: seq<PoolEarnings>, valueKey: (string, EarningsValues) -> real)
    ensures var r := EarningsHistory(q, now, store, pools, valueKey);
      var st := Settings(q);
      var sorted := SortBuckets(Buckets(HistoryWindow(None, q, now), store, BucketLength(q)),
        SortKey(st.sortField, valueKey), st.sortOrder == 1);
      (r.BadRequest? <==> PairingViolated(q))
      && (r.ServerError? <==> !PairingViolated(q) && (st.page < 1 || st.limit <= 0))
      && (r.ServerError? ==> r.message == FetchFailedMessage)
      && (r.NotFound? <==> !PairingViolated(q) && st.page >= 1 && st.limit > 0 && st.skip >= |sorted|)
      && (r.NotFound? ==> r.message == NotFoundMessage)
  {
    var st := Settings(q);
    var len := BucketLength(q);
    var w := HistoryWindow(None, q, now);
    var key := SortKey(st.sortField, valueKey);
    var sorted := SortBuckets(Buckets(w, store, len), key, st.sortOrder == 1);
    PageRefusedIff(q);
    if !PairingViolated(q) && st.skip >= 0 && st.limit > 0 {
      var bs := Page(sorted, st.skip, st.limit);
      assert PagedBuckets(w, store, len, key, st.sortOrder == 1, st.skip, st.limit) == Some(bs);
      assert bs == [] <==> st.skip >= |sorted|;
    }
  }

  /** What a successful answer is made of. */
  function SortedBuckets(q: QueryParams, now: int, store: seq<Sample<EarningsValues>>,
                         valueKey: (string, EarningsValues) -> real): seq<Bucket<EarningsValues>> {
    SortBuckets(Buckets(HistoryWindow(None, q, now), store, BucketLength(q)),
      SortKey(Settings(q).sortField, valueKey), Settings(q).sortOrder == 1)
  }

  lemma EarningsSuccessShape(q: QueryParams, now: int, store: seq<Sample<EarningsValues>>,
                             pools: seq<PoolEarnings>, valueKey: (string, EarningsValues) -> real)
    ensures var r := EarningsHistory(q, now, store, pools, valueKey);
      var st := Settings(q);
      var w := HistoryWindow(None, q, now);
      r.Success? ==>
        st.skip >= 0 && st.limit > 0
        && var bs := Page(SortedBuckets(q, now, store, valueKey), st.skip, st.limit);
        |bs| > 0 && r.intervals == Join(bs, pools) && r.meta == MetaOf(bs)
        && r.pagination == Some(PaginationOf(st, |Matching(w, store)|))
  {
  }

  /** Interval `iv` shows bucket `b` with the pools of the bucket's last summary. */
  predicate Shows(iv: EarningsInterval, b: Bucket<EarningsValues>, pools: seq<PoolEarnings>) {
    iv.startTime == b.startTime && iv.endTime == b.endTime && iv.values == b.values
    && iv.pools == PoolsOf(pools, b.lastId)
  }

  /** The i-th interval of `out` shows the bucket at position skip + i of `sorted`, one of `all`. */
  predicate ShowsPage(out: seq<EarningsInterval>, sorted: seq<Bucket<EarningsValues>>, skip: int,
                      all: seq<Bucket<EarningsValues>>, pools: seq<PoolEarnings>) {
    skip >= 0 && skip + |out| <= |sorted|
    && forall i :: 0 <= i < |out| ==> sorted[skip + i] in all && Shows(out[i], sorted[skip + i], pools)
  }

  /** `meta` spans the intervals of `out`, averages avgNodeCount and runePriceUSD over the
      page `bs` and sums the four earnings fields over it. */
  predicate Summarises(meta: EarningsMeta, out: seq<EarningsInterval>, bs: seq<Bucket<EarningsValues>>) {
    0 < |out|
    && meta.startTime == out[0].startTime && meta.endTime == out[|out| - 1].endTime
    && meta.totals.avgNodeCount == SumValues(bs).avgNodeCount / |out| as real
    && meta.totals.runePriceUSD == SumValues(bs).runePriceUSD / |out| as real
    && meta.totals.blockRewards == SumValues(bs).blockRewards
    && meta.totals.bondingEarnings == SumValues(bs).bondingEarnings
    && meta.totals.liquidityEarnings == SumValues(bs).liquidityEarnings
    && meta.totals.liquidityFees == SumValues(bs).liquidityFees
  }

  /** The intervals and meta computed from one page taken from sorted buckets. */
  lemma JoinedPage(sorted: seq<Bucket<EarningsValues>>, all: seq<Bucket<EarningsValues>>,
                   skip: int, limit: int, pools: seq<PoolEarnings>)
    requires skip >= 0 && limit > 0
    requires multiset(sorted) == multiset(all)
    requires |Page(sorted, skip, limit)| > 0
    ensures var bs := Page(sorted, skip, limit);
      var out := Join(bs, pools);
      var meta := MetaOf(bs);
      0 < |out| <= limit
      && ShowsPage(out, sorted, skip, all, pools)
      && Summarises(meta, out, bs)
  {
    var bs := Page(sorted, skip, limit);
    forall i | 0 <= i < |bs| ensures bs[i] in all {
      assert bs[i] == sorted[skip + i];
      InPermutation(sorted, all, skip + i);
    }
    AveragedIsMean(SumValues(bs), |bs|);
  }

  /**
   * On success: at most `limit` intervals, the i-th one the bucket at position skip + i of the
   * sorted buckets with the pools of that bucket's last summary.
   */
  lemma EarningsHistoryContents(q: QueryParams, now: int, store: seq<Sample<EarningsValues>>,
                                pools: seq<PoolEarnings>, valueKey: (string, EarningsValues) -> real)
    ensures var r := EarningsHistory(q, now, store, pools, valueKey);
      var st := Settings(q);
      r.Success? ==>
        0 < |r.intervals| <= st.limit
        && ShowsPage(r.intervals, SortedBuckets(q, now, store, valueKey), st.skip,
             Buckets(HistoryWindow(None, q, now), store, BucketLength(q)), pools)
  {
    var r := EarningsHistory(q, now, store, pools, valueKey);
    if r.Success? {
      var st := Settings(q);
      var all := Buckets(HistoryWindow(None, q, now), store, BucketLength(q));
      var sorted := SortedBuckets(q, now, store, valueKey);
      EarningsSuccessShape(q, now, store, pools, valueKey);
      JoinedPage(sorted, all, st.skip, st.limit, pools);
    }
  }

  /**
   * On success the meta sums run over the whole page with avgNodeCount and runePriceUSD
   * averaged; startTime/endTime come from the first and last interval; totalRecords is the
   * number of matching summary documents.
   */
  lemma EarningsHistoryMeta(q: QueryParams, now: int, store: seq<Sample<EarningsValues>>,
                            pools: seq<PoolEarnings>, valueKey: (string, EarningsValues) -> real)
    ensures var r := EarningsHistory(q, now, store, pools, valueKey);
      var st := Settings(q);
      r.Success? ==>
        st.skip >= 0 && st.limit > 0 &&
        Summarises(r.meta, r.intervals, Page(SortedBuckets(q, now, store, valueKey), st.skip, st.limit))
        && r.pagination.Some? && r.pagination.value.totalRecords == |Matching(HistoryWindow(None, q, now), store)|
  {
    var r := EarningsHistory(q, now, store, pools, valueKey);
    if r.Success? {
      var st := Settings(q);
      var all := Buckets(HistoryWindow(None, q, now), store, BucketLength(q));
      var sorted := SortedBuckets(q, now, store, valueKey);
      EarningsSuccessShape(q, now, store, pools, valueKey);
      JoinedPage(sorted, all, st.skip, st.limit, pools);
    }
  }
}
