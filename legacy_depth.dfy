/**
 * The older depth handler (src/controllers/routes.rs): validates the query, answers the first
 * stored document when the query is empty, and otherwise lists the stored documents matching
 * the optional from/to/pool filter, cut to `count`.
 */
module LegacyDepth {
  import opened Wrappers
  import opened Queries
  import opened Aggregation
  import opened Records

  const PoolMessage: string := "Pool is required"
  const IntervalMessage: string := "Invalid interval. Must be one of: 5min, hour, day, week, month, quarter, year"
  const CountMessage: string := "Count must be between 1 and 400"

  /** 400 with a message, the single first document, or the list of documents. */
  datatype LegacyResponse =
    | Rejected(message: string)
    | Single(doc: Sample<DepthValues>)
    | Many(docs: seq<Sample<DepthValues>>)

  /** The `find` filter: each bound applies only when given. */
  predicate LegacyMatches(q: QueryParams, s: Sample<DepthValues>) {
    (q.from.Some? ==> s.startTime >= q.from.value)
    && (q.to.Some? ==> s.endTime <= q.to.value)
    && (q.pool.Some? ==> s.pool == q.pool)
  }

  /** The documents `find` returns, in storage order. */
  function Filtered(q: QueryParams, store: seq<Sample<DepthValues>>): (f: seq<Sample<DepthValues>>)
    ensures |f| <= |store|
    ensures forall i :: 0 <= i < |f| ==> f[i] in store && LegacyMatches(q, f[i])
    ensures forall i :: 0 <= i < |store| && LegacyMatches(q, store[i]) ==> store[i] in f
  {
    if store == [] then []
    else
      var init := store[..|store| - 1];
      var s := store[|store| - 1];
      assert forall i :: 0 <= i < |init| ==> init[i] == store[i];
      Filtered(q, init) + (if LegacyMatches(q, s) then [s] else [])
  }

  /** The store indices of the documents `find` returns, in increasing order: every index of
      a matching document, and no other. */
  ghost function FilteredIndices(q: QueryParams, store: seq<Sample<DepthValues>>): (ix: seq<nat>)
    ensures forall a, b :: 0 <= a < b < |ix| ==> ix[a] < ix[b]
    ensures forall a :: 0 <= a < |ix| ==> ix[a] < |store| && LegacyMatches(q, store[ix[a]])
    ensures forall j :: 0 <= j < |store| && LegacyMatches(q, store[j]) ==> j in ix
  {
    if store == [] then []
    else
      var init := store[..|store| - 1];
      assert forall i :: 0 <= i < |init| ==> init[i] == store[i];
      FilteredIndices(q, init) + (if LegacyMatches(q, store[|store| - 1]) then [|store| - 1] else [])
  }

  /** `find` keeps storage order: it lists the store at the increasing indices of the
      matching documents. */
  lemma {:induction false} FilteredInStoreOrder(q: QueryParams, store: seq<Sample<DepthValues>>)
    ensures |Filtered(q, store)| == |FilteredIndices(q, store)|
    ensures forall a :: 0 <= a < |Filtered(q, store)| ==> Filtered(q, store)[a] == store[FilteredIndices(q, store)[a]]
  {
    if store != [] {
      var init := store[..|store| - 1];
      FilteredInStoreOrder(q, init);
      var f, ix := Filtered(q, init), FilteredIndices(q, init);
      forall a | 0 <= a < |f| ensures Filtered(q, store)[a] == store[FilteredIndices(q, store)[a]] {
        assert Filtered(q, store)[a] == f[a] && FilteredIndices(q, store)[a] == ix[a];
        assert store[ix[a]] == init[ix[a]];
      }
    }
  }

  /** No parameter at all is given. */
  predicate EmptyQuery(q: QueryParams) {
    q.interval.None? && q.count.None? && q.from.None? && q.to.None? && q.pool.None?
  }

  function Truncate<T>(s: seq<T>, count: Option<I32>): seq<T> {
    if count.Some? && 0 <= count.value < |s| then s[..count.value] else s
  }

  function LegacyDepthHistory(q: QueryParams, store: seq<Sample<DepthValues>>): LegacyResponse {
    if q.pool == Some("BTC.BTC") then Rejected(PoolMessage)
    else if q.interval.Some? && !ValidInterval(q.interval.value) then Rejected(IntervalMessage)
    else if q.count.Some? && !ValidCount(q.count.value) then Rejected(CountMessage)
    else if EmptyQuery(q) && |store| > 0 then Single(store[0])
    else Many(Truncate(Filtered(q, store), q.count))
  }

  method GetLegacyDepthHistory(q: QueryParams, store: seq<Sample<DepthValues>>) returns (r: LegacyResponse)
    ensures r == LegacyDepthHistory(q, store)
  {
    if q.pool == Some("BTC.BTC") {
      return Rejected(PoolMessage);
    }
    if q.interval.Some? && !ValidInterval(q.interval.value) {
      return Rejected(IntervalMessage);
    }
    if q.count.Some? && !ValidCount(q.count.value) {
      return Rejected(CountMessage);
    }
    if EmptyQuery(q) && |store| > 0 {
      return Single(store[0]);
    }
    var results := [];
    var i := 0;
    while i < |store|
      invariant 0 <= i <= |store|
      invariant results == Filtered(q, store[..i])
    {
      assert store[..i + 1][..i] == store[..i];
      if LegacyMatches(q, store[i]) {
        results := results + [store[i]];
      }
      i := i + 1;
    }
    assert store[..|store|] == store;
    if q.count.Some? && q.count.value < |results| {
      results := results[..q.count.value];
    }
    r := Many(results);
  }

  /**
   * The checks run in order and the first failing one answers: pool "BTC.BTC" is refused
   * before the interval is looked at, and an invalid interval before the count; a request
   * passes exactly when none of the three applies.
   */
  lemma LegacyGuards(q: QueryParams, store: seq<Sample<DepthValues>>)
    ensures var r := LegacyDepthHistory(q, store);
      (r.Rejected? <==> q.pool == Some("BTC.BTC")
                        || (q.interval.Some? && !ValidInterval(q.interval.value))
                        || (q.count.Some? && !(1 <= q.count.value <= 400)))
      && (q.pool == Some("BTC.BTC") ==> r == Rejected(PoolMessage))
      && (q.pool != Some("BTC.BTC") && q.interval.Some? && !ValidInterval(q.interval.value) ==>
            r == Rejected(IntervalMessage))
  {
    if q.count.Some? {
      ValidCountRange(q.count.value);
    }
  }

  /** The single-document answer is given exactly for an empty query over a non-empty store,
      and it is the first stored document. */
  lemma LegacySingleIff(q: QueryParams, store: seq<Sample<DepthValues>>)
    ensures var r := LegacyDepthHistory(q, store);
      (r.Single? <==> EmptyQuery(q) && |store| > 0)
      && (r.Single? ==> r.doc == store[0])
  {
  }

  /**
   * The list answer holds only matching documents, in storage order, at most `count` of them;
   * without a count, or with more matches than the count allows, it is exactly the first
   * min(count, matches) matches.
   */
  lemma LegacyListSpec(q: QueryParams, store: seq<Sample<DepthValues>>)
    ensures var r := LegacyDepthHistory(q, store);
      var f := Filtered(q, store);
      r.Many? ==>
        (forall i :: 0 <= i < |r.docs| ==> r.docs[i] in store && LegacyMatches(q, r.docs[i]))
        && (q.count.Some? ==> |r.docs| <= q.count.value)
        && |r.docs| == (if q.count.Some? && q.count.value < |f| then q.count.value else |f|)
        && r.docs == f[..|r.docs|]
        && (q.count.None? ==> forall i :: 0 <= i < |store| && LegacyMatches(q, store[i]) ==> store[i] in r.docs)
  {
    var r := LegacyDepthHistory(q, store);
    if r.Many? {
      var f := Filtered(q, store);
      assert r.docs == Truncate(f, q.count);
      if q.count.Some? && 0 <= q.count.value < |f| {
        forall i | 0 <= i < |r.docs| ensures r.docs[i] in store && LegacyMatches(q, r.docs[i]) {
          assert r.docs[i] == f[i];
        }
        ValidCountRange(q.count.value);
      } else {
        assert f[..|f|] == f;
      }
    }
  }
}
