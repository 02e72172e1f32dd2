# Midgard history mirror, modelled in Dafny

The system mirrors the Midgard history API of THORChain into MongoDB and
serves it back over HTTP.

- **Fetchers** walk the upstream API page by page. Each page's `meta.end_time`
  becomes the next request's `from`, and every record of a page is converted
  and inserted into its collection. There are four fetchers: earnings (with
  per-pool child documents), RUNEPool members/units, depth/price, and swaps.
- **A scheduler** runs the four fetchers on every hourly tick, all from one
  shared watermark.
- **History routes** answer queries with a MongoDB aggregation: match a time
  window, group records into interval buckets keyed on their end time, keep
  the last record of each bucket, project the bucket's start and end,
  sort, then skip and limit or page. A route answers 404 when the result is
  empty and otherwise returns a meta block computed from the first and last
  bucket (or from sums and averages).
- **Validation** comes from an interval table, the `interval`/`count`
  validators and a query-checking middleware.

The model is sequential. The network, the clock, the database's answers to
inserts and float parsing are oracle parameters. A collection is a class
whose document sequence only grows. Each aggregation stage is a pure
function over the stored records, kept in storage order.

One Dafny module models each source component:

- `Utils` and `Queries`: the interval table and the validators.
- `Middleware`: the query check.
- `Text`: trimming and `i64` parsing.
- `Bucketing`: the group key and bucket bounds.
- `Aggregation`: the query engine that match, group, project, sort, skip/limit and the cursor drain share.
- `HistoryCommon`: what the routes share, namely the window, the pairing rule, limited and paginated result sets, the pagination envelope and the i32 cast.
- `DepthRoute`, `SwapsRoute`, `RunePoolRoute`, `BankaiRoute`, `EarningsRoute` and `LegacyDepth`: one per route.
- `Records` and `Conversions`: the stored records and the `TryFrom` conversions.
- `Store`: a collection and `store_to_db`.
- `Walker`: the cursor loop every fetcher shares.
- `Fetchers`: the three fetchers that use the shared walker.
- `EarningsIngest`: the earnings fetcher, with its parent-then-children store.
- `IntervalDecoding`: the JSON keys serde reads an upstream earnings interval under.
- `Scheduler`: the hourly task.

Modelling decisions that follow the code rather than its documentation:

- **Bucket start.** The group key is `(end_time + 1) - ((end_time - 1) mod L)` and the start is `key - key mod L`. Here `mod` is MongoDB's `$mod`, a remainder truncated toward zero, modelled as `Bucketing.TruncMod`.
- **Bucket bounds.** For `end_time >= 1` the start is `((end_time - 1) / L) * L`, and `start < end_time <= start + L`.
- **Earnings `totalRecords`.** The earnings route counts raw matching documents, not buckets (src/routes/earning_history_route.rs:58-64), and the model follows it.
- **Legacy "Pool is required".** The legacy depth route answers this message when the pool *is* "BTC.BTC" (src/controllers/routes.rs:17-21), and the model keeps that guard as written.
- **Swaps fields.** The swaps group stage keeps 36 fields, including `runePriceUSD`, and the swaps meta copies every one of them from the first bucket.
- **Swaps pool argument.** The scheduler calls `fetch_swaps_history` without a pool, while the function takes one (revision mismatch). The model takes a pool and never uses it, and the swaps URL does not contain it.
- **Refused stages.** MongoDB refuses `$limit <= 0` and `$skip < 0`. Those reach the routes' "failed to fetch" error branch, so a non-positive `count`, `page` or `limit` gives a `ServerError`.
- **Walks that run out.** A walk whose page oracle runs out reports `OutOfFuel`. The scheduler counts that as not succeeded.

## Model

| member | source | states |
|---|---|---|
| Utils.SecondsPerInterval | src/utils/mod.rs:8-19 | every interval length is at least 300 and a multiple of 300; a name outside the table gets 3600 |
| Utils.SecondsPerIntervalMatchesTable | src/utils/mod.rs:8-19 | the length is the table entry for the seven names 5min…year (300 … 31536000) and 3600 for any other string |
| Utils.UnknownIntervalIsHour | src/utils/mod.rs:18 | an unknown name, and the empty string, get the same length as "hour", 3600 |
| Utils.IntervalRatios | src/utils/mod.rs:10-17 | hour = 12·5min, day = 24·hour, week = 7·day, month = 30·day, quarter = 3·month = 90·day, year = 365·day |
| Queries.ValidIntervalIsTableKey | src/routes/queries.rs:13-15 | `validate_interval` accepts exactly the table's seven names, and each accepted name has its own table entry |
| Middleware.ValidateQueryParams | src/middleware/middleware.rs:6-28 | an unparsable query passes the request through unchanged; an error happens iff a present interval or count is invalid; success returns the request itself |
| Middleware.IntervalCheckedBeforeCount | src/middleware/middleware.rs:11-21 | an invalid interval gives the interval message even when the count is invalid too; otherwise an invalid count gives the count message |
| Middleware.AbsentOrValidFieldsPass | src/middleware/middleware.rs:11-22 | absent or valid fields are never rejected |
| Text.Trim | src/models/earnings_history.rs:37-44 | the trimmed string is an infix of the input with only whitespace outside it, and it neither starts nor ends with whitespace |
| Text.TrimIsInfix | src/models/earnings_history.rs:37-44 | removing leading whitespace and then trailing whitespace leaves the infix between them, with only whitespace on either side of it |
| Text.TrimFixesTrimmed | src/models/earnings_history.rs:37-44 | a string without outer whitespace is its own trim |
| Text.TrimIdempotent | src/models/earnings_history.rs:37-44 | trimming twice is trimming once |
| Text.ParseI64 | src/models/earnings_history.rs:37-38 | a parsed value is within the i64 range, and parsing succeeds only on a string that starts with a digit or a sign |
| Text.ParseShowRoundTrip | src/models/earnings_history.rs:37-38 | parsing the decimal text of any i64 gives it back |
| Text.ParseI64Rejects | src/models/earnings_history.rs:37-38 | the empty string, a lone sign and untrimmed digits do not parse; signed numbers do |
| Text.TrimShowInt | src/models/earnings_history.rs:37-38 | the decimal text of an integer has nothing to trim |
| Bucketing.TruncMod | src/routes/depth_history_routes.rs:42-45 | `$mod` is a truncated remainder: in [0, L) for a non-negative dividend and in (−L, 0] for a negative one |
| Bucketing.GroupKeyClosedForm | src/routes/depth_history_routes.rs:39-47 | for end_time ≥ 1 the group key is ⌊(end_time−1)/L⌋·L + 2 |
| Bucketing.GroupKeyShape | src/routes/depth_history_routes.rs:39-47 | every group key, for any end_time, is 2 more than a multiple of L |
| Bucketing.BucketOfSample | src/routes/depth_history_routes.rs:36-71 | for end_time ≥ 1 and L > 2 the projected start is ⌊(end_time−1)/L⌋·L, a multiple of L; end = start + L; start < end_time ≤ end |
| Bucketing.SameKeyIffSameStart | src/routes/depth_history_routes.rs:36-71 | two samples with end_time ≥ 1 share a key iff they share a start iff ⌊(e−1)/L⌋ agrees |
| Bucketing.HourlyScenarioKeys | src/routes/depth_history_routes.rs:39-47 | with hourly buckets, end times 3599 and 3600 get the same key |
| Bucketing.HourlyScenarioFirstBucket | src/routes/depth_history_routes.rs:61-71 | that bucket spans [0, 3600) |
| Bucketing.HourlyScenarioSecondBucket | src/routes/depth_history_routes.rs:36-71 | end time 7199 falls in the bucket [3600, 7200) |
| Bucketing.NonPositiveEndTimesShareStartZero | src/routes/depth_history_routes.rs:36-71 | the truncated remainder makes end time −3599 and end time 1 both project to start 0 |
| Aggregation.Matching | src/routes/depth_history_routes.rs:20-35 | the `$match` stage: exactly the stored records inside the window, none added |
| Aggregation.MatchIndices | src/routes/depth_history_routes.rs:20-35 | the store indices `$match` lets through increase, all are in-window records, and none is missing |
| Aggregation.MatchingInStoreOrder | src/routes/depth_history_routes.rs:20-35 | `$match` keeps storage order: its output is the store read at those increasing indices |
| Aggregation.MatchingEmptyIff | src/routes/depth_history_routes.rs:20-35 | nothing matches iff no stored record is in the window |
| Aggregation.KeysOf | src/routes/depth_history_routes.rs:36-60 | the group keys are distinct, each is the key of some record, and every record's key is among them |
| Aggregation.LastWithKeyIsLast | src/routes/depth_history_routes.rs:49-58 | `$last` of a key exists iff some record has that key, and it is the record with that key that no later record with the same key follows |
| Aggregation.LastWithKeyOfMatching | src/routes/depth_history_routes.rs:20-58 | the `$last` record of key k among the matching records is the store's in-window record with key k at the largest index; there is none iff no in-window record has key k |
| Aggregation.LastWithKeyOfMatchingNone | src/routes/depth_history_routes.rs:20-58 | the `$last` record of key k is missing iff no in-window record has key k |
| Aggregation.LastWithKeyOfMatchingAt | src/routes/depth_history_routes.rs:20-58 | the in-window record with key k at the largest store index is the `$last` record of k |
| Aggregation.GroupAllCorrect | src/routes/depth_history_routes.rs:36-60 | the `$group` stage makes one group per key, in order of first occurrence, holding the `$last` record of its key |
| Aggregation.ProjectAll | src/routes/depth_history_routes.rs:61-82 | `$project` maps each group to its bucket, one for one |
| Aggregation.BucketsSpec | src/routes/depth_history_routes.rs:34-82 | match+group+project: one bucket per key of the matching records, carrying the values and id of the last matching record with that key, start = key − key mod L, end = start + L, and the record's end time inside the bucket |
| Aggregation.BucketsCoverMatching | src/routes/depth_history_routes.rs:34-82 | the key of every matching record has a bucket |
| Aggregation.BucketsDistinctStarts | src/routes/depth_history_routes.rs:61-71 | when all end times are ≥ 1 no two buckets share a start time |
| Aggregation.BucketsEmptyIff | src/routes/depth_history_routes.rs:100-105 | there are no buckets iff no record matches |
| Aggregation.SortBuckets | bankai.rs:125 | `$sort` returns a permutation of its input, ordered by the key in the requested direction |
| Aggregation.SortedStrictly | src/routes/depth_history_routes.rs:83 | buckets with distinct starts sorted by start are strictly ascending (or strictly descending) |
| Aggregation.SortKeepsDistinctStarts | src/routes/depth_history_routes.rs:83 | sorting keeps the start times distinct |
| Aggregation.Page | bankai.rs:126-127 | `$skip` then `$limit`: min(limit, n − skip) elements (none when skip ≥ n), element i being input element skip + i |
| Aggregation.CeilDiv | bankai.rs:165 | ⌈a / b⌉: the least r with r·b ≥ a |
| Aggregation.PagesArePrefix | bankai.rs:79-81 | pages 1…n laid end to end are the first n·limit elements of the sorted sequence |
| Aggregation.PagesCoverAll | bankai.rs:165 | pages 1…⌈n/limit⌉ together are the whole sorted sequence |
| Aggregation.PageBeyondEndIsEmpty | bankai.rs:126-127 | a page past ⌈n/limit⌉ is empty |
| Aggregation.Drain | src/routes/depth_history_routes.rs:92-98 | the cursor loop pushes every document the cursor yields, in order |
| HistoryCommon.BucketLength | src/routes/depth_history_routes.rs:18 | L is the table entry for the query's interval, "hour" (3600) when absent, and at least 300 |
| HistoryCommon.BuildMatchStage | src/routes/depth_history_routes.rs:20-32 | the inserts build exactly the route's window |
| HistoryCommon.HistoryWindowMeaning | src/routes/depth_history_routes.rs:20-32 | a record is in the window iff its pool matches (when the route has one), start_time ≥ from (or ≥ now − count·L, count defaulting to 400), and end_time ≤ to when `to` is given |
| HistoryCommon.LimitedBucketsSpec | src/routes/depth_history_routes.rs:83-84 | sort+limit fails iff limit ≤ 0; otherwise it returns min(limit, #buckets) buckets sorted ascending by start, all from the bucket set, no left-out bucket starting earlier, and none iff nothing matches |
| HistoryCommon.LimitedBucketsStrictlyAscending | src/routes/depth_history_routes.rs:83-84 | with end times ≥ 1 the limited result is strictly ascending |
| HistoryCommon.SourceOfBucket | src/routes/depth_history_routes.rs:36-82 | yields, for a bucket, the stored in-window record it was built from |
| HistoryCommon.EveryBucketHasSource | src/routes/depth_history_routes.rs:36-82 | every bucket comes from a stored in-window record whose values it carries and whose end time it contains |
| HistoryCommon.LimitedOutputSpec | src/routes/depth_history_routes.rs:34-98 | the limited output has at most `limit` buckets, each from a stored record, in ascending start order, and none iff nothing matches |
| HistoryCommon.RunLimitedHistory | src/routes/swaps_history_routes.rs:28-178 | the shared route body (pairing check, window, pipeline, drain, 404, meta) computes the specified response |
| HistoryCommon.LimitedHistorySpec | src/routes/swaps_history_routes.rs:28-178 | 400 iff the pairing check is on and fails; server error iff count ≤ 0; 404 iff nothing in the window; otherwise 1…count buckets from stored records, ascending by start, meta from the first and last bucket, no pagination |
| HistoryCommon.ReportedOrder | bankai.rs:169 | the reported order is "asc" iff the sort order is 1 |
| HistoryCommon.SettingsSpec | bankai.rs:79-87 | page defaults to 1, limit to 50 and is capped at 400, skip = (page−1)·limit, the order is −1 iff "desc" is given, and the sort field defaults to startTime |
| HistoryCommon.PagedBucketsSpec | bankai.rs:125-127 | sort+skip+limit fails iff skip < 0 or limit ≤ 0; otherwise it gives at most `limit` buckets, element i being sorted bucket skip + i, still sorted |
| HistoryCommon.PageHasSources | bankai.rs:90-127 | every bucket of a page comes from a stored in-window record |
| HistoryCommon.PagesVisitEveryBucket | bankai.rs:165 | paging through ⌈n/limit⌉ pages visits every sorted bucket exactly once, in order |
| HistoryCommon.TotalPages | bankai.rs:165 | totalPages = ⌈totalRecords/limit⌉ |
| HistoryCommon.PaginationOf | bankai.rs:163-170 | the envelope carries page, limit, totalRecords and sort field as given; order "asc" iff the sort order is 1; totalPages is within i32 range and, below its saturation point, is ⌈total/limit⌉ |
| HistoryCommon.PageRefusedIff | bankai.rs:79-81 | the store refuses the page (skip < 0 or limit ≤ 0) iff page < 1 or limit ≤ 0 |
| HistoryCommon.F64ToI32 | src/routes/depth_history_routes.rs:124-125 | Rust's saturating `as i32`: always in i32 range, truncating toward zero within it |
| HistoryCommon.F64ToI32Whole | src/routes/depth_history_routes.rs:124-125 | a whole number in i32 range casts to itself |
| DepthRoute.GetDepthHistory | src/routes/depth_history_routes.rs:12-133 | the route's steps compute the specified depth response |
| DepthRoute.DepthHistorySpec | src/routes/depth_history_routes.rs:17-105 | never 400 (no pairing check); server error iff count ≤ 0; 404 "No depth history found" iff no record of the path's pool is in the window; otherwise 1…count buckets of that pool, from stored records, ascending by start |
| DepthRoute.DepthMetaSpec | src/routes/depth_history_routes.rs:113-130 | meta start*/end* come from the first/last bucket, priceShiftLoss = first.assetPrice − last.assetPrice, luviIncrease = last.luvi − first.luvi, member counts are i32 casts, and the span covers at least one bucket |
| SwapsRoute.LocalTableAgrees | src/routes/swaps_history_routes.rs:10-21 | the route's own interval table agrees with the shared one on every string |
| SwapsRoute.GetSwapsHistory | src/routes/swaps_history_routes.rs:23-229 | the route's steps compute the specified swaps response |
| SwapsRoute.SwapsHistorySpec | src/routes/swaps_history_routes.rs:28-225 | 400 with the pairing message iff exactly one of interval/count is given; server error iff count ≤ 0; 404 iff nothing in the window (no pool filter); otherwise 1…count ascending buckets from stored records, the meta being the first bucket's values |
| RunePoolRoute.LocalTableAgrees | src/routes/rune_pool_history_route.rs:9-20 | the route's own interval table agrees with the shared one on every string |
| RunePoolRoute.GetRunePoolHistory | src/routes/rune_pool_history_route.rs:22-132 | the route's steps compute the specified RUNEPool response |
| RunePoolRoute.RunePoolHistorySpec | src/routes/rune_pool_history_route.rs:27-129 | 400 iff the pairing fails; 404 "No runepool history found" iff nothing in the window; otherwise 1…count ascending buckets from stored records, with startTime/Count/Units from the first bucket and endTime/Count/Units from the last |
| BankaiRoute.CountReplyOf | bankai.rs:45-77 | the `$count` stage returns no document for zero buckets and an Int32 total for 1…2³¹−1 buckets |
| BankaiRoute.TotalAsWrittenLosesSmallCounts | bankai.rs:68 | reading that Int32 total with `get_i64` gives 0, where the bucket count is meant |
| BankaiRoute.TotalIsBucketCount | bankai.rs:62-72 | the corrected read gives the number of buckets for every store, 0 when nothing matches |
| BankaiRoute.GetPagedRunePoolHistory | bankai.rs:10-175 | the route's steps, totalRecords read with `get_i64` as written, compute the paginated response of the route as written |
| BankaiRoute.PagedRunePoolHistorySpec | bankai.rs:15-148 | 400 iff the pairing fails; server error iff page < 1 or limit ≤ 0; 404 iff the page starts past the last bucket (even when totalRecords > 0) |
| BankaiRoute.PagedWithIsPage | bankai.rs:90-172 | whatever total is reported, a success is page `page` of the sorted buckets, with the envelope built from the settings and that total and the summary from the page's first and last bucket |
| BankaiRoute.TotalOnlyInEnvelope | bankai.rs:62-172 | the total reaches only the envelope: status, intervals and summary do not depend on it |
| BankaiRoute.PagedIntervalsArePage | bankai.rs:62-172 | on success the intervals are exactly page `page` of the sorted buckets, the envelope is built from the settings and the total `get_i64` reads from the `$count` reply, and the summary comes from the first and last bucket of the page |
| BankaiRoute.PagedRunePoolContents | bankai.rs:90-141 | on success: 1…limit intervals, a contiguous slice of the sorted buckets from skip, each from a stored record, in the requested order |
| BankaiRoute.PagedRunePoolEnvelope | bankai.rs:62-172 | as written, totalRecords is the `get_i64` reading of the `$count` reply, so it and totalPages are 0 whenever there are fewer than 2³¹ buckets; currentPage/limit are the settings, order "asc" iff the query does not say "desc", and start/end time and count come from the page's first/last bucket |
| BankaiRoute.CorrectedPagedRunePoolEnvelope | bankai.rs:62-172 | with the count read at either width, the route answers the same status, intervals and summary, and its envelope reports the number of buckets |
| LegacyDepth.Filtered | src/controllers/routes.rs:51-73 | the `find` returns exactly the stored documents that meet each filter given (from, to, pool) |
| LegacyDepth.FilteredIndices | src/controllers/routes.rs:51-73 | the store indices `find` returns increase, all are matching documents, and none is missing |
| LegacyDepth.FilteredInStoreOrder | src/controllers/routes.rs:51-73 | `find` lists the matching documents in increasing store index |
| LegacyDepth.GetLegacyDepthHistory | src/controllers/routes.rs:10-80 | the handler's guards, shortcut, find loop and truncate compute the specified response |
| LegacyDepth.LegacyGuards | src/controllers/routes.rs:17-36 | rejected iff pool = "BTC.BTC" or a given interval is invalid or a given count is outside 1…400; the pool guard wins, then the interval guard |
| LegacyDepth.LegacySingleIff | src/controllers/routes.rs:40-48 | a single document is answered iff all five parameters are absent and the collection is non-empty, and it is the first stored document |
| LegacyDepth.LegacyListSpec | src/controllers/routes.rs:50-79 | otherwise the list is the first min(count, matches) filtered documents when a count is given, and all of them when not |
| Conversions.IntField | src/models/earnings_history.rs:37-38 | an integer field succeeds iff its trimmed text parses as i64, with that value; otherwise it fails naming the field |
| Conversions.FloatField | src/models/earnings_history.rs:39-44 | a float field succeeds iff the float parser accepts its trimmed text, with that value; otherwise it fails naming the field |
| Conversions.AssembleEarningsSpec | src/models/earnings_history.rs:34-46 | the summary converts iff all eight fields parse; each output field is its same-named input, with a fresh id and no pool; otherwise the error is that of the first failing field in declaration order |
| Conversions.EarningsAllParse | src/models/earnings_history.rs:34-46 | when every field parses, the record is exactly the parsed fields under the fresh id |
| Conversions.EarningsStartTimeFirst | src/models/earnings_history.rs:37 | an unparsable start_time is the error reported, whatever else fails |
| Conversions.AssemblePoolSpec | src/models/earnings_history_pools.rs:35-48 | a pool record converts iff all seven numeric fields parse; pool name and summary id are copied and the id is fresh; otherwise the first failing field's error |
| Conversions.PoolNameTrimmed | src/models/earnings_history_pools.rs:38 | the stored pool name is the trimmed input name |
| Conversions.PoolFeesBeforeTimes | src/models/earnings_history_pools.rs:39 | an unparsable asset_liquidity_fees is the error reported |
| Conversions.RunePoolFromSpec | src/models/runepool_members_units_history.rs:21-30 | converts iff both times, count and units parse; depth stays absent when absent and becomes None when unparsable (never an error); no pool, a fresh id; each failure reports its own field, in order |
| Conversions.RunePoolTimesRoundTrip | src/models/runepool_members_units_history.rs:23-24 | the decimal text of any two i64 times converts back to those times |
| Store.Collection.NewId | src/services/fetch_earnings_history.rs:98 | the id is the collection's counter, which then advances by one; the documents are unchanged |
| Store.Collection.InsertOne | src/services/fetch_runepool_members_units_history.rs:55-61 | the document is appended iff the store accepts it, and the result says which |
| Store.Stored | src/services/fetch_runepool_members_units_history.rs:52-68 | the documents a batch leaves are no more than its records |
| Store.StoredComesFromRecords | src/services/fetch_runepool_members_units_history.rs:52-68 | every stored document is the conversion of some accepted record |
| Store.StoredKeepsAccepted | src/services/fetch_runepool_members_units_history.rs:53-56 | every record that converts and is accepted is stored |
| Store.StoredAllWhenAllSucceed | src/services/fetch_runepool_members_units_history.rs:52-68 | when every record converts and is accepted, every record is stored |
| Store.StoreToDb | src/services/fetch_runepool_members_units_history.rs:46-72 | success + error = #records; the collection grows by exactly the converted, accepted records in order; success is their number; one id per record |
| Walker.Walk | src/services/fetch_runepool_members_units_history.rs:75-129 | a walk stores at most one batch per request and makes at most one request per page of the oracle |
| Walker.WalkStartsAtCursor | src/services/fetch_runepool_members_units_history.rs:76-83 | the first request asks from the start time |
| Walker.WalkCursorsFollowEndTimes | src/services/fetch_runepool_members_units_history.rs:105-117 | each later request asks from the previous page's meta.end_time, and only pages that continue the walk are followed |
| Walker.WalkStoresDeliveredPages | src/services/fetch_runepool_members_units_history.rs:105-108 | batch j is exactly page j's intervals, and only delivered pages are stored |
| Walker.WalkEnding | src/services/fetch_runepool_members_units_history.rs:78-128 | a walk ends Ok on an empty page or at end_time ≥ now after storing; ends with that page's error when the status, the decoding or the end_time parse fails, storing nothing of it; or runs out of pages |
| Walker.WalkCursorsBelowClock | src/services/fetch_runepool_members_units_history.rs:110-117 | every cursor after the first is below the clock reading that let the walk go on |
| Walker.WalkStep | src/services/fetch_runepool_members_units_history.rs:78-125 | one turn of the loop: a failing page ends it, a delivered last page ends it Ok, a continuing page moves the cursor to its end_time |
| Walker.WalkAdvance | src/services/fetch_runepool_members_units_history.rs:78-125 | the same turn taken in the middle of a walk |
| Walker.StoredAppend | src/services/fetch_runepool_members_units_history.rs:108 | storing two batches one after the other stores what storing them together would |
| Walker.StoreBatch | src/services/fetch_runepool_members_units_history.rs:108 | storing a page extends the collection by that page's stored documents |
| Walker.WalkInto | src/services/fetch_runepool_members_units_history.rs:75-129 | the loop follows `Walk`: same outcome, one request per cursor, and the collection grows by the store of every delivered batch in order |
| Walker.UrlDeterminesCursor | src/services/fetch_runepool_members_units_history.rs:79-83 | two requests with the same URL ask from the same cursor |
| Walker.DepthUrlNamesPool | src/services/fetch_depth_price_history.rs:104-109 | the depth request names its pool right after "depths/" |
| Fetchers.FetchRunePoolMembersUnitsHistory | src/services/fetch_runepool_members_units_history.rs:75-129 | the RUNEPool fetcher walks the members endpoint from start_time and stores every delivered batch through its conversion |
| Fetchers.FetchDepthPriceHistory | src/services/fetch_depth_price_history.rs:100-155 | the depth fetcher walks the pool's depth endpoint and stores every delivered batch |
| Fetchers.FetchSwapsHistory | src/services/fetch_swaps_history.rs:145-198 | the swaps fetcher walks the swaps endpoint (no pool in the URL) and stores every delivered batch |
| EarningsIngest.ParseFloat | src/services/fetch_earnings_history.rs:88-94 | `parse_float` is the parsed value of the trimmed text when it is non-blank and parses, and 0.0 otherwise |
| EarningsIngest.ParseFloatBlank | src/services/fetch_earnings_history.rs:89-90 | blank or whitespace-only text gives 0.0 |
| EarningsIngest.ParseTime | src/services/fetch_earnings_history.rs:99-104 | an interval time is its i64 parse whenever the trimmed text parses, and 0 otherwise; it is always within the i64 range |
| EarningsIngest.PreTrimHarmless | src/services/fetch_earnings_history.rs:79-94 | trimming before `parse_float` changes nothing |
| EarningsIngest.MissingOptionalsAreZero | src/services/fetch_earnings_history.rs:81-84 | a missing blockEarnings or runePriceUSD is stored as 0.0 |
| EarningsIngest.BuildersLinked | src/services/fetch_earnings_history.rs:97-145 | each pool document carries its parent's id and its parent's start and end time |
| EarningsIngest.ParentsComeFromIntervals | src/services/fetch_earnings_history.rs:74-118 | every stored summary is the document built from an accepted interval |
| EarningsIngest.PoolsHaveParents | src/services/fetch_earnings_history.rs:113-145 | every stored pool document has a stored parent with its summary id and the same start and end time |
| EarningsIngest.StepPoolHasParent | src/services/fetch_earnings_history.rs:119-145 | the pools one interval adds have that interval's stored parent |
| EarningsIngest.AllAcceptedStoresAll | src/services/fetch_earnings_history.rs:74-160 | when the store accepts everything, every interval and every pool is stored |
| EarningsIngest.ParsedTimesStored | src/services/fetch_earnings_history.rs:97-145 | an accepted summary is stored with the parsed start and end time whenever they parse, and every pool stored under it carries the same times |
| EarningsIngest.PoolTimesAreParentTimes | src/services/fetch_earnings_history.rs:127-143 | a pool document's times are the interval's times, read the same way as the summary's |
| EarningsIngest.BadTimesStillStored | src/services/fetch_earnings_history.rs:99-104 | unparsable times become 0 and the summary is still stored |
| EarningsIngest.RefusedParentSkipsPools | src/services/fetch_earnings_history.rs:156-159 | a refused summary insert stores none of its pools and tries none |
| EarningsIngest.StoreEarningsAppend | src/services/fetch_earnings_history.rs:62-172 | storing two runs of intervals one after the other stores what storing them together would |
| EarningsIngest.StorePools | src/services/fetch_earnings_history.rs:119-154 | the pool loop appends the accepted converted pools in order, one id per pool, and counts them |
| EarningsIngest.StoreInterval | src/services/fetch_earnings_history.rs:74-160 | one interval: its summary is inserted first and its pools only when that insert succeeded |
| EarningsIngest.EarningsStoreToDb | src/services/fetch_earnings_history.rs:62-172 | the summary and pool collections grow by exactly the specified documents; success + error = #intervals; pools_success + pools_error = #pools tried |
| EarningsIngest.StoreEarningsBatch | src/services/fetch_earnings_history.rs:215 | storing a page extends both collections by that page's share |
| EarningsIngest.FetchEarningsHistory | src/services/fetch_earnings_history.rs:174-236 | the earnings walker follows `Walk`, sends one request per cursor, stores every delivered batch with its pools, and advances both id counters by what it tried |
| IntervalDecoding.Pascal | src/services/fetch_earnings_history.rs:40 | serde's PascalCase rule leaves no `_` in the name and never lengthens it |
| IntervalDecoding.CamelCase | src/services/fetch_earnings_history.rs:40 | serde's camelCase rule leaves no `_` in the name |
| IntervalDecoding.PascalWord | src/services/fetch_earnings_history.rs:40 | a word without `_` is copied, with only its first character capitalised when asked |
| IntervalDecoding.PascalWords | src/services/fetch_earnings_history.rs:40 | after a word and the `_` that follows it, the rule starts again with a capital on the rest |
| IntervalDecoding.CamelCaseTwoWords | src/services/fetch_earnings_history.rs:40 | the camelCase name of `a_b` is `a` followed by `b` with a capital first letter |
| IntervalDecoding.CamelCaseThreeWords | src/services/fetch_earnings_history.rs:40 | the camelCase name of `a_b_c` is `a`, then `b` and `c` each with a capital first letter |
| IntervalDecoding.LiquidityFeesKeyIsCamelCase | src/services/fetch_earnings_history.rs:46 | `liquidity_fees` is read under "liquidityFees" |
| IntervalDecoding.BlockRewardsKeyIsCamelCase | src/services/fetch_earnings_history.rs:47 | `block_rewards` is read under "blockRewards" |
| IntervalDecoding.LiquidityEarningsKeyIsCamelCase | src/services/fetch_earnings_history.rs:50 | `liquidity_earnings` is read under "liquidityEarnings" |
| IntervalDecoding.AvgNodeCountKeyIsCamelCase | src/services/fetch_earnings_history.rs:51 | `avg_node_count` is read under "avgNodeCount" |
| IntervalDecoding.RunePriceKeyAsWrittenIsCamelCase | src/services/fetch_earnings_history.rs:40-52 | `rune_price_usd`, which has no `rename`, is read under "runePriceUsd", which differs from "runePriceUSD" |
| IntervalDecoding.Field | src/services/fetch_earnings_history.rs:49-52 | an `Option` field is present exactly when its key is, with the key's text |
| IntervalDecoding.DecodeIntervalUnder | src/services/fetch_earnings_history.rs:40-53 | the decode succeeds exactly when every required key is present |
| IntervalDecoding.Encode | src/services/fetch_earnings_history.rs:32-35 | an interval as Midgard sends it has every required key, has "runePriceUSD" exactly when it carries a price, and never has "runePriceUsd" |
| IntervalDecoding.CorrectedDecodeRoundTrip | src/services/fetch_earnings_history.rs:32-35 | with the `Meta` struct's `rename = "runePriceUSD"`, decoding what Midgard sends gives back the interval |
| IntervalDecoding.DecodeLosesRunePrice | src/services/fetch_earnings_history.rs:40-53 | as written, decoding what Midgard sends gives back the interval with its price missing |
| IntervalDecoding.StoredRunePriceIsZero | src/services/fetch_earnings_history.rs:52 | as written, every stored summary's `rune_price_usd` is 0.0, whatever price was sent |
| IntervalDecoding.CorrectedStoresRunePrice | src/services/fetch_earnings_history.rs:84-110 | with the rename, the stored price is the `parse_float` of the price sent |
| EarningsRoute.PoolsOf | src/routes/earning_history_route.rs:148-175 | a bucket never lists more pools than are stored |
| EarningsRoute.PoolsOfFrom | src/routes/earning_history_route.rs:148-175 | every listed pool is a stored pool whose earnings summary id is the bucket's last id |
| EarningsRoute.PoolsOfHas | src/routes/earning_history_route.rs:148-175 | every stored pool with that id is listed (without its earnings_id) |
| EarningsRoute.FindPools | src/routes/earning_history_route.rs:153-175 | the pool `find` loop gives exactly those pools |
| EarningsRoute.Join | src/routes/earning_history_route.rs:148-180 | one output interval per bucket, each with its own pools |
| EarningsRoute.SumAppend | src/routes/earning_history_route.rs:141-144 | the meta sums add up over two runs of buckets |
| EarningsRoute.AveragedIsMean | src/routes/earning_history_route.rs:190-196 | avgNodeCount and runePriceUSD become means over the page's buckets; the four other sums stay sums |
| EarningsRoute.TwoIntervalAverage | src/routes/earning_history_route.rs:131-196 | two buckets with 100 and 110 nodes average 105 nodes, while block rewards add |
| EarningsRoute.AssembleEarnings | src/routes/earning_history_route.rs:123-181 | the cursor loop yields the joined intervals, the sums and the bucket count of the page |
| EarningsRoute.GetEarningsHistory | src/routes/earning_history_route.rs:12-221 | the route's steps compute the specified earnings response |
| EarningsRoute.EarningsHistoryStatus | src/routes/earning_history_route.rs:16-188 | 400 iff the pairing fails; server error iff page < 1 or limit ≤ 0; 404 "No earnings history found" iff the page starts past the last bucket |
| EarningsRoute.EarningsSuccessShape | src/routes/earning_history_route.rs:58-218 | on success: the intervals are the joined page, the meta is built from those buckets, and the envelope counts raw matching documents |
| EarningsRoute.JoinedPage | src/routes/earning_history_route.rs:123-205 | a non-empty page joins to 1…limit intervals that show the page's buckets with their pools, and the meta sums them |
| EarningsRoute.EarningsHistoryContents | src/routes/earning_history_route.rs:67-181 | on success: 1…limit intervals showing a slice of the sorted buckets with their pools |
| EarningsRoute.EarningsHistoryMeta | src/routes/earning_history_route.rs:131-218 | on success the meta spans the page from its first start to its last end, averages avgNodeCount and runePriceUSD over it, sums blockRewards, bondingEarnings, liquidityEarnings and liquidityFees over it, and totalRecords is the number of raw matching documents |
| Scheduler.ExpectedLogAt | src/services/scheduler.rs:29-56 | tick i records its clock reading, its `from`, how each of the four walks from that `from` ended and what each sent (depth for "BTC.BTC", every fetch with "hour"), and success iff all four ended Ok |
| Scheduler.Nows | src/services/scheduler.rs:31 | the clock readings taken at the start of each tick |
| Scheduler.AsWrittenNeverAdvances | src/services/scheduler.rs:26-38 | as written every tick fetches from the watermark loaded before the loop |
| Scheduler.ReloadingIsContiguous | src/services/scheduler.rs:56 | with the watermark reloaded every tick, the first tick starts from the initial watermark and tick i from tick i−1's clock reading |
| Scheduler.SecondTickRewalks | src/services/scheduler.rs:26-56 | from a fresh start the second tick fetches from 1739487600 again, not from the first tick's clock reading |
| Scheduler.AfterTicksExtends | src/services/scheduler.rs:29-60 | ticks only add documents: every collection keeps what it held at its front, and no id counter goes back |
| Scheduler.AsWrittenTickRestores | src/services/scheduler.rs:26-56 | as written, the runepool, depth and swaps documents every tick adds are the conversions of the records walked from the initial watermark, however many ticks came before |
| Scheduler.ReloadingTickStoresSinceLastTick | src/services/scheduler.rs:26-56 | with the watermark reloaded, the runepool documents tick i adds come from the records walked from tick i−1's clock reading |
| Scheduler.HourlyFetch.FetchEarningsPart | src/services/scheduler.rs:40-41 | the earnings fetcher walks from `from`, and the summary and pool collections grow as `AfterTick` says |
| Scheduler.HourlyFetch.FetchSamplesPart | src/services/scheduler.rs:42-49 | the runepool, depth ("BTC.BTC") and swaps fetchers walk from `from`, and their collections grow as `AfterTick` says |
| Scheduler.HourlyFetch.Tick | src/services/scheduler.rs:30-57 | one tick runs the four fetchers from `from`, logs their outcomes and requests, succeeds iff all four do, extends each collection by what its walk stored (`AfterTick`), and then sets the watermark to the tick's clock reading whatever happened |
| Scheduler.HourlyFetch.TickAt | src/services/scheduler.rs:29-60 | tick k extends the log and the collections of ticks ..k by tick k's record and documents |
| Scheduler.HourlyFetch.Start | src/services/scheduler.rs:17-62 | no tick and no change when the schedule does not parse; otherwise the log and the collections are those of every tick fetching from the one loaded watermark, and the watermark ends at the last tick's clock reading |
| Scheduler.HourlyFetch.StartReloading | src/services/scheduler.rs:26-56 | the same loop reloading the watermark each tick: tick i fetches from tick i−1's clock reading, and the log and collections are those of that run |

## Left out

- The HTTP layer and JSON/BSON serialisation, except the keys an earnings interval's string fields are read under (`IntervalDecoding`): a response is a datatype with a status, intervals, meta and an optional pagination envelope. Meta numbers are kept as values, without the `to_string` the routes apply.
- The MongoDB driver: collections are in-memory sequences. `$match`, `$group`, `$project`, `$sort`, `$skip`, `$limit` and `$count` are pure functions. An insert's success is an oracle `nat -> bool` indexed by document id.
- Cursor errors during a drain, failures of `aggregate`/`find` other than the refused `$limit`/`$skip`, and failures of the earnings pool `find`: the store is assumed to answer.
- The network and the clock: a walk is given its upstream replies as a finite sequence of exchanges, one per request. Each exchange carries the status, whether decoding worked, the page and the clock reading. A walk that uses them all up ends as `OutOfFuel`, because the source loop has no termination guarantee when end_time does not advance.
- `tokio::join!` concurrency: the four fetchers of a tick run one after another, which writes the same documents because they use disjoint collections.
- Cron parsing, `upcoming.next()` returning nothing, and the 60-second sleep: a run is a finite sequence of ticks, and whether the schedule parsed is a parameter.
- IEEE f64: values are `real`. Float parsing is an oracle `string -> Option<real>`. Sums, means and deltas are exact. `totalPages` is integer ceiling division followed by the saturating i32 cast.
- Sorting by arbitrary fields: the sort key is an abstract function of the field name and the bucket. The order of ties is whatever the insertion sort gives, while MongoDB's `$sort` does not fix it.
- The `TryFrom` conversions of depth and swaps records, whose source is not part of this model: they are oracle partial functions `(record, id) -> Option<document>`.
- `ObjectId::new()`: ids are a per-collection counter.
- Arithmetic overflow of `(page - 1) * limit` and of `current_time - count * seconds_per_interval`: integers are unbounded.
- The `unwrap()` calls of the swaps meta, which panic when a field is missing or has another BSON type: the model has every field of every bucket.
- The middleware is not wired into the routes, as in the source (it is `dead_code`). The routes are modelled without it.
- `format_timestamp` (a chrono wrapper), the OpenAPI docs, `src/services/fetchDepthPriceHistory.rs` (a hard-coded fetch that only logs) and `src/models/depth_price_history.rs` (a struct whose `new` does not compile). None of these is part of this model.
- Log lines (`info!`, `error!`, `debug!`) are not modelled, except that the scheduler's success or failure line becomes the `ok` field of a tick record.
- Store.Stored: its own contract only bounds the length. What it stores is stated by `StoredComesFromRecords`, `StoredKeepsAccepted`, `StoredAllWhenAllSucceed` and `StoredAppend`.
- Walker.Walk: its own contract only bounds the trace. What a walk does is stated by the `Walk*` lemmas.
- The swaps call of a tick passes "BTC.BTC" as the pool: src/services/scheduler.rs:48 calls `fetch_swaps_history` with three arguments, while src/services/fetch_swaps_history.rs:145 takes four, the first being an ignored pool. The model needs some value there, and the fetcher ignores it.
- IntervalDecoding: the JSON value of an interval is a map from key to text, and its pools are passed already decoded. serde's case rule is applied to ASCII names given word by word, and the other fetchers' records are decoded by their oracles.
- IntervalDecoding.Pascal and IntervalDecoding.CamelCase: their own contracts only say that no `_` is left. What the rule produces is stated by `PascalWord`, `PascalWords` and the `CamelCase*Words` lemmas.
- EarningsRoute.PoolsOf: its own contract only bounds the length. What it lists is stated by `PoolsOfFrom` and `PoolsOfHas`.

## Findings

| source | as written | input that shows it | evidently intended | confidence | as-written member | corrected member |
|---|---|---|---|---|---|---|
| bankai.rs:68 | the count pipeline's `$count` stage yields an Int32 `total`, which is read with `get_i64("total").unwrap_or(0)`; the type mismatch makes it 0 | any store whose matching records fall into 1 … 2³¹−1 buckets: `totalRecords` and `totalPages` come out 0 | `totalRecords` is the number of buckets | not executed | BankaiRoute.PagedRunePoolEnvelope | BankaiRoute.CorrectedPagedRunePoolEnvelope |
| src/services/scheduler.rs:26-56 | `LAST_EXECUTION_TIME` is loaded once before the loop, so every tick fetches from that value although each tick stores a new one | two ticks after a fresh start: the second fetches from 1739487600 again instead of from the first tick's clock reading | each tick fetches from the previous tick's start | not executed | Scheduler.SecondTickRewalks | Scheduler.ReloadingIsContiguous |
| src/services/fetch_earnings_history.rs:40-53 | `Interval` derives `rename_all = "camelCase"` and gives `rune_price_usd` no `rename`, so serde reads it under "runePriceUsd". The `Meta` struct of the same file (line 34) and the swaps records (src/services/fetch_swaps_history.rs:105) read "runePriceUSD". | an interval sent with `"runePriceUSD": "1.5"`: the field reads as missing, and the stored `rune_price_usd` is 0.0 | the stored price is the `parse_float` of the price sent | not executed; it rests on Midgard sending "runePriceUSD" for intervals, as the sibling structs assume | IntervalDecoding.StoredRunePriceIsZero | IntervalDecoding.CorrectedStoresRunePrice |

The rest of the model takes earnings intervals already decoded, which `CorrectedDecodeRoundTrip` shows is what the corrected decode yields.
