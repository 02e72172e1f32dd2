/** Query parameters of the history routes and their primitive validators (src/routes/queries.rs). */
module Queries {
  import opened Wrappers
  import Utils

  /** `count` is deserialised as an `i32`; other values fail to parse. */
  type I32 = x: int | -0x8000_0000 <= x < 0x8000_0000

  /** The query record. The paginated routes also read `page`, `limit`, `sort_by` and `order`,
      which this record carries as well. */
  datatype QueryParams = QueryParams(
    interval: Option<string>,
    count: Option<I32>,
    pool: Option<string>,
    from: Option<int>,
    to: Option<int>,
    page: Option<int>,
    limit: Option<int>,
    sortBy: Option<string>,
    order: Option<string>)

  /** The seven interval names accepted by the API. */
  predicate ValidInterval(interval: string) {
    interval == "5min" || interval == "hour" || interval == "day" || interval == "week"
    || interval == "month" || interval == "quarter" || interval == "year"
  }

  predicate ValidCount(count: I32) {
    count > 0 && count <= 400
  }

  /** Accepted names are exactly the keys of the interval table, so each valid name has its
      own arm there and never reaches the fallback. */
  lemma ValidIntervalIsTableKey(interval: string)
    ensures ValidInterval(interval) <==> interval in Utils.IntervalTable
    ensures ValidInterval(interval) ==> Utils.SecondsPerInterval(interval) == Utils.IntervalTable[interval]
  {
  }

  /** `validate_count` accepts exactly 1..400; zero and every negative value fail. */
  lemma ValidCountRange(count: I32)
    ensures ValidCount(count) <==> 1 <= count <= 400
    ensures count <= 0 ==> !ValidCount(count)
  {
  }
}
