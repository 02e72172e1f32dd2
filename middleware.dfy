/** The query-validation middleware (src/middleware/middleware.rs). */
module Middleware {
  import opened Wrappers
  import opened Queries

  const InvalidIntervalMessage: string := "Invalid interval. Must be one of: 5min, hour, day, week, month, quarter, year"
  const InvalidCountMessage: string := "Count must be between 1 and 400"

  /** A present interval that is not one of the seven names. */
  predicate BadInterval(q: QueryParams) { q.interval.Some? && !ValidInterval(q.interval.value) }

  /** A present count outside 1..400. */
  predicate BadCount(q: QueryParams) { q.count.Some? && !ValidCount(q.count.value) }

  /**
   * The accept/reject decision for a request `req`; `parsed` is the outcome of deserialising
   * its query string (None when that fails). Accepted requests are handed on unchanged;
   * the error of a rejected one is a 400 message.
   */
  function ValidateQueryParams<Req>(req: Req, parsed: Option<QueryParams>): (r: Result<Req, string>)
    ensures r.Ok? ==> r.value == req
    ensures parsed.None? ==> r == Ok(req)
    ensures r.Err? <==> parsed.Some? && (BadInterval(parsed.value) || BadCount(parsed.value))
  {
    match parsed
    case None => Ok(req)
    case Some(query) =>
      if query.interval.Some? && !ValidInterval(query.interval.value) then Err(InvalidIntervalMessage)
      else if query.count.Some? && !ValidCount(query.count.value) then Err(InvalidCountMessage)
      else Ok(req)
  }

  /** The interval is checked first: when it is bad, its message wins even if the count is bad too. */
  lemma IntervalCheckedBeforeCount<Req>(req: Req, q: QueryParams)
    ensures BadInterval(q) ==> ValidateQueryParams(req, Some(q)) == Err(InvalidIntervalMessage)
    ensures !BadInterval(q) && BadCount(q) ==> ValidateQueryParams(req, Some(q)) == Err(InvalidCountMessage)
  {
  }

  /** Absent fields are never the reason for a rejection: a query whose interval and count are
      absent, or present and valid, is accepted as is. */
  lemma AbsentOrValidFieldsPass<Req>(req: Req, q: QueryParams)
    requires q.interval.None? || ValidInterval(q.interval.value)
    requires q.count.None? || ValidCount(q.count.value)
    ensures ValidateQueryParams(req, Some(q)) == Ok(req)
  {
  }
}
