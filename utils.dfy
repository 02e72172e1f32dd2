/** The interval-length table shared by the history routes (src/utils/mod.rs). */
module Utils {

  /** Reference table of bucket lengths in seconds: 30-day months, 90-day quarters and
      365-day years, not calendar-accurate. */
  const IntervalTable: map<string, int> := map[
    "5min" := 300, "hour" := 3600, "day" := 86400, "week" := 604800,
    "month" := 2592000, "quarter" := 7776000, "year" := 31536000]

  const HourSeconds: int := 3600

  /** Seconds per bucket for an interval name; any unknown name counts as an hour. */
  function SecondsPerInterval(interval: string): (r: int)
    ensures r >= 300 && r % 300 == 0
    ensures interval !in IntervalTable ==> r == HourSeconds
  {
    match interval
    case "5min" => 300
    case "hour" => 3600
    case "day" => 86400
    case "week" => 604800
    case "month" => 2592000
    case "quarter" => 7776000
    case "year" => 31536000
    case _ => 3600
  }

  /** The match agrees with the reference table, and falls back to an hour elsewhere. */
  lemma SecondsPerIntervalMatchesTable(interval: string)
    ensures SecondsPerInterval(interval) == if interval in IntervalTable then IntervalTable[interval] else HourSeconds
  {
  }

  /** The fallback: the empty string and any other unknown name have the length of "hour". */
  lemma UnknownIntervalIsHour(interval: string)
    requires interval !in IntervalTable
    ensures SecondsPerInterval(interval) == SecondsPerInterval("hour") == 3600
    ensures SecondsPerInterval("") == 3600
  {
  }

  /** The fixed ratios between the lengths. */
  lemma IntervalRatios()
    ensures SecondsPerInterval("hour") == 12 * SecondsPerInterval("5min")
    ensures SecondsPerInterval("day") == 24 * SecondsPerInterval("hour")
    ensures SecondsPerInterval("week") == 7 * SecondsPerInterval("day")
    ensures SecondsPerInterval("month") == 30 * SecondsPerInterval("day")
    ensures SecondsPerInterval("quarter") == 3 * SecondsPerInterval("month") == 90 * SecondsPerInterval("day")
    ensures SecondsPerInterval("year") == 365 * SecondsPerInterval("day")
  {
  }
}
