/**
 * The runepool, depth and swaps fetchers of src/services/: each is the shared walk with
 * its own endpoint and its own record conversion feeding `store_to_db`.
 */
module Fetchers {
  import opened Wrappers
  import opened Aggregation
  import opened Records
  import opened Store
  import opened Walker
  import Conversions

  /** `RunePoolTotalMembersHistory::try_from`, with its error dropped as `store_to_db` does. */
  function RunePoolConvert(pf: string -> Option<real>): (Conversions.RunePoolInterval, nat) -> Option<Sample<RunePoolValues>> {
    (iv: Conversions.RunePoolInterval, id: nat) => Conversions.RunePoolFrom(iv, id, pf).ToOption()
  }

  /** `fetch_runepool_members_units_history`. */
  method FetchRunePoolMembersUnitsHistory(c: Collection<Sample<RunePoolValues>>, interval: string, startTime: int,
                                          pages: seq<Exchange<Conversions.RunePoolInterval>>,
                                          pf: string -> Option<real>, accept: nat -> bool)
    returns (outcome: WalkOutcome, requests: seq<Request>,
             ghost cursors: seq<int>, ghost batches: seq<seq<Conversions.RunePoolInterval>>)
    modifies c
    ensures Trace(outcome, cursors, batches) == Walk(startTime, pages)
    ensures requests == RequestsOf(RunePoolPath(), interval, cursors)
    ensures c.docs == old(c.docs) + Stored(Concat(batches), RunePoolConvert(pf), accept, old(c.nextId))
    ensures c.nextId == old(c.nextId) + |Concat(batches)|
  {
    outcome, requests, cursors, batches := WalkInto(c, RunePoolPath(), interval, startTime, pages, RunePoolConvert(pf), accept);
  }

  /** `fetch_depth_price_history`: the pool is part of the request, but `store_to_db`
      ignores it, so the stored records carry whatever pool `convert` gives them. */
  method FetchDepthPriceHistory<R>(c: Collection<Sample<DepthValues>>, pool: string, interval: string, startTime: int,
                                   pages: seq<Exchange<R>>, convert: (R, nat) -> Option<Sample<DepthValues>>,
                                   accept: nat -> bool)
    returns (outcome: WalkOutcome, requests: seq<Request>, ghost cursors: seq<int>, ghost batches: seq<seq<R>>)
    modifies c
    ensures Trace(outcome, cursors, batches) == Walk(startTime, pages)
    ensures requests == RequestsOf(DepthPath(pool), interval, cursors)
    ensures c.docs == old(c.docs) + Stored(Concat(batches), convert, accept, old(c.nextId))
    ensures c.nextId == old(c.nextId) + |Concat(batches)|
  {
    outcome, requests, cursors, batches := WalkInto(c, DepthPath(pool), interval, startTime, pages, convert, accept);
  }

  /** `fetch_swaps_history`: the pool argument is accepted and ignored. */
  method FetchSwapsHistory<R>(c: Collection<Sample<SwapValues>>, pool: string, interval: string, startTime: int,
                              pages: seq<Exchange<R>>, convert: (R, nat) -> Option<Sample<SwapValues>>,
                              accept: nat -> bool)
    returns (outcome: WalkOutcome, requests: seq<Request>, ghost cursors: seq<int>, ghost batches: seq<seq<R>>)
    modifies c
    ensures Trace(outcome, cursors, batches) == Walk(startTime, pages)
    ensures requests == RequestsOf(SwapsPath(), interval, cursors)
    ensures c.docs == old(c.docs) + Stored(Concat(batches), convert, accept, old(c.nextId))
    ensures c.nextId == old(c.nextId) + |Concat(batches)|
  {
    outcome, requests, cursors, batches := WalkInto(c, SwapsPath(), interval, startTime, pages, convert, accept);
  }
}
