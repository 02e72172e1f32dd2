/**
 * src/services/scheduler.rs: the background task that, tick after tick, runs the four
 * fetchers side by side from a shared watermark and then moves the watermark to the clock
 * reading taken at the start of the tick.
 *
 * A tick's inputs are oracles: the clock reading, the upstream replies each fetcher gets
 * and the store's answers to its inserts. The endless `loop` runs over a finite sequence
 * of ticks.
 */
module Scheduler {
  import opened Wrappers
  import opened Aggregation
  import opened Records
  import opened Store
  import opened Walker
  import opened EarningsIngest
  import opened Fetchers
  import Conversions

  /** `INITIAL_START_TIME`, the value `LAST_EXECUTION_TIME` starts from. */
  const InitialStartTime: int := 1739487600

  /** Every fetcher is called with the interval "hour". */
  const HourInterval: string := "hour"

  /** The one pool whose depth history is fetched. */
  const DepthPool: string := "BTC.BTC"

  /** What the upstream answers each of the four walks in one tick. */
  datatype Upstream<RD, RS> = Upstream(earnings: seq<Exchange<IntervalRaw>>,
                                       runepool: seq<Exchange<Conversions.RunePoolInterval>>,
                                       depth: seq<Exchange<RD>>, swaps: seq<Exchange<RS>>)

  /** The store's answers to the inserts of the five collections, by document id. */
  datatype Inserts = Inserts(summary: nat -> bool, pool: nat -> bool, runepool: nat -> bool,
                             depth: nat -> bool, swaps: nat -> bool)

  /** One tick: the clock reading at its start and what the fetchers meet. */
  datatype TickInput<RD, RS> = TickInput(now: int, upstream: Upstream<RD, RS>)

  /** What a tick did: when it started, the `from` all four fetchers were given, how each
      walk ended, the requests each fetcher sent, and whether the tick counted as a success. */
  datatype TickRecord = TickRecord(at: int, from: int, earnings: WalkOutcome, runepool: WalkOutcome,
                                   depth: WalkOutcome, swaps: WalkOutcome, ok: bool,
                                   earningsSent: seq<Request>, runepoolSent: seq<Request>,
                                   depthSent: seq<Request>, swapsSent: seq<Request>)

  /** A fetcher returned `Ok(())`. */
  predicate Succeeded(o: WalkOutcome) {
    o == Done
  }

  /** The record of a tick, read off the walks the four fetchers make. */
  function Expected<RD, RS>(now: int, from: int, up: Upstream<RD, RS>): TickRecord {
    var e, p, d, s := Walk(from, up.earnings), Walk(from, up.runepool), Walk(from, up.depth), Walk(from, up.swaps);
    TickRecord(now, from, e.outcome, p.outcome, d.outcome, s.outcome,
               Succeeded(e.outcome) && Succeeded(p.outcome) && Succeeded(d.outcome) && Succeeded(s.outcome),
               RequestsOf(EarningsPath(), HourInterval, e.cursors),
               RequestsOf(RunePoolPath(), HourInterval, p.cursors),
               RequestsOf(DepthPath(DepthPool), HourInterval, d.cursors),
               RequestsOf(SwapsPath(), HourInterval, s.cursors))
  }

  /** The log a run of ticks leaves, tick `i` having fetched from `froms[i]`. */
  function ExpectedLog<RD, RS>(froms: seq<int>, ticks: seq<TickInput<RD, RS>>): (log: seq<TickRecord>)
    requires |froms| == |ticks|
    ensures |log| == |ticks|
  {
    if ticks == [] then []
    else
      var n := |ticks| - 1;
      ExpectedLog(froms[..n], ticks[..n]) + [Expected(ticks[n].now, froms[n], ticks[n].upstream)]
  }

  lemma ExpectedLogSnoc<RD, RS>(froms: seq<int>, ticks: seq<TickInput<RD, RS>>, k: nat)
    requires |froms| == |ticks| && k < |ticks|
    ensures ExpectedLog(froms[..k + 1], ticks[..k + 1])
         == ExpectedLog(froms[..k], ticks[..k]) + [Expected(ticks[k].now, froms[k], ticks[k].upstream)]
  {
    assert froms[..k + 1][..k] == froms[..k];
    assert ticks[..k + 1][..k] == ticks[..k];
  }

  /** Entry `i` of the log is tick `i`: its clock reading, its `from`, and how the four walks
      from that `from` ended. */
  lemma ExpectedLogAt<RD, RS>(froms: seq<int>, ticks: seq<TickInput<RD, RS>>, i: nat)
    requires |froms| == |ticks| && i < |ticks|
    ensures var r := ExpectedLog(froms, ticks)[i];
      && r.at == ticks[i].now && r.from == froms[i]
      && r.earnings == Walk(froms[i], ticks[i].upstream.earnings).outcome
      && r.runepool == Walk(froms[i], ticks[i].upstream.runepool).outcome
      && r.depth == Walk(froms[i], ticks[i].upstream.depth).outcome
      && r.swaps == Walk(froms[i], ticks[i].upstream.swaps).outcome
      && (r.ok <==> r.earnings == Done && r.runepool == Done && r.depth == Done && r.swaps == Done)
      && r.earningsSent == RequestsOf(EarningsPath(), "hour", Walk(froms[i], ticks[i].upstream.earnings).cursors)
      && r.runepoolSent == RequestsOf(RunePoolPath(), "hour", Walk(froms[i], ticks[i].upstream.runepool).cursors)
      && r.depthSent == RequestsOf(DepthPath("BTC.BTC"), "hour", Walk(froms[i], ticks[i].upstream.depth).cursors)
      && r.swapsSent == RequestsOf(SwapsPath(), "hour", Walk(froms[i], ticks[i].upstream.swaps).cursors)
  {
    ExpectedLogEntry(froms, ticks, i);
  }

  lemma {:induction false} ExpectedLogEntry<RD, RS>(froms: seq<int>, ticks: seq<TickInput<RD, RS>>, i: nat)
    requires |froms| == |ticks| && i < |ticks|
    ensures ExpectedLog(froms, ticks)[i] == Expected(ticks[i].now, froms[i], ticks[i].upstream)
    decreases |ticks|
  {
    var n := |ticks| - 1;
    var front := ExpectedLog(froms[..n], ticks[..n]);
    assert ExpectedLog(froms, ticks) == front + [Expected(ticks[n].now, froms[n], ticks[n].upstream)];
    if i < n {
      ExpectedLogEntry(froms[..n], ticks[..n], i);
      assert froms[..n][i] == froms[i] && ticks[..n][i] == ticks[i];
    }
  }

  function Nows<RD, RS>(ticks: seq<TickInput<RD, RS>>): (nows: seq<int>)
    ensures |nows| == |ticks| && forall i :: 0 <= i < |ticks| ==> nows[i] == ticks[i].now
  {
    seq(|ticks|, i requires 0 <= i < |ticks| => ticks[i].now)
  }

  /** The `from` of every tick as written: the watermark is loaded once, before the loop. */
  function FromsAsWritten(watermark: int, n: nat): (froms: seq<int>)
    ensures |froms| == n
  {
    seq(n, _ => watermark)
  }

  /** The `from` of every tick when the watermark is loaded at the start of each tick: the
      first tick starts at the watermark, every later one where the previous tick began. */
  function FromsReloading(watermark: int, nows: seq<int>): (froms: seq<int>)
    ensures |froms| == |nows|
  {
    if nows == [] then [] else [watermark] + nows[..|nows| - 1]
  }

  /** As written, every tick starts from the same point, whatever the clock said before. */
  lemma AsWrittenNeverAdvances(watermark: int, n: nat, i: nat)
    requires i < n
    ensures FromsAsWritten(watermark, n)[i] == watermark
  {
  }

  /** Reloading the watermark each tick makes the ticks' windows meet: tick `i` starts where
      tick `i - 1` read the clock, so no stretch of time is skipped or walked twice. */
  lemma ReloadingIsContiguous(watermark: int, nows: seq<int>, i: nat)
    requires 0 < i < |nows|
    ensures FromsReloading(watermark, nows)[i] == nows[i - 1]
    ensures FromsReloading(watermark, nows)[0] == watermark
  {
    assert FromsReloading(watermark, nows)[i] == nows[..|nows| - 1][i - 1];
  }

  /** The watermark a reloading tick reads is the one `FromsReloading` gives that tick. */
  lemma ReloadedFrom<RD, RS>(watermark: int, ticks: seq<TickInput<RD, RS>>, k: nat, last: int)
    requires k < |ticks|
    requires last == if k == 0 then watermark else ticks[k - 1].now
    ensures last == FromsReloading(watermark, Nows(ticks))[k]
  {
    if k > 0 {
      ReloadingIsContiguous(watermark, Nows(ticks), k);
    }
  }

  /** Two ticks an hour apart from a fresh start: as written the second one walks from
      `INITIAL_START_TIME` again, where the evident intent is to walk from the first tick. */
  lemma SecondTickRewalks()
    ensures var nows := [InitialStartTime + 3600, InitialStartTime + 7200];
      FromsAsWritten(InitialStartTime, 2)[1] == InitialStartTime
      && FromsReloading(InitialStartTime, nows)[1] == InitialStartTime + 3600
      && FromsAsWritten(InitialStartTime, 2)[1] != FromsReloading(InitialStartTime, nows)[1]
  {
    ReloadingIsContiguous(InitialStartTime, [InitialStartTime + 3600, InitialStartTime + 7200], 1);
  }

  // ----- the collections across ticks -----

  /** What the five collections hold: their documents and their id counters. */
  datatype Stores = Stores(
    earnings: seq<Sample<EarningsValues>>, earningsNext: nat,
    pools: seq<PoolEarnings>, poolsNext: nat,
    runepool: seq<Sample<RunePoolValues>>, runepoolNext: nat,
    depth: seq<Sample<DepthValues>>, depthNext: nat,
    swaps: seq<Sample<SwapValues>>, swapsNext: nat)

  /**
   * The collections after a tick that fetched from `from`: each one is extended by what its
   * fetcher stores from the records its walk delivered, with ids that continue its counter;
   * the earnings summaries and their pools are stored parent first.
   */
  function AfterTick<RD, RS>(s: Stores, from: int, up: Upstream<RD, RS>, pf: string -> Option<real>,
                             depthConvert: (RD, nat) -> Option<Sample<DepthValues>>,
                             swapsConvert: (RS, nat) -> Option<Sample<SwapValues>>, ins: Inserts): Stores
  {
    var ivs := Concat(Walk(from, up.earnings).batches);
    var e := StoreEarnings(ivs, SourceSetup(SourceReaders(pf), ins.summary, ins.pool), s.earningsNext, s.poolsNext);
    var p, d, w := Concat(Walk(from, up.runepool).batches), Concat(Walk(from, up.depth).batches),
                   Concat(Walk(from, up.swaps).batches);
    Stores(s.earnings + e.parents, s.earningsNext + |ivs|,
           s.pools + e.pools, s.poolsNext + e.poolAttempts,
           s.runepool + Stored(p, RunePoolConvert(pf), ins.runepool, s.runepoolNext), s.runepoolNext + |p|,
           s.depth + Stored(d, depthConvert, ins.depth, s.depthNext), s.depthNext + |d|,
           s.swaps + Stored(w, swapsConvert, ins.swaps, s.swapsNext), s.swapsNext + |w|)
  }

  /** The collections after a run of ticks, tick `i` having fetched from `froms[i]`. */
  function AfterTicks<RD, RS>(s: Stores, froms: seq<int>, ticks: seq<TickInput<RD, RS>>, pf: string -> Option<real>,
                              depthConvert: (RD, nat) -> Option<Sample<DepthValues>>,
                              swapsConvert: (RS, nat) -> Option<Sample<SwapValues>>, ins: Inserts): Stores
    requires |froms| == |ticks|
  {
    if ticks == [] then s
    else
      var n := |ticks| - 1;
      AfterTick(AfterTicks(s, froms[..n], ticks[..n], pf, depthConvert, swapsConvert, ins),
                froms[n], ticks[n].upstream, pf, depthConvert, swapsConvert, ins)
  }

  lemma AfterTicksSnoc<RD, RS>(s: Stores, froms: seq<int>, ticks: seq<TickInput<RD, RS>>, k: nat,
                               pf: string -> Option<real>, depthConvert: (RD, nat) -> Option<Sample<DepthValues>>,
                               swapsConvert: (RS, nat) -> Option<Sample<SwapValues>>, ins: Inserts)
    requires |froms| == |ticks| && k < |ticks|
    ensures AfterTicks(s, froms[..k + 1], ticks[..k + 1], pf, depthConvert, swapsConvert, ins)
         == AfterTick(AfterTicks(s, froms[..k], ticks[..k], pf, depthConvert, swapsConvert, ins),
                      froms[k], ticks[k].upstream, pf, depthConvert, swapsConvert, ins)
  {
    assert froms[..k + 1][..k] == froms[..k];
    assert ticks[..k + 1][..k] == ticks[..k];
  }

  /** `a` is `b` with possibly more documents after it, in every collection. */
  predicate Extends(b: Stores, a: Stores) {
    b.earnings <= a.earnings && b.pools <= a.pools && b.runepool <= a.runepool
    && b.depth <= a.depth && b.swaps <= a.swaps
    && b.earningsNext <= a.earningsNext && b.poolsNext <= a.poolsNext && b.runepoolNext <= a.runepoolNext
    && b.depthNext <= a.depthNext && b.swapsNext <= a.swapsNext
  }

  /** Ticks only ever add documents: whatever the collections held before a run is still at
      their front afterwards, and no id counter goes back. */
  lemma {:induction false} AfterTicksExtends<RD, RS>(s: Stores, froms: seq<int>, ticks: seq<TickInput<RD, RS>>,
                                                     pf: string -> Option<real>,
                                                     depthConvert: (RD, nat) -> Option<Sample<DepthValues>>,
                                                     swapsConvert: (RS, nat) -> Option<Sample<SwapValues>>, ins: Inserts)
    requires |froms| == |ticks|
    ensures Extends(s, AfterTicks(s, froms, ticks, pf, depthConvert, swapsConvert, ins))
  {
    if ticks != [] {
      var n := |ticks| - 1;
      AfterTicksExtends(s, froms[..n], ticks[..n], pf, depthConvert, swapsConvert, ins);
    }
  }

  /**
   * The store-side effect of the loaded-once watermark: as written, the runepool documents
   * tick `i` adds are the conversions of the records walked from the initial watermark,
   * however many ticks came before, so every tick stores the history since that point again.
   */
  lemma AsWrittenTickRestores<RD, RS>(s: Stores, watermark: int, ticks: seq<TickInput<RD, RS>>, i: nat,
                                      pf: string -> Option<real>,
                                      depthConvert: (RD, nat) -> Option<Sample<DepthValues>>,
                                      swapsConvert: (RS, nat) -> Option<Sample<SwapValues>>, ins: Inserts)
    requires i < |ticks|
    ensures var froms := FromsAsWritten(watermark, |ticks|);
      var before := AfterTicks(s, froms[..i], ticks[..i], pf, depthConvert, swapsConvert, ins);
      var after := AfterTicks(s, froms[..i + 1], ticks[..i + 1], pf, depthConvert, swapsConvert, ins);
      after.runepool == before.runepool
        + Stored(Concat(Walk(watermark, ticks[i].upstream.runepool).batches), RunePoolConvert(pf), ins.runepool, before.runepoolNext)
      && after.depth == before.depth
        + Stored(Concat(Walk(watermark, ticks[i].upstream.depth).batches), depthConvert, ins.depth, before.depthNext)
      && after.swaps == before.swaps
        + Stored(Concat(Walk(watermark, ticks[i].upstream.swaps).batches), swapsConvert, ins.swaps, before.swapsNext)
  {
    var froms := FromsAsWritten(watermark, |ticks|);
    AfterTicksSnoc(s, froms, ticks, i, pf, depthConvert, swapsConvert, ins);
    AsWrittenNeverAdvances(watermark, |ticks|, i);
  }

  /** With the watermark reloaded each tick, the runepool documents tick `i` adds are the
      conversions of the records walked from the clock reading of tick `i - 1`. */
  lemma ReloadingTickStoresSinceLastTick<RD, RS>(s: Stores, watermark: int, ticks: seq<TickInput<RD, RS>>, i: nat,
                                                 pf: string -> Option<real>,
                                                 depthConvert: (RD, nat) -> Option<Sample<DepthValues>>,
                                                 swapsConvert: (RS, nat) -> Option<Sample<SwapValues>>, ins: Inserts)
    requires 0 < i < |ticks|
    ensures var froms := FromsReloading(watermark, Nows(ticks));
      var before := AfterTicks(s, froms[..i], ticks[..i], pf, depthConvert, swapsConvert, ins);
      var after := AfterTicks(s, froms[..i + 1], ticks[..i + 1], pf, depthConvert, swapsConvert, ins);
      after.runepool == before.runepool
        + Stored(Concat(Walk(ticks[i - 1].now, ticks[i].upstream.runepool).batches), RunePoolConvert(pf),
                 ins.runepool, before.runepoolNext)
  {
    var froms := FromsReloading(watermark, Nows(ticks));
    AfterTicksSnoc(s, froms, ticks, i, pf, depthConvert, swapsConvert, ins);
    ReloadingIsContiguous(watermark, Nows(ticks), i);
  }

  /** The task, with `LAST_EXECUTION_TIME` and the collections the fetchers write. */
  class HourlyFetch {
    /** `LAST_EXECUTION_TIME`. */
    var lastExecution: int
    /** The log of ticks. */
    var log: seq<TickRecord>
    const earnings: Collection<Sample<EarningsValues>>
    const earningsPools: Collection<PoolEarnings>
    const runepool: Collection<Sample<RunePoolValues>>
    const depth: Collection<Sample<DepthValues>>
    const swaps: Collection<Sample<SwapValues>>

    constructor(earnings: Collection<Sample<EarningsValues>>, earningsPools: Collection<PoolEarnings>,
                runepool: Collection<Sample<RunePoolValues>>, depth: Collection<Sample<DepthValues>>,
                swaps: Collection<Sample<SwapValues>>)
      ensures lastExecution == InitialStartTime && log == []
      ensures this.earnings == earnings && this.earningsPools == earningsPools && this.runepool == runepool
      ensures this.depth == depth && this.swaps == swaps
    {
      lastExecution := InitialStartTime;
      log := [];
      this.earnings, this.earningsPools, this.runepool, this.depth, this.swaps :=
        earnings, earningsPools, runepool, depth, swaps;
    }

    /** What the five collections hold. */
    function Contents(): Stores
      reads earnings, earningsPools, runepool, depth, swaps
    {
      Stores(earnings.docs, earnings.nextId, earningsPools.docs, earningsPools.nextId,
             runepool.docs, runepool.nextId, depth.docs, depth.nextId, swaps.docs, swaps.nextId)
    }

    /** The earnings fetcher of one tick, walking from `from` into the summaries and their pools. */
    method FetchEarningsPart<RD, RS>(from: int, up: Upstream<RD, RS>, pf: string -> Option<real>,
                                     depthConvert: (RD, nat) -> Option<Sample<DepthValues>>,
                                     swapsConvert: (RS, nat) -> Option<Sample<SwapValues>>, ins: Inserts)
      returns (e: WalkOutcome, eq: seq<Request>)
      modifies earnings, earningsPools
      ensures e == Walk(from, up.earnings).outcome
      ensures eq == RequestsOf(EarningsPath(), HourInterval, Walk(from, up.earnings).cursors)
      ensures var after := AfterTick(old(Contents()), from, up, pf, depthConvert, swapsConvert, ins);
        earnings.docs == after.earnings && earnings.nextId == after.earningsNext
        && earningsPools.docs == after.pools && earningsPools.nextId == after.poolsNext
    {
      ghost var c, eb;
      e, eq, c, eb := FetchEarningsHistory(earnings, earningsPools, HourInterval, from, up.earnings,
                                           pf, ins.summary, ins.pool);
      assert eb == Walk(from, up.earnings).batches;
    }

    /** The runepool, depth and swaps fetchers of one tick, each walking from `from` into its
        own collection. */
    method FetchSamplesPart<RD, RS>(from: int, up: Upstream<RD, RS>, pf: string -> Option<real>,
                                    depthConvert: (RD, nat) -> Option<Sample<DepthValues>>,
                                    swapsConvert: (RS, nat) -> Option<Sample<SwapValues>>, ins: Inserts)
      returns (p: WalkOutcome, d: WalkOutcome, s: WalkOutcome, pq: seq<Request>, dq: seq<Request>, sq: seq<Request>)
      modifies runepool, depth, swaps
      ensures p == Walk(from, up.runepool).outcome && d == Walk(from, up.depth).outcome
      ensures s == Walk(from, up.swaps).outcome
      ensures pq == RequestsOf(RunePoolPath(), HourInterval, Walk(from, up.runepool).cursors)
      ensures dq == RequestsOf(DepthPath(DepthPool), HourInterval, Walk(from, up.depth).cursors)
      ensures sq == RequestsOf(SwapsPath(), HourInterval, Walk(from, up.swaps).cursors)
      ensures var after := AfterTick(old(Contents()), from, up, pf, depthConvert, swapsConvert, ins);
        runepool.docs == after.runepool && runepool.nextId == after.runepoolNext
        && depth.docs == after.depth && depth.nextId == after.depthNext
        && swaps.docs == after.swaps && swaps.nextId == after.swapsNext
    {
      ghost var c, pb, db, sb;
      p, pq, c, pb := FetchRunePoolMembersUnitsHistory(runepool, HourInterval, from, up.runepool,
                                                       pf, ins.runepool);
      assert pb == Walk(from, up.runepool).batches;
      d, dq, c, db := FetchDepthPriceHistory(depth, DepthPool, HourInterval, from, up.depth,
                                             depthConvert, ins.depth);
      assert db == Walk(from, up.depth).batches;
      // The source calls the swaps fetcher without a pool; the pool passed here is ignored.
      s, sq, c, sb := FetchSwapsHistory(swaps, DepthPool, HourInterval, from, up.swaps,
                                        swapsConvert, ins.swaps);
      assert sb == Walk(from, up.swaps).batches;
    }

    /**
     * One turn of the loop: the four fetchers from `from` (joined, so all four run to their
     * end), success only when all four return `Ok`, and then the watermark set to the clock
     * reading `now` taken at the start of the tick, whether or not the tick succeeded.
     */
    method Tick<RD, RS>(now: int, from: int, up: Upstream<RD, RS>, pf: string -> Option<real>,
                        depthConvert: (RD, nat) -> Option<Sample<DepthValues>>,
                        swapsConvert: (RS, nat) -> Option<Sample<SwapValues>>, ins: Inserts)
      returns (ok: bool)
      modifies this, earnings, earningsPools, runepool, depth, swaps
      ensures log == old(log) + [Expected(now, from, up)]
      ensures ok == Expected(now, from, up).ok
      ensures lastExecution == now
      ensures Contents() == AfterTick(old(Contents()), from, up, pf, depthConvert, swapsConvert, ins)
    {
      ghost var after := AfterTick(Contents(), from, up, pf, depthConvert, swapsConvert, ins);
      var e, eq := FetchEarningsPart(from, up, pf, depthConvert, swapsConvert, ins);
      var p, d, s, pq, dq, sq := FetchSamplesPart(from, up, pf, depthConvert, swapsConvert, ins);
      assert Contents() == after;
      ok := Succeeded(e) && Succeeded(p) && Succeeded(d) && Succeeded(s);
      log := log + [TickRecord(now, from, e, p, d, s, ok, eq, pq, dq, sq)];
      lastExecution := now;
    }

    /**
     * The state after ticks `..k` of a run that began with log `origin`, collections `start`
     * and watermark `watermark`, tick `i` fetching from `froms[i]`: the log is `origin`
     * followed by the records of those ticks, the collections hold what they stored, and the
     * watermark is the clock reading of the last of them.
     */
    ghost predicate Ran<RD, RS>(origin: seq<TickRecord>, start: Stores, watermark: int, froms: seq<int>,
                                ticks: seq<TickInput<RD, RS>>, k: nat, pf: string -> Option<real>,
                                depthConvert: (RD, nat) -> Option<Sample<DepthValues>>,
                                swapsConvert: (RS, nat) -> Option<Sample<SwapValues>>, ins: Inserts)
      reads this, earnings, earningsPools, runepool, depth, swaps
    {
      |froms| == |ticks| && k <= |ticks|
      && log == origin + ExpectedLog(froms[..k], ticks[..k])
      && Contents() == AfterTicks(start, froms[..k], ticks[..k], pf, depthConvert, swapsConvert, ins)
      && lastExecution == (if k == 0 then watermark else ticks[k - 1].now)
    }

    /** Tick `k` of a run whose ticks fetch from `froms`. */
    method TickAt<RD, RS>(ticks: seq<TickInput<RD, RS>>, ghost froms: seq<int>, k: nat, from: int,
                          ghost origin: seq<TickRecord>, ghost start: Stores, ghost watermark: int,
                          pf: string -> Option<real>, depthConvert: (RD, nat) -> Option<Sample<DepthValues>>,
                          swapsConvert: (RS, nat) -> Option<Sample<SwapValues>>, ins: Inserts)
      modifies this, earnings, earningsPools, runepool, depth, swaps
      requires k < |ticks| == |froms| && from == froms[k]
      requires Ran(origin, start, watermark, froms, ticks, k, pf, depthConvert, swapsConvert, ins)
      ensures Ran(origin, start, watermark, froms, ticks, k + 1, pf, depthConvert, swapsConvert, ins)
    {
      ExpectedLogSnoc(froms, ticks, k);
      AfterTicksSnoc(start, froms, ticks, k, pf, depthConvert, swapsConvert, ins);
      AppendAssoc(origin, ExpectedLog(froms[..k], ticks[..k]), [Expected(ticks[k].now, from, ticks[k].upstream)]);
      var _ := Tick(ticks[k].now, from, ticks[k].upstream, pf, depthConvert, swapsConvert, ins);
    }

    /**
     * `start_hourly_data_fetch` as written: nothing happens when the schedule does not parse;
     * otherwise the watermark is read once, before the loop, and every tick fetches from
     * that value although each tick stores a new one.
     */
    method Start<RD, RS>(scheduleParsed: bool, ticks: seq<TickInput<RD, RS>>, pf: string -> Option<real>,
                         depthConvert: (RD, nat) -> Option<Sample<DepthValues>>,
                         swapsConvert: (RS, nat) -> Option<Sample<SwapValues>>, ins: Inserts)
      modifies this, earnings, earningsPools, runepool, depth, swaps
      ensures !scheduleParsed ==> log == old(log) && lastExecution == old(lastExecution) && Contents() == old(Contents())
      ensures scheduleParsed ==>
        && log == old(log) + ExpectedLog(FromsAsWritten(old(lastExecution), |ticks|), ticks)
        && lastExecution == (if ticks == [] then old(lastExecution) else ticks[|ticks| - 1].now)
        && Contents() == AfterTicks(old(Contents()), FromsAsWritten(old(lastExecution), |ticks|), ticks, pf, depthConvert, swapsConvert, ins)
    {
      if !scheduleParsed {
        return;
      }
      var lastExec := lastExecution;
      ghost var origin, start := log, Contents();
      ghost var froms := FromsAsWritten(lastExec, |ticks|);
      var k := 0;
      while k < |ticks|
        invariant 0 <= k <= |ticks|
        invariant Ran(origin, start, lastExec, froms, ticks, k, pf, depthConvert, swapsConvert, ins)
      {
        AsWrittenNeverAdvances(lastExec, |ticks|, k);
        TickAt(ticks, froms, k, lastExec, origin, start, lastExec, pf, depthConvert, swapsConvert, ins);
        k := k + 1;
      }
      assert froms[..k] == froms && ticks[..k] == ticks;
    }

    /** The loop with the watermark loaded at the start of every tick. */
    method StartReloading<RD, RS>(scheduleParsed: bool, ticks: seq<TickInput<RD, RS>>, pf: string -> Option<real>,
                                  depthConvert: (RD, nat) -> Option<Sample<DepthValues>>,
                                  swapsConvert: (RS, nat) -> Option<Sample<SwapValues>>, ins: Inserts)
      modifies this, earnings, earningsPools, runepool, depth, swaps
      ensures !scheduleParsed ==> log == old(log) && lastExecution == old(lastExecution) && Contents() == old(Contents())
      ensures scheduleParsed ==>
        && log == old(log) + ExpectedLog(FromsReloading(old(lastExecution), Nows(ticks)), ticks)
        && lastExecution == (if ticks == [] then old(lastExecution) else ticks[|ticks| - 1].now)
        && Contents() == AfterTicks(old(Contents()), FromsReloading(old(lastExecution), Nows(ticks)), ticks, pf, depthConvert, swapsConvert, ins)
    {
      if !scheduleParsed {
        return;
      }
      ghost var origin, start, watermark := log, Contents(), lastExecution;
      ghost var froms := FromsReloading(watermark, Nows(ticks));
      var k := 0;
      while k < |ticks|
        invariant 0 <= k <= |ticks|
        invariant Ran(origin, start, watermark, froms, ticks, k, pf, depthConvert, swapsConvert, ins)
      {
        var from := lastExecution;
        ReloadedFrom(watermark, ticks, k, from);
        TickAt(ticks, froms, k, from, origin, start, watermark, pf, depthConvert, swapsConvert, ins);
        k := k + 1;
      }
      assert froms[..k] == froms && ticks[..k] == ticks;
    }
  }
}
