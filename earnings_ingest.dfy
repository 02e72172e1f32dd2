/**
 * src/services/fetch_earnings_history.rs: the earnings walk and its `store_to_db`, which
 * builds each summary document leniently (a field that does not parse becomes 0), inserts
 * it, and only when that insert succeeds inserts one document per pool of the interval,
 * linked to the summary by its id.
 */
module EarningsIngest {
  import opened Wrappers
  import opened Text
  import opened Aggregation
  import opened Records
  import opened Store
  import opened Walker

  /** One pool entry of an upstream interval, all strings. */
  datatype PoolRaw = PoolRaw(
    pool: string, assetLiquidityFees: string, runeLiquidityFees: string,
    totalLiquidityFeesRune: string, saverEarning: string, rewards: string, earnings: string)

  /** One upstream earnings interval; `blockEarnings` and `runePriceUSD` may be missing. */
  datatype IntervalRaw = IntervalRaw(
    startTime: string, endTime: string, liquidityFees: string, blockRewards: string,
    blockEarnings: Option<string>, liquidityEarnings: string, avgNodeCount: string,
    runePriceUSD: Option<string>, pools: seq<PoolRaw>)

  /** The `parse_float` closure: blank input and malformed input both give 0.0. */
  function ParseFloat(s: string, pf: string -> Option<real>): (r: real)
    ensures r == 0.0 || (Trim(s) != [] && pf(Trim(s)) == Some(r))
    ensures Trim(s) != [] && pf(Trim(s)).Some? ==> r == pf(Trim(s)).value
  {
    if Trim(s) == [] then 0.0 else pf(Trim(s)).GetOr(0.0)
  }

  /** Whitespace-only input is read as zero, whatever the float parser would say. */
  lemma ParseFloatBlank(s: string, pf: string -> Option<real>)
    requires forall i :: 0 <= i < |s| ==> IsWhitespace(s[i])
    ensures ParseFloat(s, pf) == 0.0
  {
    TrimBlank(s);
  }

  /** `.trim().parse::<i64>().unwrap_or(0)`. */
  function ParseTime(s: string): (t: int)
    ensures InI64(t)
    ensures t == 0 || ParseI64(Trim(s)) == Some(t)
    ensures ParseI64(Trim(s)).Some? ==> t == ParseI64(Trim(s)).value
  {
    ParseI64(Trim(s)).GetOr(0)
  }

  /** Trimming before `parse_float`, as the summary request does for four fields, changes
      nothing: `parse_float` trims again. */
  lemma PreTrimHarmless(s: string, pf: string -> Option<real>)
    ensures ParseFloat(Trim(s), pf) == ParseFloat(s, pf)
  {
    TrimIdempotent(s);
  }

  /** The two lenient readers `store_to_db` applies to every field: `parse_float`, and the
      time parse falling back to 0. */
  datatype Readers = Readers(num: string -> real, time: string -> int)

  function SourceReaders(pf: string -> Option<real>): Readers {
    Readers((s: string) => ParseFloat(s, pf), (s: string) => ParseTime(s))
  }

  /** The `EarningsHistory` document built for an interval, with id `id`; the two optional
      fields default to the empty string. */
  function ParentDoc(iv: IntervalRaw, id: nat, rd: Readers): Sample<EarningsValues> {
    Sample(id, None, rd.time(iv.startTime), rd.time(iv.endTime),
           EarningsValues(
             blockRewards := rd.num(iv.blockRewards),
             avgNodeCount := rd.num(iv.avgNodeCount),
             bondingEarnings := rd.num(iv.blockEarnings.GetOr("")),
             liquidityEarnings := rd.num(iv.liquidityEarnings),
             liquidityFees := rd.num(iv.liquidityFees),
             runePriceUSD := rd.num(iv.runePriceUSD.GetOr(""))))
  }

  /** A missing `blockEarnings` or `runePriceUSD` is stored as 0. */
  lemma MissingOptionalsAreZero(iv: IntervalRaw, id: nat, pf: string -> Option<real>)
    ensures iv.blockEarnings.None? ==> ParentDoc(iv, id, SourceReaders(pf)).values.bondingEarnings == 0.0
    ensures iv.runePriceUSD.None? ==> ParentDoc(iv, id, SourceReaders(pf)).values.runePriceUSD == 0.0
  {
    ParseFloatBlank("", pf);
  }

  /** The `EarningsHistoryPools` document for one pool of `iv`: the pool name as sent (not
      trimmed), the fees read leniently, the times of the interval, the parent's id. */
  function PoolDoc(p: PoolRaw, iv: IntervalRaw, parentId: nat, id: nat, rd: Readers): PoolEarnings {
    PoolEarnings(id, p.pool,
                 rd.num(p.assetLiquidityFees), rd.num(p.runeLiquidityFees),
                 rd.num(p.totalLiquidityFeesRune), rd.num(p.saverEarning), rd.num(p.rewards),
                 rd.time(iv.startTime), rd.time(iv.endTime), parentId)
  }

  /** The document builders `store_to_db` uses, as values, so that the batch can be
      described for any builders that link children to parents the same way. */
  function ParentBuilder(rd: Readers): (IntervalRaw, nat) -> Sample<EarningsValues> {
    (iv: IntervalRaw, id: nat) => ParentDoc(iv, id, rd)
  }

  function PoolBuilder(rd: Readers): (PoolRaw, IntervalRaw, nat, nat) -> PoolEarnings {
    (p: PoolRaw, iv: IntervalRaw, parentId: nat, id: nat) => PoolDoc(p, iv, parentId, id, rd)
  }

  /** A child built for parent id `pid` names `pid` and carries the parent's times. */
  ghost predicate Linked(parent: (IntervalRaw, nat) -> Sample<EarningsValues>,
                   child: (PoolRaw, IntervalRaw, nat, nat) -> PoolEarnings) {
    (forall iv, id :: parent(iv, id).id == id)
    && (forall p, iv, pid, id ::
          child(p, iv, pid, id).earningsSummaryId == pid
          && child(p, iv, pid, id).startTime == parent(iv, pid).startTime
          && child(p, iv, pid, id).endTime == parent(iv, pid).endTime)
  }

  /** The builders of fetch_earnings_history.rs link pools to their summary. */
  lemma BuildersLinked(rd: Readers)
    ensures Linked(ParentBuilder(rd), PoolBuilder(rd))
  {
  }

  /** The pool conversion never fails. */
  function PoolConvert(child: (PoolRaw, IntervalRaw, nat, nat) -> PoolEarnings, iv: IntervalRaw, parentId: nat)
    : (PoolRaw, nat) -> Option<PoolEarnings>
  {
    (p: PoolRaw, id: nat) => Some(child(p, iv, parentId, id))
  }

  /** The builders and the server's answers to the two kinds of insert. */
  datatype Setup = Setup(parent: (IntervalRaw, nat) -> Sample<EarningsValues>,
                         child: (PoolRaw, IntervalRaw, nat, nat) -> PoolEarnings,
                         acceptParent: nat -> bool, acceptPool: nat -> bool)

  /** The setup of fetch_earnings_history.rs. */
  function SourceSetup(rd: Readers, acceptParent: nat -> bool, acceptPool: nat -> bool): Setup {
    Setup(ParentBuilder(rd), PoolBuilder(rd), acceptParent, acceptPool)
  }

  /** What an earnings batch leaves behind, and how many pool ids it used. */
  datatype EarningsStored = EarningsStored(parents: seq<Sample<EarningsValues>>, pools: seq<PoolEarnings>, poolAttempts: nat)

  /** One interval with summary id `id`: the summary is kept when its insert is accepted, and
      only then are its pools stored, with the next pool ids after `poolBase`. */
  function StoreStep(prev: EarningsStored, st: Setup, iv: IntervalRaw, id: nat, poolBase: nat): EarningsStored
  {
    if st.acceptParent(id) then
      EarningsStored(prev.parents + [st.parent(iv, id)],
                     prev.pools + Stored(iv.pools, PoolConvert(st.child, iv, id), st.acceptPool, poolBase + prev.poolAttempts),
                     prev.poolAttempts + |iv.pools|)
    else prev
  }

  /** An accepted summary under the walker's builders: the summary is `ParentDoc` and the pools
      are built by `PoolDoc`. */
  lemma SourceStepAccepted(before: EarningsStored, rd: Readers, acceptParent: nat -> bool, acceptPool: nat -> bool,
                           iv: IntervalRaw, id: nat, poolBase: nat)
    requires acceptParent(id)
    ensures StoreStep(before, SourceSetup(rd, acceptParent, acceptPool), iv, id, poolBase)
         == EarningsStored(before.parents + [ParentDoc(iv, id, rd)],
                           before.pools + Stored(iv.pools, PoolConvert(PoolBuilder(rd), iv, id), acceptPool,
                                                 poolBase + before.poolAttempts),
                           before.poolAttempts + |iv.pools|)
  {
  }

  /** `store_to_db` on the intervals `ivs`: interval `i` gets summary id `parentBase + i`,
      whether or not its insert is accepted. */
  function StoreEarnings(ivs: seq<IntervalRaw>, st: Setup, parentBase: nat, poolBase: nat): EarningsStored
    decreases |ivs|
  {
    if ivs == [] then EarningsStored([], [], 0)
    else
      var n := |ivs| - 1;
      StoreStep(StoreEarnings(ivs[..n], st, parentBase, poolBase), st, ivs[n], parentBase + n, poolBase)
  }

  lemma StoreEarningsSnoc(ivs: seq<IntervalRaw>, st: Setup, parentBase: nat, poolBase: nat, i: nat)
    requires i < |ivs|
    ensures StoreEarnings(ivs[..i + 1], st, parentBase, poolBase)
         == StoreStep(StoreEarnings(ivs[..i], st, parentBase, poolBase), st, ivs[i], parentBase + i, poolBase)
  {
    assert ivs[..i + 1][..i] == ivs[..i];
  }

  /** Every stored summary is the document built for one of the intervals, under the id that
      interval was given, and that id was accepted. */
  lemma {:induction false} ParentsComeFromIntervals(ivs: seq<IntervalRaw>, st: Setup, parentBase: nat, poolBase: nat,
                                                    d: Sample<EarningsValues>)
    requires d in StoreEarnings(ivs, st, parentBase, poolBase).parents
    ensures exists i :: (0 <= i < |ivs| && st.acceptParent(parentBase + i) && d == st.parent(ivs[i], parentBase + i))
  {
    var n := |ivs| - 1;
    var prev := StoreEarnings(ivs[..n], st, parentBase, poolBase);
    if d in prev.parents {
      ParentsComeFromIntervals(ivs[..n], st, parentBase, poolBase, d);
      var i :| 0 <= i < n && st.acceptParent(parentBase + i) && d == st.parent(ivs[..n][i], parentBase + i);
      assert ivs[..n][i] == ivs[i];
    }
  }

  /**
   * Pools are inserted only under a summary that was inserted: every stored pool document
   * names a stored summary by id, and carries that summary's start and end time.
   */
  lemma {:induction false} PoolsHaveParents(ivs: seq<IntervalRaw>, st: Setup, parentBase: nat, poolBase: nat,
                                            d: PoolEarnings)
    requires Linked(st.parent, st.child)
    requires d in StoreEarnings(ivs, st, parentBase, poolBase).pools
    ensures exists p :: (p in StoreEarnings(ivs, st, parentBase, poolBase).parents
                         && p.id == d.earningsSummaryId && p.startTime == d.startTime && p.endTime == d.endTime)
  {
    var b := StoreEarnings(ivs, st, parentBase, poolBase);
    var n := |ivs| - 1;
    var prev := StoreEarnings(ivs[..n], st, parentBase, poolBase);
    var id := parentBase + n;
    assert b == StoreStep(prev, st, ivs[n], id, poolBase);
    if d in prev.pools {
      PoolsHaveParents(ivs[..n], st, parentBase, poolBase, d);
      var p :| p in prev.parents && p.id == d.earningsSummaryId && p.startTime == d.startTime && p.endTime == d.endTime;
      assert p in b.parents;
    } else {
      StepPoolHasParent(prev, st, ivs[n], id, poolBase, d);
    }
  }

  /** A pool document added by one interval's step names that interval's summary. */
  lemma StepPoolHasParent(prev: EarningsStored, st: Setup, iv: IntervalRaw, id: nat, poolBase: nat, d: PoolEarnings)
    requires Linked(st.parent, st.child)
    requires d in StoreStep(prev, st, iv, id, poolBase).pools && d !in prev.pools
    ensures exists p :: (p in StoreStep(prev, st, iv, id, poolBase).parents
                         && p.id == d.earningsSummaryId && p.startTime == d.startTime && p.endTime == d.endTime)
  {
    var b := StoreStep(prev, st, iv, id, poolBase);
    var base := poolBase + prev.poolAttempts;
    var conv := PoolConvert(st.child, iv, id);
    var kids := Stored(iv.pools, conv, st.acceptPool, base);
    assert st.acceptParent(id) && b.pools == prev.pools + kids && b.parents == prev.parents + [st.parent(iv, id)];
    assert d in kids;
    StoredComesFromRecords(iv.pools, conv, st.acceptPool, base, d);
    var i :| 0 <= i < |iv.pools| && st.acceptPool(base + i) && conv(iv.pools[i], base + i) == Some(d);
    var p := st.parent(iv, id);
    assert d == st.child(iv.pools[i], iv, id, base + i);
    assert p.id == d.earningsSummaryId && p.startTime == d.startTime && p.endTime == d.endTime;
    assert p in b.parents;
  }

  /** The number of pools in a batch. */
  function TotalPools(ivs: seq<IntervalRaw>): nat {
    if ivs == [] then 0 else TotalPools(ivs[..|ivs| - 1]) + |ivs[|ivs| - 1].pools|
  }

  /** When every insert is accepted, every interval and every pool is stored. */
  lemma {:induction false} AllAcceptedStoresAll(ivs: seq<IntervalRaw>, st: Setup, parentBase: nat, poolBase: nat)
    requires forall id :: st.acceptParent(id) && st.acceptPool(id)
    ensures var b := StoreEarnings(ivs, st, parentBase, poolBase);
      |b.parents| == |ivs| && b.poolAttempts == TotalPools(ivs) && |b.pools| == TotalPools(ivs)
  {
    if ivs != [] {
      var n := |ivs| - 1;
      AllAcceptedStoresAll(ivs[..n], st, parentBase, poolBase);
      var prev := StoreEarnings(ivs[..n], st, parentBase, poolBase);
      var conv := PoolConvert(st.child, ivs[n], parentBase + n);
      forall i | 0 <= i < |ivs[n].pools|
        ensures Succeeds(ivs[n].pools[i], poolBase + prev.poolAttempts + i, conv, st.acceptPool)
      {
      }
      StoredAllWhenAllSucceed(ivs[n].pools, conv, st.acceptPool, poolBase + prev.poolAttempts);
    }
  }

  /** A summary whose times do not parse is still stored, with 0 for those times. */
  lemma BadTimesStillStored(iv: IntervalRaw, pf: string -> Option<real>, acceptParent: nat -> bool,
                            acceptPool: nat -> bool, parentBase: nat, poolBase: nat)
    requires acceptParent(parentBase)
    requires ParseI64(Trim(iv.startTime)).None? && ParseI64(Trim(iv.endTime)).None?
    ensures var b := StoreEarnings([iv], SourceSetup(SourceReaders(pf), acceptParent, acceptPool), parentBase, poolBase);
      |b.parents| == 1 && b.parents[0].startTime == 0 && b.parents[0].endTime == 0
  {
    assert [iv][..0] == [];
  }

  /** An accepted summary is stored with its parsed times, and every pool stored under it
      carries the same times. */
  lemma ParsedTimesStored(iv: IntervalRaw, pf: string -> Option<real>, acceptParent: nat -> bool,
                          acceptPool: nat -> bool, parentBase: nat, poolBase: nat)
    requires acceptParent(parentBase)
    ensures var b := StoreEarnings([iv], SourceSetup(SourceReaders(pf), acceptParent, acceptPool), parentBase, poolBase);
      |b.parents| == 1
      && (ParseI64(Trim(iv.startTime)).Some? ==> b.parents[0].startTime == ParseI64(Trim(iv.startTime)).value)
      && (ParseI64(Trim(iv.endTime)).Some? ==> b.parents[0].endTime == ParseI64(Trim(iv.endTime)).value)
      && forall d :: d in b.pools ==> d.startTime == b.parents[0].startTime && d.endTime == b.parents[0].endTime
  {
    var rd := SourceReaders(pf);
    var st := SourceSetup(rd, acceptParent, acceptPool);
    var none := EarningsStored([], [], 0);
    assert [iv][..0] == [];
    assert StoreEarnings([iv], st, parentBase, poolBase) == StoreStep(none, st, iv, parentBase, poolBase);
    SourceStepAccepted(none, rd, acceptParent, acceptPool, iv, parentBase, poolBase);
    PoolTimesAreParentTimes(iv, rd, acceptPool, parentBase, poolBase);
  }

  /** The pools stored for an interval carry the interval's times, read as the summary's are. */
  lemma PoolTimesAreParentTimes(iv: IntervalRaw, rd: Readers, acceptPool: nat -> bool, parentId: nat, base: nat)
    ensures forall d: PoolEarnings :: d in Stored(iv.pools, PoolConvert(PoolBuilder(rd), iv, parentId), acceptPool, base) ==>
      d.startTime == rd.time(iv.startTime) && d.endTime == rd.time(iv.endTime)
  {
    var conv := PoolConvert(PoolBuilder(rd), iv, parentId);
    forall d: PoolEarnings | d in Stored(iv.pools, conv, acceptPool, base)
      ensures d.startTime == rd.time(iv.startTime) && d.endTime == rd.time(iv.endTime)
    {
      StoredComesFromRecords(iv.pools, conv, acceptPool, base, d);
      var i :| 0 <= i < |iv.pools| && acceptPool(base + i) && conv(iv.pools[i], base + i) == Some(d);
      assert d == PoolDoc(iv.pools[i], iv, parentId, base + i, rd);
    }
  }

  /** Pools whose parent insert was refused are never attempted. */
  lemma RefusedParentSkipsPools(iv: IntervalRaw, st: Setup, parentBase: nat, poolBase: nat)
    requires !st.acceptParent(parentBase)
    ensures var b := StoreEarnings([iv], st, parentBase, poolBase);
      b.parents == [] && b.pools == [] && b.poolAttempts == 0
  {
    assert [iv][..0] == [];
  }

  /** Two consecutive batches' worth of stored documents. */
  function Join(x: EarningsStored, y: EarningsStored): EarningsStored {
    EarningsStored(x.parents + y.parents, x.pools + y.pools, x.poolAttempts + y.poolAttempts)
  }

  lemma JoinNothing(x: EarningsStored)
    ensures Join(x, EarningsStored([], [], 0)) == x
  {
    assert x.parents + [] == x.parents && x.pools + [] == x.pools;
  }

  lemma StoreStepJoin(x: EarningsStored, y: EarningsStored, st: Setup, iv: IntervalRaw, id: nat, poolBase: nat)
    ensures StoreStep(Join(x, y), st, iv, id, poolBase) == Join(x, StoreStep(y, st, iv, id, poolBase + x.poolAttempts))
  {
    if st.acceptParent(id) {
      assert x.parents + y.parents + [st.parent(iv, id)] == x.parents + (y.parents + [st.parent(iv, id)]);
      var kids := Stored(iv.pools, PoolConvert(st.child, iv, id), st.acceptPool, poolBase + x.poolAttempts + y.poolAttempts);
      assert x.pools + y.pools + kids == x.pools + (y.pools + kids);
    }
  }

  /** Documents already in the collections, then `x`, then `y`, are the documents already
      there followed by the two joined. */
  lemma JoinAfter(parentsOrigin: seq<Sample<EarningsValues>>, poolsOrigin: seq<PoolEarnings>,
                  x: EarningsStored, y: EarningsStored)
    ensures parentsOrigin + x.parents + y.parents == parentsOrigin + Join(x, y).parents
    ensures poolsOrigin + x.pools + y.pools == poolsOrigin + Join(x, y).pools
  {
  }

  /** The last interval of a non-empty batch is stored after the others. */
  lemma StoreEarningsLast(ivs: seq<IntervalRaw>, st: Setup, parentBase: nat, poolBase: nat)
    requires ivs != []
    ensures StoreEarnings(ivs, st, parentBase, poolBase)
         == StoreStep(StoreEarnings(ivs[..|ivs| - 1], st, parentBase, poolBase), st, ivs[|ivs| - 1],
                      parentBase + |ivs| - 1, poolBase)
  {
  }

  /** The last interval of `a + b` is the last interval of `b`, stored after `a` and the
      rest of `b`. */
  lemma StoreEarningsSplitLast(a: seq<IntervalRaw>, b: seq<IntervalRaw>, st: Setup, parentBase: nat, poolBase: nat)
    requires b != []
    ensures StoreEarnings(a + b, st, parentBase, poolBase)
         == StoreStep(StoreEarnings(a + b[..|b| - 1], st, parentBase, poolBase), st, b[|b| - 1],
                      parentBase + |a| + |b| - 1, poolBase)
  {
    var ab := a + b;
    assert ab[..|ab| - 1] == a + b[..|b| - 1];
    assert ab[|ab| - 1] == b[|b| - 1];
    assert parentBase + |ab| - 1 == parentBase + |a| + |b| - 1;
    StoreEarningsLast(ab, st, parentBase, poolBase);
  }

  /** The step of `StoreEarningsAppend` from `b` without its last interval to `b`. */
  lemma StoreEarningsAppendLast(a: seq<IntervalRaw>, b: seq<IntervalRaw>, st: Setup, parentBase: nat, poolBase: nat,
                                x: EarningsStored)
    requires b != []
    requires x == StoreEarnings(a, st, parentBase, poolBase)
    requires StoreEarnings(a + b[..|b| - 1], st, parentBase, poolBase)
          == Join(x, StoreEarnings(b[..|b| - 1], st, parentBase + |a|, poolBase + x.poolAttempts))
    ensures StoreEarnings(a + b, st, parentBase, poolBase)
         == Join(x, StoreEarnings(b, st, parentBase + |a|, poolBase + x.poolAttempts))
  {
    var n := |b| - 1;
    var y := StoreEarnings(b[..n], st, parentBase + |a|, poolBase + x.poolAttempts);
    StoreEarningsSplitLast(a, b, st, parentBase, poolBase);
    StoreEarningsLast(b, st, parentBase + |a|, poolBase + x.poolAttempts);
    StepAfterJoin(StoreEarnings(a + b, st, parentBase, poolBase), StoreEarnings(a + b[..n], st, parentBase, poolBase),
                  x, y, StoreEarnings(b, st, parentBase + |a|, poolBase + x.poolAttempts),
                  st, b[n], parentBase + |a| + n, poolBase);
  }

  /** One step after a joined state is the first part joined with the step taken after the
      second part, the pool ids carrying on after the first part's. */
  lemma StepAfterJoin(whole: EarningsStored, prefix: EarningsStored, x: EarningsStored, y: EarningsStored,
                      full: EarningsStored, st: Setup, iv: IntervalRaw, id: nat, poolBase: nat)
    requires whole == StoreStep(prefix, st, iv, id, poolBase) && prefix == Join(x, y)
    requires full == StoreStep(y, st, iv, id, poolBase + x.poolAttempts)
    ensures whole == Join(x, full)
  {
    StoreStepJoin(x, y, st, iv, id, poolBase);
  }

  /**
   * Storing two batches one after the other is storing their concatenation: with `x` what
   * the first batch leaves, summary ids and pool ids of the second carry on where the first
   * left them.
   */
  lemma {:induction false} StoreEarningsAppend(a: seq<IntervalRaw>, b: seq<IntervalRaw>, st: Setup,
                                               parentBase: nat, poolBase: nat, x: EarningsStored)
    requires x == StoreEarnings(a, st, parentBase, poolBase)
    ensures StoreEarnings(a + b, st, parentBase, poolBase)
         == Join(x, StoreEarnings(b, st, parentBase + |a|, poolBase + x.poolAttempts))
    decreases |b|
  {
    if b == [] {
      assert a + b == a;
      assert StoreEarnings(b, st, parentBase + |a|, poolBase + x.poolAttempts) == EarningsStored([], [], 0);
      JoinNothing(x);
    } else {
      StoreEarningsAppend(a, b[..|b| - 1], st, parentBase, poolBase, x);
      StoreEarningsAppendLast(a, b, st, parentBase, poolBase, x);
    }
  }

  // ----- the methods -----

  /** The collections hold `s` after their original documents, and the pool ids used so far
      are those of `s`. */
  ghost predicate HoldsStep(parents: Collection<Sample<EarningsValues>>, pools: Collection<PoolEarnings>,
                            s: EarningsStored, parentsOrigin: seq<Sample<EarningsValues>>,
                            poolsOrigin: seq<PoolEarnings>, poolBase: nat)
    reads parents, pools
  {
    parents.docs == parentsOrigin + s.parents && pools.docs == poolsOrigin + s.pools
    && pools.nextId == poolBase + s.poolAttempts
  }

  /** The pools of an interval whose summary was inserted under `id`. */
  method StorePools(pools: Collection<PoolEarnings>, iv: IntervalRaw, id: nat, rd: Readers, acceptPool: nat -> bool,
                    ghost poolsOrigin: seq<PoolEarnings>, ghost earlier: seq<PoolEarnings>, ghost poolBase: nat,
                    ghost attempts: nat, ghost kids: seq<PoolEarnings>)
    returns (poolsOk: nat, poolsFailed: nat)
    modifies pools
    requires pools.docs == poolsOrigin + earlier && pools.nextId == poolBase + attempts
    requires kids == Stored(iv.pools, PoolConvert(PoolBuilder(rd), iv, id), acceptPool, poolBase + attempts)
    ensures pools.docs == poolsOrigin + (earlier + kids)
    ensures pools.nextId == poolBase + (attempts + |iv.pools|)
    ensures poolsOk == |kids| && poolsOk + poolsFailed == |iv.pools|
  {
    poolsOk, poolsFailed := StoreToDb(pools, iv.pools, PoolConvert(PoolBuilder(rd), iv, id), acceptPool);
    AppendAssoc(poolsOrigin, earlier, kids);
  }

  /** One turn of the batch loop: build and insert the summary, then, only if that insert
      succeeded, insert the interval's pools under the summary's id. */
  method StoreInterval(parents: Collection<Sample<EarningsValues>>, pools: Collection<PoolEarnings>,
                       iv: IntervalRaw, rd: Readers, acceptParent: nat -> bool, acceptPool: nat -> bool,
                       ghost before: EarningsStored, ghost parentsOrigin: seq<Sample<EarningsValues>>,
                       ghost poolsOrigin: seq<PoolEarnings>, ghost poolBase: nat)
    returns (ok: bool, poolsOk: nat, poolsFailed: nat)
    modifies parents, pools
    requires HoldsStep(parents, pools, before, parentsOrigin, poolsOrigin, poolBase)
    ensures var after := StoreStep(before, SourceSetup(rd, acceptParent, acceptPool), iv, old(parents.nextId), poolBase);
      && HoldsStep(parents, pools, after, parentsOrigin, poolsOrigin, poolBase)
      && ok == acceptParent(old(parents.nextId))
      && parents.nextId == old(parents.nextId) + 1
      && |after.parents| == |before.parents| + (if ok then 1 else 0)
      && |after.pools| == |before.pools| + poolsOk
      && poolsOk + poolsFailed == after.poolAttempts - before.poolAttempts
  {
    ghost var st := SourceSetup(rd, acceptParent, acceptPool);
    var id := parents.NewId();
    var summary := ParentDoc(iv, id, rd);
    ok := parents.InsertOne(summary, acceptParent(id));
    poolsOk, poolsFailed := 0, 0;
    if ok {
      ghost var kids := Stored(iv.pools, PoolConvert(PoolBuilder(rd), iv, id), acceptPool, poolBase + before.poolAttempts);
      poolsOk, poolsFailed := StorePools(pools, iv, id, rd, acceptPool, poolsOrigin, before.pools, poolBase,
                                         before.poolAttempts, kids);
      AppendAssoc(parentsOrigin, before.parents, [summary]);
      SourceStepAccepted(before, rd, acceptParent, acceptPool, iv, id, poolBase);
    }
  }

  /**
   * `store_to_db`: one summary per interval, always built; when its insert succeeds, one pool
   * document per pool of the interval. Four counters, none of which stops the batch. The
   * `parse_float` closure and the time parse are `rd` (the walker passes `SourceReaders`).
   */
  method EarningsStoreToDb(parents: Collection<Sample<EarningsValues>>, pools: Collection<PoolEarnings>,
                           ivs: seq<IntervalRaw>, rd: Readers,
                           acceptParent: nat -> bool, acceptPool: nat -> bool)
    returns (successCount: nat, errorCount: nat, poolsSuccess: nat, poolsError: nat)
    modifies parents, pools
    ensures var b := StoreEarnings(ivs, SourceSetup(rd, acceptParent, acceptPool), old(parents.nextId), old(pools.nextId));
      && parents.docs == old(parents.docs) + b.parents
      && pools.docs == old(pools.docs) + b.pools
      && parents.nextId == old(parents.nextId) + |ivs|
      && pools.nextId == old(pools.nextId) + b.poolAttempts
      && successCount == |b.parents| && successCount + errorCount == |ivs|
      && poolsSuccess == |b.pools| && poolsSuccess + poolsError == b.poolAttempts
  {
    successCount, errorCount, poolsSuccess, poolsError := 0, 0, 0, 0;
    ghost var st := SourceSetup(rd, acceptParent, acceptPool);
    ghost var parentBase, poolBase := parents.nextId, pools.nextId;
    ghost var done := EarningsStored([], [], 0);
    var i := 0;
    while i < |ivs|
      invariant 0 <= i <= |ivs|
      invariant done == StoreEarnings(ivs[..i], st, parentBase, poolBase)
      invariant HoldsStep(parents, pools, done, old(parents.docs), old(pools.docs), poolBase)
      invariant parents.nextId == parentBase + i
      invariant successCount == |done.parents| && successCount + errorCount == i
      invariant poolsSuccess == |done.pools| && poolsSuccess + poolsError == done.poolAttempts
    {
      StoreEarningsSnoc(ivs, st, parentBase, poolBase, i);
      var ok, s, e := StoreInterval(parents, pools, ivs[i], rd, acceptParent, acceptPool,
                                    done, old(parents.docs), old(pools.docs), poolBase);
      if ok {
        successCount := successCount + 1;
      } else {
        errorCount := errorCount + 1;
      }
      poolsSuccess, poolsError := poolsSuccess + s, poolsError + e;
      done := StoreStep(done, st, ivs[i], parentBase + i, poolBase);
      i := i + 1;
    }
    assert ivs[..|ivs|] == ivs;
  }

  /** The two collections hold, after what they held at the start, the documents of `ivs`
      stored from the ids they had at the start. */
  ghost predicate HoldsStored(parents: Collection<Sample<EarningsValues>>, pools: Collection<PoolEarnings>,
                              ivs: seq<IntervalRaw>, st: Setup, parentsOrigin: seq<Sample<EarningsValues>>,
                              poolsOrigin: seq<PoolEarnings>, parentBase: nat, poolBase: nat)
    reads parents, pools
  {
    var e := StoreEarnings(ivs, st, parentBase, poolBase);
    && parents.docs == parentsOrigin + e.parents && pools.docs == poolsOrigin + e.pools
    && parents.nextId == parentBase + |ivs| && pools.nextId == poolBase + e.poolAttempts
  }

  /** `store_to_db` for one more page, stated over everything stored since the walk began. */
  method StoreEarningsBatch(parents: Collection<Sample<EarningsValues>>, pools: Collection<PoolEarnings>,
                            batch: seq<IntervalRaw>, rd: Readers, acceptParent: nat -> bool, acceptPool: nat -> bool,
                            ghost earlier: seq<seq<IntervalRaw>>, ghost parentsOrigin: seq<Sample<EarningsValues>>,
                            ghost poolsOrigin: seq<PoolEarnings>, ghost parentBase: nat, ghost poolBase: nat)
    modifies parents, pools
    requires HoldsStored(parents, pools, Concat(earlier), SourceSetup(rd, acceptParent, acceptPool),
                         parentsOrigin, poolsOrigin, parentBase, poolBase)
    ensures HoldsStored(parents, pools, Concat(earlier + [batch]), SourceSetup(rd, acceptParent, acceptPool),
                        parentsOrigin, poolsOrigin, parentBase, poolBase)
  {
    ghost var st := SourceSetup(rd, acceptParent, acceptPool);
    ghost var before := Concat(earlier);
    ConcatSnoc(earlier, batch);
    ghost var x := StoreEarnings(before, st, parentBase, poolBase);
    ghost var y := StoreEarnings(batch, st, parentBase + |before|, poolBase + x.poolAttempts);
    StoreEarningsAppend(before, batch, st, parentBase, poolBase, x);
    assert parents.docs == parentsOrigin + x.parents && pools.docs == poolsOrigin + x.pools;
    var _, _, _, _ := EarningsStoreToDb(parents, pools, batch, rd, acceptParent, acceptPool);
    JoinAfter(parentsOrigin, poolsOrigin, x, y);
    assert parents.docs == parentsOrigin + Join(x, y).parents && pools.docs == poolsOrigin + Join(x, y).pools;
  }

  /**
   * `fetch_earnings_history`: the shared walk over the earnings endpoint, with the earnings
   * `store_to_db` (and its `parse_float` over `pf`) for each page.
   */
  method FetchEarningsHistory(parents: Collection<Sample<EarningsValues>>, pools: Collection<PoolEarnings>,
                              interval: string, startTime: int, pages: seq<Exchange<IntervalRaw>>,
                              pf: string -> Option<real>, acceptParent: nat -> bool, acceptPool: nat -> bool)
    returns (outcome: WalkOutcome, requests: seq<Request>, ghost cursors: seq<int>, ghost batches: seq<seq<IntervalRaw>>)
    modifies parents, pools
    ensures Trace(outcome, cursors, batches) == Walk(startTime, pages)
    ensures requests == RequestsOf(EarningsPath(), interval, cursors)
    ensures HoldsStored(parents, pools, Concat(batches), SourceSetup(SourceReaders(pf), acceptParent, acceptPool),
                        old(parents.docs), old(pools.docs), old(parents.nextId), old(pools.nextId))
  {
    var rd := SourceReaders(pf);
    ghost var st := SourceSetup(rd, acceptParent, acceptPool);
    ghost var parentsOrigin, poolsOrigin := parents.docs, pools.docs;
    ghost var parentBase, poolBase := parents.nextId, pools.nextId;
    var current := startTime;
    var k := 0;
    requests, cursors, batches := [], [], [];
    JoinAfter(parentsOrigin, poolsOrigin, EarningsStored([], [], 0), EarningsStored([], [], 0));
    while k < |pages|
      invariant 0 <= k <= |pages|
      invariant Walk(startTime, pages) == Behind(cursors, batches, Walk(current, pages[k..]))
      invariant requests == RequestsOf(EarningsPath(), interval, cursors)
      invariant HoldsStored(parents, pools, Concat(batches), st, parentsOrigin, poolsOrigin, parentBase, poolBase)
      decreases |pages| - k
    {
      var x := pages[k];
      WalkAdvance(startTime, pages, k, current, cursors, batches);
      RequestsOfSnoc(EarningsPath(), interval, cursors, current);
      requests := requests + [Request(EarningsPath(), interval, current)];
      cursors := cursors + [current];
      if !Delivers(x) {
        outcome := Final(x);
        return;
      }
      var endTime := EndTimeOf(x);
      var batch := IntervalsOf(x);
      StoreEarningsBatch(parents, pools, batch, rd, acceptParent, acceptPool, batches,
                         parentsOrigin, poolsOrigin, parentBase, poolBase);
      batches := batches + [batch];
      if endTime >= x.now {
        outcome := Done;
        return;
      }
      current := endTime;
      k := k + 1;
    }
    outcome := OutOfFuel;
  }
}
