/**
 * The paging loop shared by the four `fetch_*` functions in src/services/: keep a cursor,
 * request a page of up to 400 intervals starting at it, stop on an empty page, parse the
 * page's `meta.endTime`, store the page, stop once that end time has reached the clock, and
 * otherwise continue from it.
 *
 * The network and the clock are oracles: `pages[j]` is what the j-th request returns
 * together with the clock reading taken after that page is stored. The length of `pages`
 * bounds the number of requests; running past it is the outcome `OutOfFuel`.
 */
module Walker {
  import opened Wrappers
  import opened Text
  import opened Store

  /** The part of a decoded page the loop uses. */
  datatype PageBody<R> = PageBody(metaEndTime: string, intervals: seq<R>)

  /** One request: unreachable (`reqwest::get` or `text()` failed), or a reply with its
      success status and, when the JSON decodes, its body. */
  datatype FetchResult<R> = Unreachable | Reply(success: bool, body: Option<PageBody<R>>)

  /** What the j-th request returned, and what `Utc::now` read right after it was handled. */
  datatype Exchange<R> = Exchange(reply: FetchResult<R>, now: int)

  datatype WalkError = Transport | BadStatus | BadJson | BadEndTime

  /** `Done` is the loop's `Ok(())`; `OutOfFuel` means the oracle ran out of replies. */
  datatype WalkOutcome = Done | Failed(error: WalkError) | OutOfFuel

  /** How a walk went: the `from` of every request made, and the batches handed to storage. */
  datatype Trace<R> = Trace(outcome: WalkOutcome, cursors: seq<int>, batches: seq<seq<R>>)

  /** A reply whose intervals are stored: non-empty and with a parsable `meta.endTime`. */
  predicate Delivers<R>(x: Exchange<R>) {
    x.reply.Reply? && x.reply.success && x.reply.body.Some?
    && x.reply.body.value.intervals != [] && ParseI64(x.reply.body.value.metaEndTime).Some?
  }

  function EndTimeOf<R>(x: Exchange<R>): int
    requires Delivers(x)
  {
    ParseI64(x.reply.body.value.metaEndTime).value
  }

  function IntervalsOf<R>(x: Exchange<R>): seq<R>
    requires Delivers(x)
  {
    x.reply.body.value.intervals
  }

  /** A stored reply after which the loop goes on: its end time is still before the clock. */
  predicate Continues<R>(x: Exchange<R>) {
    Delivers(x) && EndTimeOf(x) < x.now
  }

  /** The outcome of a single request that does not lead to another one. */
  function Final<R>(x: Exchange<R>): WalkOutcome {
    match x.reply
    case Unreachable => Failed(Transport)
    case Reply(ok, body) =>
      if !ok then Failed(BadStatus)
      else if body.None? then Failed(BadJson)
      else if body.value.intervals == [] then Done
      else if ParseI64(body.value.metaEndTime).None? then Failed(BadEndTime)
      else Done
  }

  /** The loop, from `cursor`, over the remaining replies. */
  function Walk<R>(cursor: int, pages: seq<Exchange<R>>): (t: Trace<R>)
    ensures |t.batches| <= |t.cursors| <= |pages|
    decreases |pages|
  {
    if pages == [] then Trace(OutOfFuel, [], [])
    else if !Delivers(pages[0]) then Trace(Final(pages[0]), [cursor], [])
    else if !Continues(pages[0]) then Trace(Done, [cursor], [IntervalsOf(pages[0])])
    else
      var rest := Walk(EndTimeOf(pages[0]), pages[1..]);
      Trace(rest.outcome, [cursor] + rest.cursors, [IntervalsOf(pages[0])] + rest.batches)
  }

  /** The first request is made at the cursor the walk starts from. */
  lemma WalkStartsAtCursor<R>(cursor: int, pages: seq<Exchange<R>>)
    requires pages != []
    ensures Walk(cursor, pages).cursors != [] && Walk(cursor, pages).cursors[0] == cursor
  {
  }

  /**
   * Each later request starts at the end time of the reply before it, and every reply but
   * the last stored its page and came back before the clock reached its end time.
   */
  lemma {:induction false} WalkCursorsFollowEndTimes<R>(cursor: int, pages: seq<Exchange<R>>)
    decreases |pages|
    ensures var t := Walk(cursor, pages);
      && (forall j :: 0 <= j < |t.cursors| - 1 ==> Continues(pages[j]))
      && (forall j :: 0 < j < |t.cursors| ==> Delivers(pages[j - 1]) && t.cursors[j] == EndTimeOf(pages[j - 1]))
  {
    if pages != [] && Continues(pages[0]) {
      var rest := Walk(EndTimeOf(pages[0]), pages[1..]);
      WalkCursorsFollowEndTimes(EndTimeOf(pages[0]), pages[1..]);
      var t := Walk(cursor, pages);
      forall j | 1 < j < |t.cursors|
        ensures Delivers(pages[j - 1]) && t.cursors[j] == EndTimeOf(pages[j - 1])
      {
        assert t.cursors[j] == rest.cursors[j - 1];
        assert pages[1..][j - 2] == pages[j - 1];
      }
      forall j | 0 < j < |t.cursors| - 1
        ensures Continues(pages[j])
      {
        assert pages[1..][j - 1] == pages[j];
      }
    }
  }

  /** The batches handed to storage are the intervals of the delivered replies, in order. */
  lemma {:induction false} WalkStoresDeliveredPages<R>(cursor: int, pages: seq<Exchange<R>>)
    decreases |pages|
    ensures var t := Walk(cursor, pages);
      forall j :: 0 <= j < |t.batches| ==> Delivers(pages[j]) && t.batches[j] == IntervalsOf(pages[j])
  {
    if pages != [] && Continues(pages[0]) {
      var rest := Walk(EndTimeOf(pages[0]), pages[1..]);
      WalkStoresDeliveredPages(EndTimeOf(pages[0]), pages[1..]);
      var t := Walk(cursor, pages);
      forall j | 0 < j < |t.batches|
        ensures Delivers(pages[j]) && t.batches[j] == IntervalsOf(pages[j])
      {
        assert t.batches[j] == rest.batches[j - 1];
        assert pages[1..][j - 1] == pages[j];
      }
    }
  }

  /**
   * How a walk ends: it runs out of replies only when every reply continued; otherwise its
   * last reply did not continue, and the outcome is Ok with that page stored when the reply
   * was delivered (its end time reached the clock), or is the reply's own outcome with
   * nothing of it stored (Ok on an empty page; Err on a transport failure, a bad status,
   * undecodable JSON or an unparsable end time).
   */
  lemma {:induction false} WalkEnding<R>(cursor: int, pages: seq<Exchange<R>>)
    decreases |pages|
    ensures var t := Walk(cursor, pages);
      && (t.outcome == OutOfFuel <==> |t.cursors| == |pages| && (pages == [] || Continues(pages[|pages| - 1])))
      && (t.outcome == OutOfFuel ==> |t.batches| == |t.cursors|)
      && (t.outcome != OutOfFuel ==>
            var last := pages[|t.cursors| - 1];
            && !Continues(last)
            && (Delivers(last) ==> t.outcome == Done && |t.batches| == |t.cursors|)
            && (!Delivers(last) ==> t.outcome == Final(last) && |t.batches| == |t.cursors| - 1))
  {
    if pages != [] && Continues(pages[0]) {
      var rest := Walk(EndTimeOf(pages[0]), pages[1..]);
      WalkEnding(EndTimeOf(pages[0]), pages[1..]);
      var t := Walk(cursor, pages);
      if rest.outcome != OutOfFuel {
        assert pages[1..][|rest.cursors| - 1] == pages[|t.cursors| - 1];
      } else if pages[1..] != [] {
        assert pages[1..][|pages[1..]| - 1] == pages[|pages| - 1];
      }
    }
  }

  /** A walk stays below the clock until its last request: every cursor after the first is
      the end time of a reply that came back before the clock caught up. */
  lemma WalkCursorsBelowClock<R>(cursor: int, pages: seq<Exchange<R>>, j: nat)
    requires 0 < j < |Walk(cursor, pages).cursors|
    ensures Walk(cursor, pages).cursors[j] < pages[j - 1].now
  {
    WalkCursorsFollowEndTimes(cursor, pages);
  }

  /** Extends a trace of the remaining walk with the requests and batches already made. */
  function Behind<R>(cursors: seq<int>, batches: seq<seq<R>>, t: Trace<R>): Trace<R> {
    Trace(t.outcome, cursors + t.cursors, batches + t.batches)
  }

  lemma BehindTwice<R>(c1: seq<int>, b1: seq<seq<R>>, c2: seq<int>, b2: seq<seq<R>>, t: Trace<R>)
    ensures Behind(c1, b1, Behind(c2, b2, t)) == Behind(c1 + c2, b1 + b2, t)
  {
    assert c1 + (c2 + t.cursors) == (c1 + c2) + t.cursors;
    assert b1 + (b2 + t.batches) == (b1 + b2) + t.batches;
  }

  /** One step of the loop, read off the definition of `Walk`. */
  lemma WalkStep<R>(cursor: int, pages: seq<Exchange<R>>)
    requires pages != []
    ensures !Delivers(pages[0]) ==> Walk(cursor, pages) == Trace(Final(pages[0]), [cursor], [])
    ensures Delivers(pages[0]) && !Continues(pages[0]) ==>
      Walk(cursor, pages) == Trace(Done, [cursor], [IntervalsOf(pages[0])])
    ensures Continues(pages[0]) ==>
      Walk(cursor, pages) == Behind([cursor], [IntervalsOf(pages[0])], Walk(EndTimeOf(pages[0]), pages[1..]))
  {
  }

  /** The loop's invariant carried past the reply at position `k`. */
  lemma WalkAdvance<R>(start: int, pages: seq<Exchange<R>>, k: nat, current: int,
                       cursors: seq<int>, batches: seq<seq<R>>)
    requires k < |pages|
    requires Walk(start, pages) == Behind(cursors, batches, Walk(current, pages[k..]))
    ensures !Delivers(pages[k]) ==> Walk(start, pages) == Trace(Final(pages[k]), cursors + [current], batches)
    ensures Delivers(pages[k]) && !Continues(pages[k]) ==>
      Walk(start, pages) == Trace(Done, cursors + [current], batches + [IntervalsOf(pages[k])])
    ensures Continues(pages[k]) ==>
      Walk(start, pages)
      == Behind(cursors + [current], batches + [IntervalsOf(pages[k])], Walk(EndTimeOf(pages[k]), pages[k + 1..]))
  {
    WalkStep(current, pages[k..]);
    assert pages[k..][0] == pages[k];
    assert batches + [] == batches;
    if Continues(pages[k]) {
      assert pages[k..][1..] == pages[k + 1..];
      BehindTwice(cursors, batches, [current], [IntervalsOf(pages[k])], Walk(EndTimeOf(pages[k]), pages[k + 1..]));
    }
  }

  /** Everything a walk hands to storage, in storage order. */
  function Concat<R>(batches: seq<seq<R>>): (all: seq<R>)
    ensures |batches| == 1 ==> all == batches[0]
  {
    if batches == [] then [] else Concat(batches[..|batches| - 1]) + batches[|batches| - 1]
  }

  lemma ConcatSnoc<R>(batches: seq<seq<R>>, b: seq<R>)
    ensures Concat(batches + [b]) == Concat(batches) + b
  {
    assert (batches + [b])[..|batches|] == batches;
  }

  /** Storing consecutive batches is storing their concatenation: each record takes the
      next id, whatever batch it arrived in. */
  lemma {:induction false} StoredAppend<R, D>(a: seq<R>, b: seq<R>, convert: (R, nat) -> Option<D>,
                                              accept: nat -> bool, base: nat)
    ensures Stored(a + b, convert, accept, base)
         == Stored(a, convert, accept, base) + Stored(b, convert, accept, base + |a|)
    decreases |b|
  {
    if b == [] {
      assert a + b == a;
    } else {
      var n := |b| - 1;
      var ab := a + b;
      var id := base + |a| + n;
      var tail := if accept(id) && convert(b[n], id).Some? then [convert(b[n], id).value] else [];
      StoredAppend(a, b[..n], convert, accept, base);
      assert ab[..|a| + n] == a + b[..n];
      assert ab[|a| + n] == b[n];
      assert Stored(ab, convert, accept, base) == Stored(a + b[..n], convert, accept, base) + tail;
      assert Stored(b, convert, accept, base + |a|) == Stored(b[..n], convert, accept, base + |a|) + tail;
      AppendAssoc(Stored(a, convert, accept, base), Stored(b[..n], convert, accept, base + |a|), tail);
    }
  }

  // ----- request URLs -----

  const MidgardHistory: string := "https://midgard.ninerealms.com/v2/history/"

  /** One request of a walk: the endpoint, the interval and the cursor, rendered by `Url`. */
  datatype Request = Request(path: string, interval: string, from: int)

  /** The requests made from `cursors`, in order. */
  function RequestsOf(path: string, interval: string, cursors: seq<int>): seq<Request> {
    seq(|cursors|, j requires 0 <= j < |cursors| => Request(path, interval, cursors[j]))
  }

  lemma RequestsOfSnoc(path: string, interval: string, cursors: seq<int>, c: int)
    ensures RequestsOf(path, interval, cursors + [c]) == RequestsOf(path, interval, cursors) + [Request(path, interval, c)]
  {
  }

  function Url(r: Request): string {
    RequestUrl(r.path, r.interval, r.from)
  }

  /** The request for one page: `<path>interval=<interval>&from=<cursor>&count=400`. */
  function RequestUrl(path: string, interval: string, from: int): string {
    path + "interval=" + interval + "&from=" + ShowInt(from) + "&count=400"
  }

  function RunePoolPath(): string { MidgardHistory + "runepool/?" }
  function DepthPath(pool: string): string { MidgardHistory + "depths/" + pool + "?" }
  function SwapsPath(): string { MidgardHistory + "swaps?" }
  function EarningsPath(): string { MidgardHistory + "earnings?" }

  /** Different cursors give different requests, so a walk never re-requests a page unless
      the upstream end time fails to advance. */
  lemma UrlDeterminesCursor(path: string, interval: string, a: int, b: int)
    requires InI64(a) && InI64(b)
    requires RequestUrl(path, interval, a) == RequestUrl(path, interval, b)
    ensures a == b
  {
    var p := path + "interval=" + interval + "&from=";
    var ua := RequestUrl(path, interval, a);
    assert ua == p + ShowInt(a) + "&count=400";
    assert ShowInt(a) == ua[|p|..|ua| - 10];
    assert ShowInt(b) == ua[|p|..|ua| - 10];
    ParseShowRoundTrip(a);
    ParseShowRoundTrip(b);
  }

  /** The depth request names its pool right after the "depths/" segment of the URL. */
  lemma DepthUrlNamesPool(pool: string, interval: string, from: int)
    ensures var u := RequestUrl(DepthPath(pool), interval, from);
      u[|MidgardHistory| + 7..|MidgardHistory| + 7 + |pool|] == pool
  {
    var u := RequestUrl(DepthPath(pool), interval, from);
    assert u == MidgardHistory + "depths/" + pool + ("?interval=" + interval + "&from=" + ShowInt(from) + "&count=400");
  }

  // ----- the loop -----

  /** What `c` holds once `batches` have been stored into it, starting from `origin` with
      next id `base`. */
  ghost predicate HoldsBatches<R, D>(c: Collection<D>, batches: seq<seq<R>>, convert: (R, nat) -> Option<D>,
                                     accept: nat -> bool, origin: seq<D>, base: nat)
    reads c
  {
    c.docs == origin + Stored(Concat(batches), convert, accept, base) && c.nextId == base + |Concat(batches)|
  }

  /** `store_to_db` for one more batch, stated over everything stored since `origin`. */
  method StoreBatch<R, D>(c: Collection<D>, batch: seq<R>, convert: (R, nat) -> Option<D>, accept: nat -> bool,
                          ghost earlier: seq<seq<R>>, ghost origin: seq<D>, ghost base: nat)
    modifies c
    requires HoldsBatches(c, earlier, convert, accept, origin, base)
    ensures HoldsBatches(c, earlier + [batch], convert, accept, origin, base)
  {
    ghost var x := Stored(Concat(earlier), convert, accept, base);
    ghost var y := Stored(batch, convert, accept, c.nextId);
    ConcatSnoc(earlier, batch);
    StoredAppend(Concat(earlier), batch, convert, accept, base);
    var _, _ := StoreToDb(c, batch, convert, accept);
    assert c.docs == origin + x + y;
    AppendAssoc(origin, x, y);
  }

  /**
   * The loop of a `fetch_*` function over collection `c`: the trace of requests and stored
   * batches is `Walk(start, pages)`, the i-th request is for `path` and `interval` at the i-th
   * cursor, and the collection gains the stored batches with consecutive ids.
   */
  method WalkInto<R, D>(c: Collection<D>, path: string, interval: string, start: int,
                        pages: seq<Exchange<R>>, convert: (R, nat) -> Option<D>, accept: nat -> bool)
    returns (outcome: WalkOutcome, requests: seq<Request>, ghost cursors: seq<int>, ghost batches: seq<seq<R>>)
    modifies c
    ensures Trace(outcome, cursors, batches) == Walk(start, pages)
    ensures requests == RequestsOf(path, interval, cursors)
    ensures c.docs == old(c.docs) + Stored(Concat(batches), convert, accept, old(c.nextId))
    ensures c.nextId == old(c.nextId) + |Concat(batches)|
  {
    ghost var origin, base := c.docs, c.nextId;
    var current := start;
    var k := 0;
    requests, cursors, batches := [], [], [];
    while k < |pages|
      invariant 0 <= k <= |pages|
      invariant Walk(start, pages) == Behind(cursors, batches, Walk(current, pages[k..]))
      invariant requests == RequestsOf(path, interval, cursors)
      invariant HoldsBatches(c, batches, convert, accept, origin, base)
      decreases |pages| - k
    {
      var x := pages[k];
      WalkAdvance(start, pages, k, current, cursors, batches);
      RequestsOfSnoc(path, interval, cursors, current);
      requests := requests + [Request(path, interval, current)];
      cursors := cursors + [current];
      if !Delivers(x) {
        outcome := Final(x);
        return;
      }
      var endTime := EndTimeOf(x);
      var batch := IntervalsOf(x);
      StoreBatch(c, batch, convert, accept, batches, origin, base);
      batches := batches + [batch];
      if endTime >= x.now {
        outcome := Done;
        return;
      }
      current := endTime;
      k := k + 1;
    }
    outcome := OutOfFuel;
  }
}
