/**
 * How serde reads one upstream earnings interval into the `Interval` struct of
 * src/services/fetch_earnings_history.rs. A field is looked up under its explicit `rename`
 * when it has one, and otherwise under the camelCase form of its Rust name, as
 * `rename_all = "camelCase"` asks. A missing `Option` field reads as `None`. A missing
 * required field fails the decode. Keys the struct does not name are ignored.
 *
 * The JSON value is abstracted: the interval's string fields are a map from key to text, and
 * its pools arrive already decoded.
 */
module IntervalDecoding {
  import opened Wrappers
  import opened EarningsIngest

  function AsciiUpper(c: char): char {
    if 'a' <= c <= 'z' then (c as int - 32) as char else c
  }

  function AsciiLower(c: char): char {
    if 'A' <= c <= 'Z' then (c as int + 32) as char else c
  }

  /** serde's PascalCase rule from position 0 of `field`: every `_` is dropped, and the
      character after it is upper-cased, as is the first one when `capitalize` holds. */
  function Pascal(field: string, capitalize: bool): (r: string)
    ensures '_' !in r
    ensures |r| <= |field|
  {
    if field == [] then []
    else if field[0] == '_' then Pascal(field[1..], true)
    else [if capitalize then AsciiUpper(field[0]) else field[0]] + Pascal(field[1..], false)
  }

  /** serde's camelCase rule: the PascalCase name with its first character lower-cased. */
  function CamelCase(field: string): (r: string)
    ensures '_' !in r
  {
    var p := Pascal(field, true);
    if p == [] then [] else [AsciiLower(p[0])] + p[1..]
  }

  /** A run of characters without `_` is copied, only its first character capitalised. */
  lemma {:induction false} PascalWord(w: string, capitalize: bool)
    requires w != [] && '_' !in w
    ensures Pascal(w, capitalize) == [if capitalize then AsciiUpper(w[0]) else w[0]] + w[1..]
    decreases |w|
  {
    if |w| > 1 {
      PascalWord(w[1..], false);
      assert w[1..][1..] == w[2..];
      assert [w[1]] + w[2..] == w[1..];
    }
  }

  /** Past an `_`-free word and the `_` after it, the rule starts afresh on the next word. */
  lemma {:induction false} PascalWords(w: string, rest: string, capitalize: bool)
    requires w != [] && '_' !in w
    ensures Pascal(w + "_" + rest, capitalize)
         == [if capitalize then AsciiUpper(w[0]) else w[0]] + w[1..] + Pascal(rest, true)
    decreases |w|
  {
    var s := w + "_" + rest;
    assert s[0] == w[0];
    assert s[1..] == w[1..] + "_" + rest;
    if |w| == 1 {
      assert s[1..] == "_" + rest;
      assert ("_" + rest)[1..] == rest;
    } else {
      PascalWords(w[1..], rest, false);
      assert w[1..][1..] == w[2..];
      assert [w[1]] + w[2..] == w[1..];
    }
  }

  /** A word capitalised as the rule does after an `_`. */
  function Capitalised(w: string): string
    requires w != []
  {
    [AsciiUpper(w[0])] + w[1..]
  }

  /** The camelCase name of a two-word field `a_b`. */
  lemma CamelCaseTwoWords(a: string, b: string)
    requires a != [] && '_' !in a && b != [] && '_' !in b
    ensures CamelCase(a + "_" + b) == [AsciiLower(AsciiUpper(a[0]))] + a[1..] + Capitalised(b)
  {
    PascalWords(a, b, true);
    PascalWord(b, true);
    var p := [AsciiUpper(a[0])] + a[1..] + Capitalised(b);
    assert p[1..] == a[1..] + Capitalised(b);
  }

  /** The camelCase name of a three-word field `a_b_c`. */
  lemma CamelCaseThreeWords(a: string, b: string, c: string)
    requires a != [] && '_' !in a && b != [] && '_' !in b && c != [] && '_' !in c
    ensures CamelCase(a + "_" + b + "_" + c)
         == [AsciiLower(AsciiUpper(a[0]))] + a[1..] + Capitalised(b) + Capitalised(c)
  {
    assert a + "_" + b + "_" + c == a + "_" + (b + "_" + c);
    PascalWords(a, b + "_" + c, true);
    PascalWords(b, c, true);
    PascalWord(c, true);
    var p := [AsciiUpper(a[0])] + a[1..] + (Capitalised(b) + Capitalised(c));
    assert p[1..] == a[1..] + Capitalised(b) + Capitalised(c);
  }

  // The keys the struct's fields are read under. The Rust names of the fields without a
  // `rename` are kept as their words, and the lemmas below show that each key is the
  // camelCase form of that name.
  const StartTimeKey: string := "startTime"
  const EndTimeKey: string := "endTime"
  const LiquidityFeesKey: string := "liquidityFees"
  const BlockRewardsKey: string := "blockRewards"
  const BlockEarningsKey: string := "blockEarnings"
  const LiquidityEarningsKey: string := "liquidityEarnings"
  const AvgNodeCountKey: string := "avgNodeCount"
  /** What `rune_price_usd` is read under as written. */
  const RunePriceKeyAsWritten: string := "runePriceUsd"
  /** The name Midgard sends and the `Meta` struct's explicit `rename` uses. */
  const RunePriceKey: string := "runePriceUSD"

  lemma LiquidityFeesKeyIsCamelCase(a: string, b: string)
    requires a == "liquidity" && b == "fees"
    ensures CamelCase(a + "_" + b) == LiquidityFeesKey
  {
    CamelCaseTwoWords(a, b);
    assert AsciiLower(AsciiUpper(a[0])) == 'l';
    assert Capitalised(b) == "Fees";
  }

  lemma BlockRewardsKeyIsCamelCase(a: string, b: string)
    requires a == "block" && b == "rewards"
    ensures CamelCase(a + "_" + b) == BlockRewardsKey
  {
    CamelCaseTwoWords(a, b);
    assert AsciiLower(AsciiUpper(a[0])) == 'b';
    assert Capitalised(b) == "Rewards";
  }

  lemma LiquidityEarningsKeyIsCamelCase(a: string, b: string)
    requires a == "liquidity" && b == "earnings"
    ensures CamelCase(a + "_" + b) == LiquidityEarningsKey
  {
    CamelCaseTwoWords(a, b);
    assert AsciiLower(AsciiUpper(a[0])) == 'l';
    assert Capitalised(b) == "Earnings";
  }

  lemma AvgNodeCountKeyIsCamelCase(a: string, b: string, c: string)
    requires a == "avg" && b == "node" && c == "count"
    ensures CamelCase(a + "_" + b + "_" + c) == AvgNodeCountKey
  {
    CamelCaseThreeWords(a, b, c);
    assert AsciiLower(AsciiUpper(a[0])) == 'a';
    assert Capitalised(b) == "Node";
    assert Capitalised(c) == "Count";
  }

  /** serde reads `rune_price_usd` under "runePriceUsd", which is not the name Midgard sends. */
  lemma RunePriceKeyAsWrittenIsCamelCase(a: string, b: string, c: string)
    requires a == "rune" && b == "price" && c == "usd"
    ensures CamelCase(a + "_" + b + "_" + c) == RunePriceKeyAsWritten
    ensures RunePriceKeyAsWritten != RunePriceKey
  {
    CamelCaseThreeWords(a, b, c);
    assert AsciiLower(AsciiUpper(a[0])) == 'r';
    assert Capitalised(b) == "Price";
    assert Capitalised(c) == "Usd";
    assert RunePriceKeyAsWritten[10] != RunePriceKey[10];
  }

  /** The string fields of an interval as sent, by key. */
  type JsonObject = map<string, string>

  function Field(obj: JsonObject, key: string): (r: Option<string>)
    ensures r.Some? <==> key in obj
    ensures r.Some? ==> r.value == obj[key]
  {
    if key in obj then Some(obj[key]) else None
  }

  /** The required fields are all present. */
  predicate HasRequired(obj: JsonObject) {
    StartTimeKey in obj && EndTimeKey in obj && LiquidityFeesKey in obj && BlockRewardsKey in obj
    && LiquidityEarningsKey in obj && AvgNodeCountKey in obj
  }

  /** The decode, given the key the `rune_price_usd` field is read under. */
  function DecodeIntervalUnder(obj: JsonObject, pools: seq<PoolRaw>, priceKey: string): (r: Option<IntervalRaw>)
    ensures r.Some? <==> HasRequired(obj)
  {
    if HasRequired(obj) then
      Some(IntervalRaw(
        startTime := obj[StartTimeKey], endTime := obj[EndTimeKey],
        liquidityFees := obj[LiquidityFeesKey], blockRewards := obj[BlockRewardsKey],
        blockEarnings := Field(obj, BlockEarningsKey),
        liquidityEarnings := obj[LiquidityEarningsKey], avgNodeCount := obj[AvgNodeCountKey],
        runePriceUSD := Field(obj, priceKey),
        pools := pools))
    else None
  }

  /** The `Interval` struct as written: `rune_price_usd` has no `rename`, so it is read
      under its camelCase name. */
  function DecodeInterval(obj: JsonObject, pools: seq<PoolRaw>): Option<IntervalRaw> {
    DecodeIntervalUnder(obj, pools, RunePriceKeyAsWritten)
  }

  /** The struct with the `rename = "runePriceUSD"` that the `Meta` struct of the same file
      carries. */
  function CorrectedDecodeInterval(obj: JsonObject, pools: seq<PoolRaw>): Option<IntervalRaw> {
    DecodeIntervalUnder(obj, pools, RunePriceKey)
  }

  /** An upstream interval as Midgard sends it, under the names the `Meta` struct of the same
      file and the swaps fetcher use; the optional fields are sent only when present. */
  function Encode(iv: IntervalRaw): (obj: JsonObject)
    ensures HasRequired(obj)
    ensures RunePriceKey in obj <==> iv.runePriceUSD.Some?
    ensures RunePriceKeyAsWritten !in obj
  {
    var base := map[StartTimeKey := iv.startTime, EndTimeKey := iv.endTime,
                     LiquidityFeesKey := iv.liquidityFees, BlockRewardsKey := iv.blockRewards,
                     LiquidityEarningsKey := iv.liquidityEarnings, AvgNodeCountKey := iv.avgNodeCount];
    var withEarnings := if iv.blockEarnings.Some? then base[BlockEarningsKey := iv.blockEarnings.value] else base;
    if iv.runePriceUSD.Some? then withEarnings[RunePriceKey := iv.runePriceUSD.value] else withEarnings
  }

  /** The corrected decode reads back every interval Midgard sends. */
  lemma CorrectedDecodeRoundTrip(iv: IntervalRaw)
    ensures CorrectedDecodeInterval(Encode(iv), iv.pools) == Some(iv)
  {
  }

  /** The decode as written reads every interval Midgard sends without its price. */
  lemma DecodeLosesRunePrice(iv: IntervalRaw)
    ensures DecodeInterval(Encode(iv), iv.pools) == Some(iv.(runePriceUSD := None))
  {
  }

  /** As written, the stored `rune_price_usd` of every summary is 0.0, whatever price was sent. */
  lemma StoredRunePriceIsZero(iv: IntervalRaw, id: nat, pf: string -> Option<real>)
    ensures var d := DecodeInterval(Encode(iv), iv.pools);
      d.Some? && ParentDoc(d.value, id, SourceReaders(pf)).values.runePriceUSD == 0.0
  {
    DecodeLosesRunePrice(iv);
    MissingOptionalsAreZero(iv.(runePriceUSD := None), id, pf);
  }

  /** With the rename, the stored price is the `parse_float` of the price sent. */
  lemma CorrectedStoresRunePrice(iv: IntervalRaw, id: nat, pf: string -> Option<real>)
    requires iv.runePriceUSD.Some?
    ensures var d := CorrectedDecodeInterval(Encode(iv), iv.pools);
      d.Some? && ParentDoc(d.value, id, SourceReaders(pf)).values.runePriceUSD
                 == ParseFloat(iv.runePriceUSD.value, pf)
  {
    CorrectedDecodeRoundTrip(iv);
  }
}
