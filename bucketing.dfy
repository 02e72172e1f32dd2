/**
 * The bucket arithmetic of the history pipelines: the `$group` key
 * `(end_time + 1) - ((end_time - 1) mod L)` and the `$project` bounds
 * `startTime = key - key mod L`, `endTime = startTime + L`. MongoDB's `$mod` keeps the
 * sign of the dividend, so it is modelled as a truncated remainder.
 */
module Bucketing {

  /** MongoDB's `$mod` for a positive divisor: remainder of truncated division. */
  function TruncMod(a: int, b: int): (r: int)
    requires b > 0
    ensures a >= 0 ==> 0 <= r < b
    ensures a < 0 ==> -b < r <= 0
  {
    if a >= 0 then a % b else -((-a) % b)
  }

  /** The `$group` key of a sample with the given end time. */
  function GroupKey(endTime: int, len: int): int
    requires len > 0
  {
    (endTime + 1) - TruncMod(endTime - 1, len)
  }

  /** The projected `startTime` of the bucket with the given key. */
  function BucketStart(key: int, len: int): int
    requires len > 0
  {
    key - TruncMod(key, len)
  }

  /** The projected `endTime` of the bucket with the given key. */
  function BucketEnd(key: int, len: int): int
    requires len > 0
  {
    BucketStart(key, len) + len
  }

  lemma MulGrows(d: int, len: int)
    ensures d >= 1 && len > 0 ==> d * len >= len
  {
    if d >= 1 && len > 0 {
      assert d * len == (d - 1) * len + len;
    }
  }

  lemma MulShrinks(d: int, len: int)
    ensures d <= -1 && len > 0 ==> d * len <= -len
  {
    if d <= -1 && len > 0 {
      MulGrows(-d, len);
      assert d * len == -((-d) * len);
    }
  }

  /** A multiple of len strictly between -len and len is zero. */
  lemma SmallMultipleIsZero(d: int, len: int)
    requires len > 0 && -len < d * len < len
    ensures d == 0
  {
    MulGrows(d, len);
    MulShrinks(d, len);
  }

  /** Euclidean division is unique: q*len + r with 0 <= r < len has quotient q and remainder r. */
  lemma DivModUnique(q: int, r: int, len: int)
    requires len > 0 && 0 <= r < len
    ensures (q * len + r) / len == q && (q * len + r) % len == r
  {
    var x := q * len + r;
    var q', r' := x / len, x % len;
    assert x == q' * len + r';
    assert (q - q') * len == r' - r;
    SmallMultipleIsZero(q - q', len);
  }

  /** Multiplication by a positive length is injective. */
  lemma MulCancel(q1: int, q2: int, len: int)
    requires len > 0
    ensures q1 * len == q2 * len <==> q1 == q2
  {
    assert q1 * len - q2 * len == (q1 - q2) * len;
    if q1 * len == q2 * len {
      SmallMultipleIsZero(q1 - q2, len);
    }
  }

  /** For a positive end time the key is the start of the window of `end_time - 1`, plus 2. */
  lemma GroupKeyClosedForm(endTime: int, len: int)
    requires endTime >= 1 && len > 0
    ensures GroupKey(endTime, len) == ((endTime - 1) / len) * len + 2
  {
  }

  /** Every key, whatever the end time, is 2 more than a multiple of L. */
  lemma GroupKeyShape(endTime: int, len: int)
    requires len > 0
    ensures (GroupKey(endTime, len) - 2) % len == 0
  {
    var a := endTime - 1;
    var k := GroupKey(endTime, len);
    if a >= 0 {
      assert k - 2 == a - a % len;
      assert a == (a / len) * len + a % len;
      DivModUnique(a / len, 0, len);
    } else {
      var u := -a;
      assert TruncMod(a, len) == -(u % len);
      assert k - 2 == -(u - u % len);
      assert u == (u / len) * len + u % len;
      assert k - 2 == (-(u / len)) * len;
      DivModUnique(-(u / len), 0, len);
    }
  }

  /** A sample with a positive end time lands in the bucket [start, start + L) with
      start = floor((e - 1) / L) * L, a multiple of L, and start < e <= end. */
  lemma BucketOfSample(endTime: int, len: int)
    requires endTime >= 1 && len > 2
    ensures BucketStart(GroupKey(endTime, len), len) == ((endTime - 1) / len) * len
    ensures BucketStart(GroupKey(endTime, len), len) % len == 0
    ensures BucketEnd(GroupKey(endTime, len), len) == BucketStart(GroupKey(endTime, len), len) + len
    ensures BucketStart(GroupKey(endTime, len), len) < endTime <= BucketEnd(GroupKey(endTime, len), len)
  {
    var q := (endTime - 1) / len;
    GroupKeyClosedForm(endTime, len);
    assert q >= 0;
    assert q * len + 2 >= 0;
    DivModUnique(q, 2, len);
    DivModUnique(q, 0, len);
  }

  /** Two positive end times share a key exactly when they share a bucket start: the key and
      the projected start determine each other. */
  lemma SameKeyIffSameStart(e1: int, e2: int, len: int)
    requires e1 >= 1 && e2 >= 1 && len > 2
    ensures GroupKey(e1, len) == GroupKey(e2, len)
        <==> BucketStart(GroupKey(e1, len), len) == BucketStart(GroupKey(e2, len), len)
    ensures GroupKey(e1, len) == GroupKey(e2, len) <==> (e1 - 1) / len == (e2 - 1) / len
  {
    BucketOfSample(e1, len);
    BucketOfSample(e2, len);
    GroupKeyClosedForm(e1, len);
    GroupKeyClosedForm(e2, len);
    MulCancel((e1 - 1) / len, (e2 - 1) / len, len);
  }

  /** With hourly buckets, end times 3599 and 3600 share the key 2 ... */
  lemma HourlyScenarioKeys()
    ensures GroupKey(3599, 3600) == GroupKey(3600, 3600) == 2
  {
    assert TruncMod(3598, 3600) == 3598;
    assert TruncMod(3599, 3600) == 3599;
  }

  /** ... so both fall in [0, 3600) ... */
  lemma HourlyScenarioFirstBucket()
    ensures BucketStart(GroupKey(3599, 3600), 3600) == 0 && BucketEnd(GroupKey(3599, 3600), 3600) == 3600
  {
    HourlyScenarioKeys();
    assert TruncMod(2, 3600) == 2;
  }

  /** ... while 7199 falls in [3600, 7200). */
  lemma HourlyScenarioSecondBucket()
    ensures GroupKey(7199, 3600) == 3602
    ensures BucketStart(GroupKey(7199, 3600), 3600) == 3600 && BucketEnd(GroupKey(7199, 3600), 3600) == 7200
  {
    assert TruncMod(7198, 3600) == 3598;
    assert TruncMod(3602, 3600) == 2;
  }

  /** The truncated remainder is visible for end times at or below 1 - L: such a sample gets
      the negative key 2 - L, whose projected start is 0, the same start as key 2. */
  lemma NonPositiveEndTimesShareStartZero()
    ensures GroupKey(-3599, 3600) == -3598 && GroupKey(1, 3600) == 2
    ensures BucketStart(-3598, 3600) == 0 == BucketStart(2, 3600)
  {
  }
}
