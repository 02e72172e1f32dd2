/**
 * The meaning of the history pipelines as functions over the stored samples, in storage
 * order: `$match` (Matching), `$group` with `$last` accumulators (GroupAll), `$project`
 * (Project), `$sort` (SortBuckets), `$skip`/`$limit` (Page), plus the cursor drain loop
 * every route runs.
 */
module Aggregation {
  import opened Wrappers
  import opened Bucketing

  /** A stored sample: its `_id`, its pool (families without one store None), its window and
      the family's numeric fields. */
  datatype Sample<V> = Sample(id: nat, pool: Option<string>, startTime: int, endTime: int, values: V)

  /** A `$match` stage: pool equality when a pool is given, `start_time >= from`, and
      `end_time <= to` when `to` is given. */
  datatype Window = Window(pool: Option<string>, from: int, to: Option<int>)

  predicate InWindow<V>(w: Window, r: Sample<V>) {
    (w.pool.Some? ==> r.pool == w.pool)
    && r.startTime >= w.from
    && (w.to.Some? ==> r.endTime <= w.to.value)
  }

  function Last<T>(s: seq<T>): T
    requires s != []
  {
    s[|s| - 1]
  }

  function Front<T>(s: seq<T>): seq<T>
    requires s != []
  {
    s[..|s| - 1]
  }

  lemma FrontLast<T>(s: seq<T>)
    requires s != []
    ensures s == Front(s) + [Last(s)]
  {
  }

  /** The samples the `$match` stage lets through, in storage order. */
  function Matching<V>(w: Window, rs: seq<Sample<V>>): (m: seq<Sample<V>>)
    ensures |m| <= |rs|
    ensures forall i :: 0 <= i < |m| ==> m[i] in rs && InWindow(w, m[i])
    ensures forall i :: 0 <= i < |rs| && InWindow(w, rs[i]) ==> rs[i] in m
  {
    if rs == [] then []
    else
      FrontLast(rs);
      Matching(w, Front(rs)) + (if InWindow(w, Last(rs)) then [Last(rs)] else [])
  }

  /** Nothing passes the `$match` stage exactly when no stored sample is in the window. */
  lemma MatchingEmptyIff<V>(w: Window, rs: seq<Sample<V>>)
    ensures Matching(w, rs) == [] <==> forall i :: 0 <= i < |rs| ==> !InWindow(w, rs[i])
  {
    var m := Matching(w, rs);
    if m != [] {
      assert m[0] in rs && InWindow(w, m[0]);
    }
  }

  /** The store indices of the samples the `$match` stage lets through, in increasing order:
      every index of an in-window sample, and no other. */
  ghost function MatchIndices<V>(w: Window, rs: seq<Sample<V>>): (ix: seq<nat>)
    ensures forall a, b :: 0 <= a < b < |ix| ==> ix[a] < ix[b]
    ensures forall a :: 0 <= a < |ix| ==> ix[a] < |rs| && InWindow(w, rs[ix[a]])
    ensures forall j :: 0 <= j < |rs| && InWindow(w, rs[j]) ==> j in ix
  {
    if rs == [] then []
    else
      FrontLast(rs);
      MatchIndices(w, Front(rs)) + (if InWindow(w, Last(rs)) then [|rs| - 1] else [])
  }

  /** `$match` keeps storage order: its output is the store read at the increasing indices of
      the in-window samples. */
  lemma {:induction false} MatchingInStoreOrder<V>(w: Window, rs: seq<Sample<V>>)
    ensures |Matching(w, rs)| == |MatchIndices(w, rs)|
    ensures forall a :: 0 <= a < |Matching(w, rs)| ==> Matching(w, rs)[a] == rs[MatchIndices(w, rs)[a]]
  {
    if rs != [] {
      FrontLast(rs);
      MatchingInStoreOrder(w, Front(rs));
      var m, ix := Matching(w, Front(rs)), MatchIndices(w, Front(rs));
      forall a | 0 <= a < |m| ensures Matching(w, rs)[a] == rs[MatchIndices(w, rs)[a]] {
        assert Matching(w, rs)[a] == m[a] && MatchIndices(w, rs)[a] == ix[a];
        assert rs[ix[a]] == Front(rs)[ix[a]];
      }
    }
  }

  function KeyOf<V>(r: Sample<V>, len: int): int
    requires len > 0
  {
    GroupKey(r.endTime, len)
  }

  /** A `$group` accumulator: the key and the last sample seen with that key. */
  datatype Group<V> = Group(key: int, last: Sample<V>)

  /** One step of `$group` with `$last` accumulators: the sample replaces the accumulator of
      its key, or opens a new one after the existing ones. */
  function Absorb<V>(gs: seq<Group<V>>, r: Sample<V>, len: int): seq<Group<V>>
    requires len > 0
  {
    if gs == [] then [Group(KeyOf(r, len), r)]
    else if gs[0].key == KeyOf(r, len) then [Group(KeyOf(r, len), r)] + gs[1..]
    else [gs[0]] + Absorb(gs[1..], r, len)
  }

  /** `$group` over the samples in storage order. */
  function GroupAll<V>(rs: seq<Sample<V>>, len: int): seq<Group<V>>
    requires len > 0
  {
    if rs == [] then [] else Absorb(GroupAll(Front(rs), len), Last(rs), len)
  }

  /** Reference definition: the distinct keys, in order of first occurrence. */
  function KeysOf<V>(rs: seq<Sample<V>>, len: int): (ks: seq<int>)
    requires len > 0
    ensures forall i, j :: 0 <= i < j < |ks| ==> ks[i] != ks[j]
    ensures forall i :: 0 <= i < |ks| ==> exists j :: 0 <= j < |rs| && KeyOf(rs[j], len) == ks[i]
    ensures forall j :: 0 <= j < |rs| ==> KeyOf(rs[j], len) in ks
  {
    if rs == [] then []
    else
      FrontLast(rs);
      var ks := KeysOf(Front(rs), len);
      if KeyOf(Last(rs), len) in ks then ks else ks + [KeyOf(Last(rs), len)]
  }

  /** Reference definition: the last sample, in storage order, with the given key. */
  function LastWithKey<V>(rs: seq<Sample<V>>, k: int, len: int): Option<Sample<V>>
    requires len > 0
  {
    if rs == [] then None
    else if KeyOf(Last(rs), len) == k then Some(Last(rs))
    else LastWithKey(Front(rs), k, len)
  }

  /** LastWithKey finds a sample with that key, and no later sample has it. */
  lemma {:induction false} LastWithKeyIsLast<V>(rs: seq<Sample<V>>, k: int, len: int)
    requires len > 0
    ensures LastWithKey(rs, k, len).Some? <==> exists r :: r in rs && KeyOf(r, len) == k
    ensures LastWithKey(rs, k, len).Some? ==>
      exists j :: 0 <= j < |rs| && rs[j] == LastWithKey(rs, k, len).value && KeyOf(rs[j], len) == k
        && forall j' :: j < j' < |rs| ==> KeyOf(rs[j'], len) != k
  {
    if rs != [] {
      FrontLast(rs);
      LastWithKeyIsLast(Front(rs), k, len);
      if KeyOf(Last(rs), len) != k {
        if LastWithKey(Front(rs), k, len).Some? {
          var j :| 0 <= j < |Front(rs)| && Front(rs)[j] == LastWithKey(Front(rs), k, len).value
            && KeyOf(Front(rs)[j], len) == k
            && forall j' :: j < j' < |Front(rs)| ==> KeyOf(Front(rs)[j'], len) != k;
          assert rs[j] == Front(rs)[j];
        }
      } else {
        assert rs[|rs| - 1] == Last(rs);
      }
    }
  }

  /** A sample of the window that has key k and is the last one in the store to have both
      holds the `$last` values of key k among the matching samples. */
  predicate LastInWindowWithKey<V>(w: Window, rs: seq<Sample<V>>, k: int, len: int, j: int)
    requires len > 0
  {
    0 <= j < |rs| && InWindow(w, rs[j]) && KeyOf(rs[j], len) == k
    && forall j' :: j < j' < |rs| ==> !(InWindow(w, rs[j']) && KeyOf(rs[j'], len) == k)
  }

  /** A last sample with another key is skipped by LastWithKey. */
  lemma LastWithKeySkips<V>(m: seq<Sample<V>>, r: Sample<V>, k: int, len: int)
    requires len > 0 && KeyOf(r, len) != k
    ensures LastWithKey(m + [r], k, len) == LastWithKey(m, k, len)
  {
    assert Front(m + [r]) == m && Last(m + [r]) == r;
  }

  /** Over the matching samples, LastWithKey finds nothing exactly when no in-window sample
      has key k. */
  lemma {:induction false} LastWithKeyOfMatchingNone<V>(w: Window, rs: seq<Sample<V>>, k: int, len: int)
    requires len > 0
    ensures LastWithKey(Matching(w, rs), k, len).None? <==>
      forall j :: 0 <= j < |rs| ==> !(InWindow(w, rs[j]) && KeyOf(rs[j], len) == k)
  {
    if rs != [] {
      FrontLast(rs);
      var front, r := Front(rs), Last(rs);
      var m := Matching(w, front);
      assert rs[|rs| - 1] == r;
      if InWindow(w, r) && KeyOf(r, len) == k {
        assert Matching(w, rs) == m + [r];
      } else {
        LastWithKeyOfMatchingNone(w, front, k, len);
        if InWindow(w, r) {
          assert Matching(w, rs) == m + [r];
          LastWithKeySkips(m, r, k, len);
        } else {
          assert Matching(w, rs) == m;
        }
        assert forall j :: 0 <= j < |front| ==> rs[j] == front[j];
      }
    }
  }

  /** Over the matching samples, LastWithKey picks the sample at the store's largest index of
      an in-window sample with key k. */
  lemma {:induction false} LastWithKeyOfMatchingAt<V>(w: Window, rs: seq<Sample<V>>, k: int, len: int, j: int)
    requires len > 0 && LastInWindowWithKey(w, rs, k, len, j)
    ensures LastWithKey(Matching(w, rs), k, len) == Some(rs[j])
  {
    FrontLast(rs);
    var front, r := Front(rs), Last(rs);
    var m := Matching(w, front);
    assert rs[|rs| - 1] == r;
    if j == |rs| - 1 {
      assert Matching(w, rs) == m + [r];
      assert Last(m + [r]) == r;
    } else {
      assert !(InWindow(w, r) && KeyOf(r, len) == k);
      assert forall i :: 0 <= i < |front| ==> rs[i] == front[i];
      assert LastInWindowWithKey(w, front, k, len, j);
      LastWithKeyOfMatchingAt(w, front, k, len, j);
      if InWindow(w, r) {
        assert Matching(w, rs) == m + [r];
        LastWithKeySkips(m, r, k, len);
      } else {
        assert Matching(w, rs) == m;
      }
    }
  }

  /** The `$last` sample of key k among the matching samples is the one at the largest store
      index of an in-window sample with key k, and there is none exactly when no in-window
      sample has key k. */
  lemma LastWithKeyOfMatching<V>(w: Window, rs: seq<Sample<V>>, k: int, len: int)
    requires len > 0
    ensures LastWithKey(Matching(w, rs), k, len).None? <==>
      forall j :: 0 <= j < |rs| ==> !(InWindow(w, rs[j]) && KeyOf(rs[j], len) == k)
    ensures forall j :: LastInWindowWithKey(w, rs, k, len, j) ==> LastWithKey(Matching(w, rs), k, len) == Some(rs[j])
  {
    LastWithKeyOfMatchingNone(w, rs, k, len);
    forall j | LastInWindowWithKey(w, rs, k, len, j) ensures LastWithKey(Matching(w, rs), k, len) == Some(rs[j]) {
      LastWithKeyOfMatchingAt(w, rs, k, len, j);
    }
  }

  predicate DistinctKeys<V>(gs: seq<Group<V>>) {
    forall i, j :: 0 <= i < j < |gs| ==> gs[i].key != gs[j].key
  }

  lemma {:induction false} AbsorbExisting<V>(gs: seq<Group<V>>, r: Sample<V>, len: int, at: nat)
    requires len > 0 && DistinctKeys(gs)
    requires at < |gs| && gs[at].key == KeyOf(r, len)
    ensures |Absorb(gs, r, len)| == |gs|
    ensures forall i :: 0 <= i < |gs| ==>
      Absorb(gs, r, len)[i] == if i == at then Group(KeyOf(r, len), r) else gs[i]
  {
    if at > 0 {
      assert gs[0].key != KeyOf(r, len);
      AbsorbExisting(gs[1..], r, len, at - 1);
    }
  }

  lemma {:induction false} AbsorbFresh<V>(gs: seq<Group<V>>, r: Sample<V>, len: int)
    requires len > 0
    requires forall i :: 0 <= i < |gs| ==> gs[i].key != KeyOf(r, len)
    ensures Absorb(gs, r, len) == gs + [Group(KeyOf(r, len), r)]
  {
    if gs != [] {
      AbsorbFresh(gs[1..], r, len);
      assert gs == [gs[0]] + gs[1..];
    }
  }

  /** `gs` pairs each distinct key of `rs`, in order of first occurrence, with the last sample
      holding that key. */
  ghost predicate GroupsMatch<V>(gs: seq<Group<V>>, rs: seq<Sample<V>>, len: int)
    requires len > 0
  {
    var ks := KeysOf(rs, len);
    |gs| == |ks| && forall i :: 0 <= i < |gs| ==> gs[i].key == ks[i] && LastWithKey(rs, ks[i], len) == Some(gs[i].last)
  }

  /** One step of the fold keeps the groups matching the samples seen so far. */
  lemma GroupStep<V>(rs: seq<Sample<V>>, len: int)
    requires len > 0 && rs != []
    requires GroupsMatch(GroupAll(Front(rs), len), Front(rs), len)
    ensures GroupsMatch(GroupAll(rs, len), rs, len)
  {
    var front, r := Front(rs), Last(rs);
    var gs, ks := GroupAll(front, len), KeysOf(front, len);
    var k := KeyOf(r, len);
    assert DistinctKeys(gs);
    if k in ks {
      var at :| 0 <= at < |ks| && ks[at] == k;
      GroupStepExisting(rs, len, gs, ks, at);
    } else {
      GroupStepFresh(rs, len, gs, ks);
    }
  }

  /** The last sample's key was seen before: its accumulator is replaced in place. */
  lemma GroupStepExisting<V>(rs: seq<Sample<V>>, len: int, gs: seq<Group<V>>, ks: seq<int>, at: nat)
    requires len > 0 && rs != []
    requires gs == GroupAll(Front(rs), len) && ks == KeysOf(Front(rs), len)
    requires GroupsMatch(gs, Front(rs), len) && DistinctKeys(gs)
    requires at < |ks| && ks[at] == KeyOf(Last(rs), len)
    ensures GroupsMatch(GroupAll(rs, len), rs, len)
  {
    var r := Last(rs);
    AbsorbExisting(gs, r, len, at);
    var hs := Absorb(gs, r, len);
    assert GroupAll(rs, len) == hs;
    assert KeysOf(rs, len) == ks;
    forall i | 0 <= i < |hs|
      ensures hs[i].key == ks[i] && LastWithKey(rs, ks[i], len) == Some(hs[i].last)
    {
      if i != at {
        assert gs[i].key != gs[at].key;
        assert hs[i] == gs[i];
      }
    }
  }

  /** The last sample's key is new: a fresh accumulator is opened after the others. */
  lemma GroupStepFresh<V>(rs: seq<Sample<V>>, len: int, gs: seq<Group<V>>, ks: seq<int>)
    requires len > 0 && rs != []
    requires gs == GroupAll(Front(rs), len) && ks == KeysOf(Front(rs), len)
    requires GroupsMatch(gs, Front(rs), len)
    requires KeyOf(Last(rs), len) !in ks
    ensures GroupsMatch(GroupAll(rs, len), rs, len)
  {
    var r := Last(rs);
    var k := KeyOf(r, len);
    assert forall i :: 0 <= i < |gs| ==> gs[i].key != k by {
      forall i | 0 <= i < |gs| ensures gs[i].key != k {
        assert gs[i].key == ks[i];
      }
    }
    AbsorbFresh(gs, r, len);
    var hs := gs + [Group(k, r)];
    assert GroupAll(rs, len) == hs;
    assert KeysOf(rs, len) == ks + [k];
    forall i | 0 <= i < |hs|
      ensures hs[i].key == (ks + [k])[i] && LastWithKey(rs, (ks + [k])[i], len) == Some(hs[i].last)
    {
      if i < |gs| {
        assert hs[i] == gs[i] && (ks + [k])[i] == ks[i];
        assert ks[i] != k;
      }
    }
  }

  /** The `$group` fold agrees with the reference definitions: one accumulator per distinct key,
      in order of first occurrence, each holding the last sample with its key. */
  lemma {:induction false} GroupAllCorrect<V>(rs: seq<Sample<V>>, len: int)
    requires len > 0
    ensures |GroupAll(rs, len)| == |KeysOf(rs, len)|
    ensures forall i :: 0 <= i < |GroupAll(rs, len)| ==>
      GroupAll(rs, len)[i].key == KeysOf(rs, len)[i]
      && LastWithKey(rs, KeysOf(rs, len)[i], len) == Some(GroupAll(rs, len)[i].last)
  {
    if rs != [] {
      GroupAllCorrect(Front(rs), len);
      GroupStep(rs, len);
    }
  }

  /** A projected bucket: `startTime`, `endTime`, the `$last` field values and the `_id` of the
      sample they come from. */
  datatype Bucket<V> = Bucket(startTime: int, endTime: int, values: V, lastId: nat)

  function Project<V>(g: Group<V>, len: int): Bucket<V>
    requires len > 0
  {
    Bucket(BucketStart(g.key, len), BucketEnd(g.key, len), g.last.values, g.last.id)
  }

  function ProjectAll<V>(gs: seq<Group<V>>, len: int): (bs: seq<Bucket<V>>)
    requires len > 0
    ensures |bs| == |gs| && forall i :: 0 <= i < |gs| ==> bs[i] == Project(gs[i], len)
  {
    if gs == [] then [] else [Project(gs[0], len)] + ProjectAll(gs[1..], len)
  }

  /** `$match`, `$group` and `$project`: one bucket per distinct key among the matching samples. */
  function Buckets<V>(w: Window, rs: seq<Sample<V>>, len: int): seq<Bucket<V>>
    requires len > 0
  {
    ProjectAll(GroupAll(Matching(w, rs), len), len)
  }

  predicate PositiveEndTimes<V(==)>(rs: seq<Sample<V>>) {
    forall r :: r in rs ==> r.endTime >= 1
  }

  /**
   * What a bucket is: it comes from a matching sample r that is the last matching sample
   * with its key; its values and `_id` are r's; its bounds are L apart, the start is aligned to
   * L, and when end times are positive, r's end time lies in (start, end].
   */
  lemma BucketsSpec<V>(w: Window, rs: seq<Sample<V>>, len: int)
    requires len > 2
    ensures |Buckets(w, rs, len)| == |KeysOf(Matching(w, rs), len)|
    ensures forall i :: 0 <= i < |Buckets(w, rs, len)| ==>
      var b := Buckets(w, rs, len)[i];
      var k := KeysOf(Matching(w, rs), len)[i];
      var r := LastWithKey(Matching(w, rs), k, len);
      r.Some? && r.value in rs && InWindow(w, r.value) && KeyOf(r.value, len) == k
      && b.values == r.value.values && b.lastId == r.value.id
      && b.startTime == BucketStart(k, len) && b.endTime == b.startTime + len
      && (r.value.endTime >= 1 ==> b.startTime % len == 0 && b.startTime < r.value.endTime <= b.endTime)
  {
    var m := Matching(w, rs);
    GroupAllCorrect(m, len);
    forall i | 0 <= i < |Buckets(w, rs, len)|
      ensures var b := Buckets(w, rs, len)[i];
        var k := KeysOf(m, len)[i];
        var r := LastWithKey(m, k, len);
        r.Some? && r.value in rs && InWindow(w, r.value) && KeyOf(r.value, len) == k
        && b.values == r.value.values && b.lastId == r.value.id
        && b.startTime == BucketStart(k, len) && b.endTime == b.startTime + len
        && (r.value.endTime >= 1 ==> b.startTime % len == 0 && b.startTime < r.value.endTime <= b.endTime)
    {
      var k := KeysOf(m, len)[i];
      LastWithKeyIsLast(m, k, len);
      var r := LastWithKey(m, k, len).value;
      if r.endTime >= 1 {
        BucketOfSample(r.endTime, len);
      }
    }
  }

  /** A matching sample's key is among the keys, so it is represented by a bucket. */
  lemma BucketsCoverMatching<V>(w: Window, rs: seq<Sample<V>>, len: int, j: int)
    requires len > 2 && 0 <= j < |rs| && InWindow(w, rs[j])
    ensures KeyOf(rs[j], len) in KeysOf(Matching(w, rs), len)
    ensures |Buckets(w, rs, len)| == |KeysOf(Matching(w, rs), len)|
  {
    var m := Matching(w, rs);
    GroupAllCorrect(m, len);
    assert rs[j] in m;
    var jm :| 0 <= jm < |m| && m[jm] == rs[j];
    assert KeyOf(m[jm], len) in KeysOf(m, len);
  }

  /** With positive end times, distinct buckets have distinct start times. */
  lemma BucketsDistinctStarts<V>(w: Window, rs: seq<Sample<V>>, len: int)
    requires len > 2 && PositiveEndTimes(rs)
    ensures forall i, j :: 0 <= i < j < |Buckets(w, rs, len)| ==>
      Buckets(w, rs, len)[i].startTime != Buckets(w, rs, len)[j].startTime
  {
    var m := Matching(w, rs);
    var bs := Buckets(w, rs, len);
    var ks := KeysOf(m, len);
    BucketsSpec(w, rs, len);
    forall i, j | 0 <= i < j < |bs| ensures bs[i].startTime != bs[j].startTime {
      LastWithKeyIsLast(m, ks[i], len);
      LastWithKeyIsLast(m, ks[j], len);
      var ri, rj := LastWithKey(m, ks[i], len).value, LastWithKey(m, ks[j], len).value;
      SameKeyIffSameStart(ri.endTime, rj.endTime, len);
    }
  }

  /** No matching sample, no bucket; and conversely. */
  lemma BucketsEmptyIff<V>(w: Window, rs: seq<Sample<V>>, len: int)
    requires len > 2
    ensures Buckets(w, rs, len) == [] <==> Matching(w, rs) == []
  {
    var m := Matching(w, rs);
    BucketsSpec(w, rs, len);
    if m != [] {
      assert KeyOf(m[0], len) in KeysOf(m, len);
    }
  }

  // ----- $sort -----

  /** The sort key Mongo orders by, as a number; the default field is startTime. */
  function StartTimeKey<V>(b: Bucket<V>): real { b.startTime as real }

  predicate Before<V>(a: Bucket<V>, b: Bucket<V>, key: Bucket<V> -> real, ascending: bool) {
    if ascending then key(a) <= key(b) else key(a) >= key(b)
  }

  predicate SortedBy<V>(s: seq<Bucket<V>>, key: Bucket<V> -> real, ascending: bool) {
    forall i, j :: 0 <= i < j < |s| ==> Before(s[i], s[j], key, ascending)
  }

  function InsertBucket<V>(b: Bucket<V>, s: seq<Bucket<V>>, key: Bucket<V> -> real, ascending: bool): (r: seq<Bucket<V>>)
    ensures multiset(r) == multiset(s) + multiset{b}
  {
    if s == [] then [b]
    else if Before(b, s[0], key, ascending) then [b] + s
    else
      assert s == [s[0]] + s[1..];
      [s[0]] + InsertBucket(b, s[1..], key, ascending)
  }

  /** An element of a permutation of s is an element of s. */
  lemma InPermutation<T>(a: seq<T>, s: seq<T>, i: int)
    requires multiset(a) == multiset(s) && 0 <= i < |a|
    ensures exists j :: 0 <= j < |s| && s[j] == a[i]
  {
    assert a[i] in multiset(a);
    assert a[i] in s;
  }

  /** An element of InsertBucket(b, s) is b or an element of s. */
  lemma InsertedFrom<V>(b: Bucket<V>, s: seq<Bucket<V>>, key: Bucket<V> -> real, ascending: bool, i: int)
    requires 0 <= i < |InsertBucket(b, s, key, ascending)|
    ensures InsertBucket(b, s, key, ascending)[i] == b
      || exists j :: 0 <= j < |s| && s[j] == InsertBucket(b, s, key, ascending)[i]
  {
    var r := InsertBucket(b, s, key, ascending);
    assert r[i] in multiset(r);
    if r[i] != b {
      assert r[i] in multiset(s);
      assert r[i] in s;
    }
  }

  lemma {:induction false} InsertSorted<V>(b: Bucket<V>, s: seq<Bucket<V>>, key: Bucket<V> -> real, ascending: bool)
    requires SortedBy(s, key, ascending)
    ensures SortedBy(InsertBucket(b, s, key, ascending), key, ascending)
  {
    if s != [] && !Before(b, s[0], key, ascending) {
      var rest := InsertBucket(b, s[1..], key, ascending);
      InsertSorted(b, s[1..], key, ascending);
      forall i | 0 <= i < |rest| ensures Before(s[0], rest[i], key, ascending) {
        InsertedFrom(b, s[1..], key, ascending, i);
      }
      assert InsertBucket(b, s, key, ascending) == [s[0]] + rest;
    }
  }

  /** `$sort` on one key, ascending or descending: a sorted permutation of the buckets. */
  function SortBuckets<V>(s: seq<Bucket<V>>, key: Bucket<V> -> real, ascending: bool): (r: seq<Bucket<V>>)
    ensures multiset(r) == multiset(s)
    ensures SortedBy(r, key, ascending)
  {
    if s == [] then []
    else
      assert s == [s[0]] + s[1..];
      InsertSorted(s[0], SortBuckets(s[1..], key, ascending), key, ascending);
      InsertBucket(s[0], SortBuckets(s[1..], key, ascending), key, ascending)
  }

  predicate DistinctStarts<V>(s: seq<Bucket<V>>) {
    forall i, j :: 0 <= i < j < |s| ==> s[i].startTime != s[j].startTime
  }

  /** Sorted on startTime with distinct start times means strictly ordered. */
  lemma SortedStrictly<V>(s: seq<Bucket<V>>, ascending: bool)
    requires SortedBy(s, StartTimeKey, ascending) && DistinctStarts(s)
    ensures forall i, j :: 0 <= i < j < |s| ==>
      if ascending then s[i].startTime < s[j].startTime else s[i].startTime > s[j].startTime
  {
    forall i, j | 0 <= i < j < |s|
      ensures if ascending then s[i].startTime < s[j].startTime else s[i].startTime > s[j].startTime
    {
      assert Before(s[i], s[j], StartTimeKey, ascending);
    }
  }

  lemma {:induction false} InsertDistinct<V>(b: Bucket<V>, s: seq<Bucket<V>>, key: Bucket<V> -> real, ascending: bool)
    requires DistinctStarts(s)
    requires forall i :: 0 <= i < |s| ==> s[i].startTime != b.startTime
    ensures DistinctStarts(InsertBucket(b, s, key, ascending))
  {
    if s != [] && !Before(b, s[0], key, ascending) {
      var rest := InsertBucket(b, s[1..], key, ascending);
      InsertDistinct(b, s[1..], key, ascending);
      forall i | 0 <= i < |rest| ensures rest[i].startTime != s[0].startTime {
        InsertedFrom(b, s[1..], key, ascending, i);
      }
      assert InsertBucket(b, s, key, ascending) == [s[0]] + rest;
    }
  }

  /** Sorting keeps start times distinct. */
  lemma {:induction false} SortKeepsDistinctStarts<V>(s: seq<Bucket<V>>, key: Bucket<V> -> real, ascending: bool)
    requires DistinctStarts(s)
    ensures DistinctStarts(SortBuckets(s, key, ascending))
  {
    if s != [] {
      var rest := SortBuckets(s[1..], key, ascending);
      SortKeepsDistinctStarts(s[1..], key, ascending);
      forall i | 0 <= i < |rest| ensures rest[i].startTime != s[0].startTime {
        InPermutation(rest, s[1..], i);
      }
      InsertDistinct(s[0], rest, key, ascending);
    }
  }

  // ----- $skip / $limit -----

  function Min(a: int, b: int): int { if a <= b then a else b }

  /** `$skip` then `$limit`. */
  function Page<T>(s: seq<T>, skip: nat, limit: nat): (p: seq<T>)
    ensures |p| == if skip >= |s| then 0 else Min(limit, |s| - skip)
    ensures forall i :: 0 <= i < |p| ==> p[i] == s[skip + i]
  {
    if skip >= |s| then [] else if skip + limit >= |s| then s[skip..] else s[skip..skip + limit]
  }

  /** `part` is the run of `whole` starting at position `from`. */
  predicate SliceOf<T(==)>(part: seq<T>, whole: seq<T>, from: int) {
    0 <= from && from + |part| <= |whole| && forall i :: 0 <= i < |part| ==> part[i] == whole[from + i]
  }

  /** Integer ceiling of a / b. */
  function CeilDiv(a: nat, b: nat): (r: nat)
    requires b > 0
    ensures r * b >= a
    ensures r > 0 ==> (r - 1) * b < a
  {
    if a == 0 then 0 else 1 + CeilDiv(if a >= b then a - b else 0, b)
  }

  /** Pages 1 to n of size `limit`, concatenated. */
  function Pages<T>(s: seq<T>, limit: nat, n: nat): seq<T>
  {
    if n == 0 then [] else Pages(s, limit, n - 1) + Page(s, (n - 1) * limit, limit)
  }

  lemma {:induction false} PagesArePrefix<T>(s: seq<T>, limit: nat, n: nat)
    ensures Pages(s, limit, n) == s[..Min(|s|, n * limit)]
  {
    if n > 0 {
      PagesArePrefix(s, limit, n - 1);
      var skip := (n - 1) * limit;
      assert skip + limit == n * limit;
      var lo, hi := Min(|s|, skip), Min(|s|, skip + limit);
      assert Page(s, skip, limit) == s[lo..hi];
      PrefixSplits(s, lo, hi);
    }
  }

  lemma PrefixSplits<T>(s: seq<T>, lo: nat, hi: nat)
    requires lo <= hi <= |s|
    ensures s[..hi] == s[..lo] + s[lo..hi]
  {
  }

  /** Concatenating pages 1..ceil(|s| / limit) gives back the whole list, without gaps or
      overlaps. */
  lemma PagesCoverAll<T>(s: seq<T>, limit: nat)
    requires limit > 0
    ensures Pages(s, limit, CeilDiv(|s|, limit)) == s
  {
    PagesArePrefix(s, limit, CeilDiv(|s|, limit));
  }

  /** Pages past the last one are empty. */
  lemma PageBeyondEndIsEmpty<T>(s: seq<T>, limit: nat, page: nat)
    requires limit > 0 && page > CeilDiv(|s|, limit)
    ensures Page(s, (page - 1) * limit, limit) == []
  {
    var n := CeilDiv(|s|, limit);
    assert (page - 1) * limit >= n * limit by {
      MulGrowsNat(page - 1, n, limit);
    }
  }

  lemma MulGrowsNat(a: nat, b: nat, c: nat)
    requires a >= b
    ensures a * c >= b * c
  {
    assert a * c == b * c + (a - b) * c;
  }

  // ----- the cursor loop -----

  /** The routes' cursor loop: every document the cursor yields is pushed, in order. */
  method Drain<T>(cursor: seq<T>) returns (out: seq<T>)
    ensures out == cursor
  {
    out := [];
    var i := 0;
    while i < |cursor|
      invariant 0 <= i <= |cursor|
      invariant out == cursor[..i]
    {
      out := out + [cursor[i]];
      i := i + 1;
    }
  }
}
