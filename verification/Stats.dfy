/** Streaming crash statistics against their definitions over the whole list of rounds. */
module CrashStats {
  import opened Common
  import opened Sorting

  const HIGH_THRESHOLD := 2.0

  datatype RangeBucket = RangeBucket(key: string, min: real, max: Option<real>, count: nat, pct: real)

  function DefaultRangeDefs(): seq<RangeBucket> {
    [
      RangeBucket("1-1.2", 1.0, Some(1.2), 0, 0.0),
      RangeBucket("1.2-1.5", 1.2, Some(1.5), 0, 0.0),
      RangeBucket("1.5-2", 1.5, Some(2.0), 0, 0.0),
      RangeBucket("2-3", 2.0, Some(3.0), 0, 0.0),
      RangeBucket("3-5", 3.0, Some(5.0), 0, 0.0),
      RangeBucket("5-10", 5.0, Some(10.0), 0, 0.0),
      RangeBucket("10-50", 10.0, Some(50.0), 0, 0.0),
      RangeBucket("50+", 50.0, None, 0, 0.0)
    ]
  }

  /** Half-open: the lower bound belongs to the bucket, the upper one to the next. */
  predicate InBucket(b: RangeBucket, v: real) {
    v >= b.min && (b.max.None? || v < b.max.value)
  }

  function Sum(values: seq<real>): real {
    if values == [] then 0.0 else Sum(values[..|values| - 1]) + values[|values| - 1]
  }

  function CountIn(values: seq<real>, b: RangeBucket): nat {
    if values == [] then 0 else CountIn(values[..|values| - 1], b) + if InBucket(b, values[|values| - 1]) then 1 else 0
  }

  function CountAtLeast(values: seq<real>, v: real): nat {
    if values == [] then 0 else CountAtLeast(values[..|values| - 1], v) + if values[|values| - 1] >= v then 1 else 0
  }

  /** One bucket's definition without its running numbers. */
  function Blank(b: RangeBucket): RangeBucket {
    b.(count := 0, pct := 0.0)
  }

  ghost predicate Tallied(ranges: seq<RangeBucket>, values: seq<real>) {
    && |ranges| == |DefaultRangeDefs()|
    && forall i :: 0 <= i < |ranges| ==>
         && Blank(ranges[i]) == DefaultRangeDefs()[i] && ranges[i].pct == 0.0
         && ranges[i].count == CountIn(values, DefaultRangeDefs()[i])
  }

  /** Every round at or above 1.0 falls into exactly one bucket, any other into none. */
  lemma BucketsPartition(v: real)
    ensures v >= 1.0 <==> exists i :: 0 <= i < |DefaultRangeDefs()| && InBucket(DefaultRangeDefs()[i], v)
    ensures forall i, j :: 0 <= i < j < |DefaultRangeDefs()| ==>
              !(InBucket(DefaultRangeDefs()[i], v) && InBucket(DefaultRangeDefs()[j], v))
  {
    var d := DefaultRangeDefs();
    assert forall i, j :: 0 <= i < j < |d| ==> d[i].max.Some? && d[i].max.value <= d[j].min;
    if v >= 1.0 {
      var k := if v < 1.2 then 0 else if v < 1.5 then 1 else if v < 2.0 then 2 else if v < 3.0 then 3
               else if v < 5.0 then 4 else if v < 10.0 then 5 else if v < 50.0 then 6 else 7;
      assert InBucket(d[k], v);
    }
  }

  function TotalIn(values: seq<real>, defs: seq<RangeBucket>): nat {
    if defs == [] then 0 else CountIn(values, defs[0]) + TotalIn(values, defs[1..])
  }

  lemma {:induction false} TotalInStep(values: seq<real>, v: real, defs: seq<RangeBucket>)
    requires forall i, j :: 0 <= i < j < |defs| ==> !(InBucket(defs[i], v) && InBucket(defs[j], v))
    ensures TotalIn(values + [v], defs) ==
              TotalIn(values, defs) + if exists i :: 0 <= i < |defs| && InBucket(defs[i], v) then 1 else 0
  {
    assert (values + [v])[..|values|] == values;
    if defs != [] {
      var rest := defs[1..];
      assert forall i :: 0 <= i < |rest| ==> rest[i] == defs[i + 1];
      TotalInStep(values, v, rest);
      if i :| 0 <= i < |defs| && InBucket(defs[i], v) {
        if i > 0 { assert InBucket(rest[i - 1], v); }
      }
    }
  }

  lemma {:induction false} TotalInNothing(defs: seq<RangeBucket>)
    ensures TotalIn([], defs) == 0
  {
    if defs != [] { TotalInNothing(defs[1..]); }
  }

  /** The bucket counts add up to the number of rounds at or above 1.0. */
  lemma {:induction false} BucketCountsAddUp(values: seq<real>)
    ensures TotalIn(values, DefaultRangeDefs()) == CountAtLeast(values, 1.0)
  {
    if values == [] {
      TotalInNothing(DefaultRangeDefs());
    } else {
      var before, v := values[..|values| - 1], values[|values| - 1];
      assert values == before + [v];
      BucketCountsAddUp(before);
      BucketsPartition(v);
      TotalInStep(before, v, DefaultRangeDefs());
    }
  }

  // Streaks.

  datatype Kind = NoRounds | Low | High

  function KindOf(v: real): Kind {
    if v < HIGH_THRESHOLD then Low else High
  }

  datatype Streak = Streak(kind: Kind, count: nat, maxLow: nat, maxHigh: nat)

  /** The `n` rounds from the `i`-th on are all of one kind. */
  ghost predicate IsRun(values: seq<real>, i: nat, n: nat, kind: Kind) {
    i + n <= |values| && forall k :: i <= k < i + n ==> KindOf(values[k]) == kind
  }

  ghost predicate Longest(values: seq<real>, kind: Kind, n: nat) {
    && (exists i: nat :: IsRun(values, i, n, kind))
    && (forall i: nat, m: nat :: IsRun(values, i, m, kind) ==> m <= n)
  }

  /** The run that reaches the last round and cannot be extended to the left. */
  ghost predicate Ending(values: seq<real>, kind: Kind, n: nat) {
    if values == [] then kind == NoRounds && n == 0
    else 0 < n <= |values| && IsRun(values, |values| - n, n, kind)
         && (n < |values| ==> KindOf(values[|values| - n - 1]) != kind)
  }

  ghost predicate Streaks(values: seq<real>, s: Streak) {
    Ending(values, s.kind, s.count) && Longest(values, Low, s.maxLow) && Longest(values, High, s.maxHigh)
  }

  function Extend(s: Streak, v: real): Streak {
    var kind := KindOf(v);
    var count := if s.kind == kind then s.count + 1 else 1;
    if kind == Low then Streak(kind, count, if s.maxLow < count then count else s.maxLow, s.maxHigh)
    else Streak(kind, count, s.maxLow, if s.maxHigh < count then count else s.maxHigh)
  }

  // A run that ends with the newest round is no longer than the current streak.
  lemma EndingIsLongest(values: seq<real>, kind: Kind, n: nat, m: nat)
    requires Ending(values, kind, n) && m <= |values| && IsRun(values, |values| - m, m, kind) && values != []
    ensures m <= n
  {
    assert n < |values| ==> KindOf(values[|values| - n - 1]) != kind;
  }

  // Runs of a list, and runs of the list with one more round.
  lemma RunsAfter(values: seq<real>, v: real, i: nat, n: nat, kind: Kind)
    requires i + n <= |values|
    ensures IsRun(values + [v], i, n, kind) <==> IsRun(values, i, n, kind)
  {
    var all := values + [v];
    assert forall k :: 0 <= k < |values| ==> all[k] == values[k];
  }

  lemma LongestStep(values: seq<real>, v: real, n: nat, count: nat)
    requires Longest(values, KindOf(v), n) && Ending(values + [v], KindOf(v), count)
    ensures Longest(values + [v], KindOf(v), if n < count then count else n)
  {
    var all, kind := values + [v], KindOf(v);
    var i: nat :| IsRun(values, i, n, kind);
    RunsAfter(values, v, i, n, kind);
    assert IsRun(all, |all| - count, count, kind);
    forall i: nat, m: nat | IsRun(all, i, m, kind) ensures m <= if n < count then count else n {
      if i + m == |all| { EndingIsLongest(all, kind, count, m); } else { RunsAfter(values, v, i, m, kind); }
    }
  }

  lemma LongestOther(values: seq<real>, v: real, kind: Kind, n: nat)
    requires Longest(values, kind, n) && KindOf(v) != kind
    ensures Longest(values + [v], kind, n)
  {
    var all := values + [v];
    assert all[|values|] == v;
    var i: nat :| IsRun(values, i, n, kind);
    RunsAfter(values, v, i, n, kind);
    forall i: nat, m: nat | IsRun(all, i, m, kind) ensures m <= n {
      if i + m < |all| { RunsAfter(values, v, i, m, kind); }
    }
  }

  lemma StreaksStep(values: seq<real>, s: Streak, v: real)
    requires Streaks(values, s)
    ensures Streaks(values + [v], Extend(s, v))
  {
    assert Ending(values + [v], KindOf(v), Extend(s, v).count);
    if KindOf(v) == Low {
      LongestStep(values, v, s.maxLow, Extend(s, v).count);
      LongestOther(values, v, High, s.maxHigh);
    } else {
      LongestStep(values, v, s.maxHigh, Extend(s, v).count);
      LongestOther(values, v, Low, s.maxLow);
    }
  }

  /** The streak record is determined by the rounds. */
  lemma StreaksAreUnique(values: seq<real>, s: Streak, t: Streak)
    requires Streaks(values, s) && Streaks(values, t)
    ensures s == t
  {
    SameLongest(values, Low, s.maxLow, t.maxLow);
    SameLongest(values, High, s.maxHigh, t.maxHigh);
    if values != [] {
      assert KindOf(values[|values| - 1]) == s.kind == t.kind;
      EndingIsLongest(values, s.kind, s.count, t.count);
      EndingIsLongest(values, t.kind, t.count, s.count);
    }
  }

  lemma SameLongest(values: seq<real>, kind: Kind, m: nat, n: nat)
    requires Longest(values, kind, m) && Longest(values, kind, n)
    ensures m == n
  {
    var i: nat :| IsRun(values, i, m, kind);
    var j: nat :| IsRun(values, j, n, kind);
  }

  // The median.

  predicate RealLe(a: real, b: real) {
    a <= b
  }

  function Median(values: seq<real>): real
    requires values != []
  {
    Sort(values, RealLe)[|values| / 2]
  }

  function CountBelow(values: seq<real>, v: real): nat {
    if values == [] then 0 else (if values[0] < v then 1 else 0) + CountBelow(values[1..], v)
  }

  function CountAbove(values: seq<real>, v: real): nat {
    if values == [] then 0 else (if values[0] > v then 1 else 0) + CountAbove(values[1..], v)
  }

  lemma {:induction false} InsertCounts(x: real, values: seq<real>, v: real)
    ensures CountBelow(Insert(x, values, RealLe), v) == CountBelow(values, v) + if x < v then 1 else 0
    ensures CountAbove(Insert(x, values, RealLe), v) == CountAbove(values, v) + if x > v then 1 else 0
  {
    if values != [] && !RealLe(x, values[0]) { InsertCounts(x, values[1..], v); }
  }

  lemma {:induction false} SortCounts(values: seq<real>, v: real)
    ensures CountBelow(Sort(values, RealLe), v) == CountBelow(values, v)
    ensures CountAbove(Sort(values, RealLe), v) == CountAbove(values, v)
  {
    if values != [] {
      SortCounts(values[1..], v);
      InsertCounts(values[0], Sort(values[1..], RealLe), v);
    }
  }

  lemma {:induction false} SortedCounts(xs: seq<real>, k: nat)
    requires Sorted(xs, RealLe) && k < |xs|
    ensures CountBelow(xs, xs[k]) <= k && CountAbove(xs, xs[k]) <= |xs| - 1 - k
    decreases |xs|
  {
    if k > 0 {
      assert forall i :: 0 <= i < |xs| - 1 ==> xs[1..][i] == xs[i + 1];
      SortedCounts(xs[1..], k - 1);
      assert RealLe(xs[0], xs[k]);
    } else {
      NoneBelow(xs, xs[0]);
      AboveAtMost(xs[1..], xs[0]);
    }
  }

  lemma {:induction false} NoneBelow(xs: seq<real>, v: real)
    requires forall i :: 0 <= i < |xs| ==> RealLe(v, xs[i])
    ensures CountBelow(xs, v) == 0
  {
    if xs != [] {
      assert forall i :: 0 <= i < |xs| - 1 ==> xs[1..][i] == xs[i + 1];
      NoneBelow(xs[1..], v);
    }
  }

  lemma {:induction false} AboveAtMost(xs: seq<real>, v: real)
    ensures CountAbove(xs, v) <= |xs|
  {
    if xs != [] { AboveAtMost(xs[1..], v); }
  }

  /** The median is one of the rounds, with at most half of them below it and fewer than half above. */
  lemma MedianIsTheMiddle(values: seq<real>)
    requires values != []
    ensures Median(values) in values
    ensures CountBelow(values, Median(values)) <= |values| / 2
    ensures CountAbove(values, Median(values)) <= |values| - 1 - |values| / 2
  {
    var sorted := Sort(values, RealLe);
    assert sorted[|values| / 2] in multiset(sorted);
    SortSorted(values, RealLe);
    SortedCounts(sorted, |values| / 2);
    SortCounts(values, Median(values));
  }

  ghost predicate Greatest(values: seq<real>, v: real) {
    v in values && forall w <- values :: w <= v
  }

  ghost predicate Least(values: seq<real>, v: real) {
    v in values && forall w <- values :: v <= w
  }

  datatype Snapshot = Snapshot(
    count: nat, average: Option<real>, median: Option<real>, highest: Option<real>, lowest: Option<real>)

  class CrashStatsAccumulator {
    var values: seq<real>
    var buckets: seq<RangeBucket>
    var streak: Streak
    var count: nat
    var sum: real
    var highest: Option<real>
    var lowest: Option<real>

    /** Every running number equals its definition over all rounds so far. */
    ghost predicate Valid()
      reads this
    {
      && count == |values| && sum == Sum(values)
      && (if values == [] then highest == lowest == None
          else highest.Some? && lowest.Some? && Greatest(values, highest.value) && Least(values, lowest.value))
      && Tallied(buckets, values) && Streaks(values, streak)
    }

    constructor ()
      ensures Valid() && values == []
    {
      values, buckets, streak := [], DefaultRangeDefs(), Streak(NoRounds, 0, 0, 0);
      count, sum, highest, lowest := 0, 0.0, None, None;
      new;
      assert IsRun([], 0, 0, Low) && IsRun([], 0, 0, High);
    }

    method AddRound(multiplier: real)
      requires Valid()
      modifies this
      ensures Valid() && values == old(values) + [multiplier]
      ensures streak.kind == if multiplier < HIGH_THRESHOLD then Low else High
      ensures streak.count == if streak.kind == old(streak.kind) then old(streak.count) + 1 else 1
    {
      StreaksStep(values, streak, multiplier);
      assert (values + [multiplier])[..|values|] == values;
      AddToBuckets(multiplier);
      AddToStreak(multiplier);
      values := values + [multiplier];
      count := count + 1;
      sum := sum + multiplier;
      if highest.None? || multiplier > highest.value { highest := Some(multiplier); }
      if lowest.None? || multiplier < lowest.value { lowest := Some(multiplier); }
    }

    // The bucket loop, which stops at the first bucket that fits.
    method AddToBuckets(v: real)
      requires Tallied(buckets, values)
      modifies this`buckets
      ensures Tallied(buckets, values + [v])
    {
      ghost var before := buckets;
      BucketsPartition(v);
      assert (values + [v])[..|values|] == values;
      for i := 0 to |buckets|
        invariant buckets == before
        invariant forall j :: 0 <= j < i ==> !InBucket(DefaultRangeDefs()[j], v)
      {
        if v >= buckets[i].min && (buckets[i].max.None? || v < buckets[i].max.value) {
          assert InBucket(DefaultRangeDefs()[i], v);
          buckets := buckets[i := buckets[i].(count := buckets[i].count + 1)];
          return;
        }
      }
    }

    method AddToStreak(v: real)
      modifies this`streak
      ensures streak == Extend(old(streak), v)
      ensures streak.kind == if v < HIGH_THRESHOLD then Low else High
    {
      if v < HIGH_THRESHOLD {
        if streak.kind == Low {
          streak := streak.(count := streak.count + 1);
        } else {
          streak := streak.(kind := Low, count := 1);
        }
        if streak.maxLow < streak.count { streak := streak.(maxLow := streak.count); }
      } else {
        if streak.kind == High {
          streak := streak.(count := streak.count + 1);
        } else {
          streak := streak.(kind := High, count := 1);
        }
        if streak.maxHigh < streak.count { streak := streak.(maxHigh := streak.count); }
      }
    }

    method GetSnapshot() returns (s: Snapshot)
      requires Valid()
      ensures s.count == |values|
      ensures values == [] ==> s == Snapshot(0, None, None, None, None)
      ensures values != [] ==>
                && s.average == Some(Sum(values) / |values| as real) && s.median == Some(Median(values))
                && s.highest.Some? && Greatest(values, s.highest.value)
                && s.lowest.Some? && Least(values, s.lowest.value)
    {
      if count == 0 { return Snapshot(0, None, None, None, None); }
      var sorted := Sort(values, RealLe);
      return Snapshot(count, Some(sum / count as real), Some(sorted[|sorted| / 2]), highest, lowest);
    }

    /** The buckets with their share of all rounds; the counts add up to the rounds at or above 1.0. */
    method Ranges() returns (out: seq<RangeBucket>)
      requires Valid()
      ensures |out| == |DefaultRangeDefs()|
      ensures forall i :: 0 <= i < |out| ==>
                && Blank(out[i]) == DefaultRangeDefs()[i] && out[i].count == CountIn(values, DefaultRangeDefs()[i])
                && out[i].pct == (if values == [] then 0.0 else 100.0 * out[i].count as real / |values| as real)
      ensures TotalIn(values, DefaultRangeDefs()) == CountAtLeast(values, 1.0)
    {
      BucketCountsAddUp(values);
      out := buckets;
      for i := 0 to |out|
        invariant |out| == |buckets| && forall j :: i <= j < |out| ==> out[j] == buckets[j]
        invariant forall j :: 0 <= j < i ==>
                    out[j] == buckets[j].(pct := if count == 0 then 0.0
                                                 else 100.0 * buckets[j].count as real / count as real)
      {
        out := out[i := out[i].(pct := if count == 0 then 0.0 else 100.0 * out[i].count as real / count as real)];
      }
    }
  }
}
