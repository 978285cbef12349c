/**
 Coarser bars from finer ones: the clock-bucket loop of backend/app/data_sources/moex.py and the
 weekly and monthly loops of forex.py.
 */
module Resampling {
  import opened Basics
  import opened Bars

  // ---------------------------------------------------------------- one bar for many

  function MaxHigh(s: seq<Bar>): int
    requires s != []
  {
    if |s| == 1 then s[0].high else Max(s[0].high, MaxHigh(s[1..]))
  }

  function MinLow(s: seq<Bar>): int
    requires s != []
  {
    if |s| == 1 then s[0].low else Min(s[0].low, MinLow(s[1..]))
  }

  function SumVolume(s: seq<Bar>): int {
    if s == [] then 0 else s[0].volume + SumVolume(s[1..])
  }

  /** First open, highest high, lowest low, last close and total volume of `s`, stamped `t`. */
  function Whole(s: seq<Bar>, t: int): Bar
    requires s != []
  {
    Bar(t, s[0].open, MaxHigh(s), MinLow(s), s[|s| - 1].close, SumVolume(s))
  }

  /** The high and the low are bounds of the bars they summarise, and are attained. */
  lemma {:induction false} ExtremesMean(s: seq<Bar>)
    requires s != []
    ensures forall i :: 0 <= i < |s| ==> s[i].high <= MaxHigh(s) && MinLow(s) <= s[i].low
    ensures (exists i :: 0 <= i < |s| && s[i].high == MaxHigh(s)) && (exists i :: 0 <= i < |s| && s[i].low == MinLow(s))
  {
    if |s| > 1 {
      var rest := s[1..];
      ExtremesMean(rest);
      var i :| 0 <= i < |rest| && rest[i].high == MaxHigh(rest);
      var j :| 0 <= j < |rest| && rest[j].low == MinLow(rest);
      assert s[i + 1] == rest[i] && s[j + 1] == rest[j];
      assert forall k :: 0 < k < |s| ==> s[k] == rest[k - 1];
      assert s[0].high == MaxHigh(s) || s[i + 1].high == MaxHigh(s);
      assert s[0].low == MinLow(s) || s[j + 1].low == MinLow(s);
    } else {
      assert s[0].high == MaxHigh(s) && s[0].low == MinLow(s);
    }
  }

  /** Take one more, later bar into `a`. */
  function Extend(a: Bar, b: Bar): Bar {
    Bar(a.time, a.open, Max(a.high, b.high), Min(a.low, b.low), b.close, a.volume + b.volume)
  }

  lemma {:induction false} WholeOne(b: Bar, t: int)
    ensures Whole([b], t) == b.(time := t)
  {
    assert [b][1..] == [];
    assert SumVolume([]) == 0;
  }

  lemma {:induction false} WholeSnoc(s: seq<Bar>, b: Bar, t: int)
    requires s != []
    ensures Whole(s + [b], t) == Extend(Whole(s, t), b)
  {
    var all := s + [b];
    if |s| > 1 {
      assert all[1..] == s[1..] + [b];
      WholeSnoc(s[1..], b, t);
    } else {
      assert all[1..] == [b] && s[1..] == [] && [b][1..] == [];
      assert MaxHigh([b]) == b.high && MinLow([b]) == b.low && SumVolume([b]) == b.volume;
    }
  }

  lemma {:induction false} WholeConcat(a: seq<Bar>, b: seq<Bar>, t: int)
    requires a != [] && b != []
    ensures Whole(a + b, t) == Extend(Whole(a, t), Whole(b, t))
  {
    var all := a + b;
    if |a| > 1 {
      assert all[1..] == a[1..] + b;
      WholeConcat(a[1..], b, t);
    } else {
      assert all[1..] == b && a[1..] == [];
      assert SumVolume([]) == 0;
    }
  }

  // ---------------------------------------------------------------- grouping runs of equal keys

  type Clock = int -> int

  function Open(b: Bar, stamp: Clock): Bar {
    b.(time := stamp(b.time))
  }

  /** Replace every run of bars with equal keys by one bar, stamped from the run's first bar. */
  function GroupBy(bars: seq<Bar>, key: Clock, stamp: Clock): (g: seq<Bar>)
    ensures bars != [] ==> g != []
  {
    if bars == [] then []
    else
      var front, b := bars[..|bars| - 1], bars[|bars| - 1];
      var g := GroupBy(front, key, stamp);
      if front != [] && key(front[|front| - 1].time) == key(b.time) then
        g[..|g| - 1] + [Extend(g[|g| - 1], b)]
      else
        g + [Open(b, stamp)]
  }

  /** The keys of those runs. */
  function Keys(bars: seq<Bar>, key: Clock): seq<int> {
    if bars == [] then []
    else
      var front, k := bars[..|bars| - 1], key(bars[|bars| - 1].time);
      if front != [] && key(front[|front| - 1].time) == k then Keys(front, key) else Keys(front, key) + [k]
  }

  ghost predicate Monotone(key: Clock) {
    forall t, u :: t <= u ==> key(t) <= key(u)
  }

  function HasKey(key: Clock, k: int): Bar -> bool {
    (b: Bar) => key(b.time) == k
  }

  /** Group `j` is the summary of exactly the bars that carry its key. */
  ghost predicate GroupIs(bars: seq<Bar>, key: Clock, stamp: Clock, k: int, out: Bar) {
    var members := Filter(bars, HasKey(key, k));
    members != [] && out == Whole(members, stamp(members[0].time))
  }

  lemma {:induction false} FilterSnoc(bars: seq<Bar>, b: Bar, keep: Bar -> bool)
    ensures Filter(bars + [b], keep) == if keep(b) then Filter(bars, keep) + [b] else Filter(bars, keep)
  {
    FilterConcat(bars, [b], keep);
  }

  ghost predicate Rising(ks: seq<int>) {
    forall i, j :: 0 <= i < j < |ks| ==> ks[i] < ks[j]
  }

  lemma {:induction false} KeysMean(bars: seq<Bar>, key: Clock)
    requires Sorted(bars) && Monotone(key)
    ensures var ks := Keys(bars, key);
      Rising(ks) && (bars != [] ==> ks != [] && ks[|ks| - 1] == key(bars[|bars| - 1].time))
  {
    if bars != [] {
      var front, b := bars[..|bars| - 1], bars[|bars| - 1];
      KeysMean(front, key);
      if front != [] {
        assert key(front[|front| - 1].time) <= key(b.time);
      }
    }
  }

  lemma {:induction false} KeysOccur(bars: seq<Bar>, key: Clock, k: int)
    ensures k in Keys(bars, key) <==> exists b :: b in bars && key(b.time) == k
  {
    if bars != [] {
      var front, b := bars[..|bars| - 1], bars[|bars| - 1];
      KeysOccur(front, key, k);
      assert forall x :: x in bars <==> x in front || x == b;
      assert front != [] ==> front[|front| - 1] in front;
    }
  }

  /** A group whose key the next bar does not carry stays as it is. */
  lemma {:induction false} GroupStays(front: seq<Bar>, b: Bar, key: Clock, stamp: Clock, k: int, out: Bar)
    requires GroupIs(front, key, stamp, k, out) && key(b.time) != k
    ensures GroupIs(front + [b], key, stamp, k, out)
  {
    FilterSnoc(front, b, HasKey(key, k));
  }

  lemma {:induction false} GroupGrows(front: seq<Bar>, b: Bar, key: Clock, stamp: Clock, k: int, out: Bar)
    requires GroupIs(front, key, stamp, k, out) && key(b.time) == k
    ensures GroupIs(front + [b], key, stamp, k, Extend(out, b))
  {
    FilterSnoc(front, b, HasKey(key, k));
    var members := Filter(front, HasKey(key, k));
    WholeSnoc(members, b, stamp(members[0].time));
  }

  lemma {:induction false} GroupStarts(front: seq<Bar>, b: Bar, key: Clock, stamp: Clock)
    requires Sorted(front + [b]) && Monotone(key)
    requires front != [] ==> key(front[|front| - 1].time) != key(b.time)
    ensures GroupIs(front + [b], key, stamp, key(b.time), Open(b, stamp))
  {
    NewKey(front, b, key);
    FilterSnoc(front, b, HasKey(key, key(b.time)));
    assert Filter(front + [b], HasKey(key, key(b.time))) == [b];
    WholeOne(b, stamp(b.time));
  }

  ghost predicate GroupsAre(bars: seq<Bar>, key: Clock, stamp: Clock, ks: seq<int>, g: seq<Bar>) {
    |g| == |ks| && forall j :: 0 <= j < |g| ==> GroupIs(bars, key, stamp, ks[j], g[j])
  }

  lemma {:induction false} LastGroupGrows(front: seq<Bar>, b: Bar, key: Clock, stamp: Clock, ks: seq<int>, g: seq<Bar>)
    requires GroupsAre(front, key, stamp, ks, g) && g != [] && Rising(ks) && key(b.time) == ks[|ks| - 1]
    ensures GroupsAre(front + [b], key, stamp, ks, g[..|g| - 1] + [Extend(g[|g| - 1], b)])
  {
    hide GroupIs, Extend;
    var n := |g| - 1;
    GroupGrows(front, b, key, stamp, ks[n], g[n]);
    forall j | 0 <= j < n
      ensures GroupIs(front + [b], key, stamp, ks[j], g[j])
    {
      assert ks[j] < ks[n];
      GroupStays(front, b, key, stamp, ks[j], g[j]);
    }
  }

  lemma {:induction false} NewGroupStarts(front: seq<Bar>, b: Bar, key: Clock, stamp: Clock, ks: seq<int>, g: seq<Bar>)
    requires GroupsAre(front, key, stamp, ks, g) && Rising(ks + [key(b.time)])
    requires GroupIs(front + [b], key, stamp, key(b.time), Open(b, stamp))
    ensures GroupsAre(front + [b], key, stamp, ks + [key(b.time)], g + [Open(b, stamp)])
  {
    hide GroupIs, Open;
    var ks' := ks + [key(b.time)];
    forall j | 0 <= j < |g|
      ensures GroupIs(front + [b], key, stamp, ks[j], g[j])
    {
      assert ks'[j] < ks'[|g|];
      GroupStays(front, b, key, stamp, ks[j], g[j]);
    }
  }

  lemma {:induction false} GroupsHold(bars: seq<Bar>, key: Clock, stamp: Clock)
    requires Sorted(bars) && Monotone(key)
    ensures GroupsAre(bars, key, stamp, Keys(bars, key), GroupBy(bars, key, stamp))
  {
    if bars != [] {
      var front, b := bars[..|bars| - 1], bars[|bars| - 1];
      assert bars == front + [b];
      GroupsHold(front, key, stamp);
      KeysMean(front, key);
      KeysMean(bars, key);
      GroupSnoc(front, b, key, stamp);
      var g, ks := GroupBy(front, key, stamp), Keys(front, key);
      if front != [] && key(front[|front| - 1].time) == key(b.time) {
        hide GroupIs, Monotone, Sorted, Extend, Open;
        LastGroupGrows(front, b, key, stamp, ks, g);
      } else {
        GroupStarts(front, b, key, stamp);
        hide GroupIs, Monotone, Sorted, Extend, Open;
        NewGroupStarts(front, b, key, stamp, ks, g);
      }
    }
  }

  /**
   A true group-by: on time-sorted bars and under a monotone key the one-pass loop returns,
   in strictly increasing key order, one bar per key that occurs, and that bar is the first
   open, highest high, lowest low, last close and total volume of all bars with that key.
   */
  lemma {:induction false} GroupsAreBuckets(bars: seq<Bar>, key: Clock, stamp: Clock)
    requires Sorted(bars) && Monotone(key)
    ensures var g, ks := GroupBy(bars, key, stamp), Keys(bars, key);
      && |g| == |ks| && Rising(ks)
      && (forall k :: k in ks <==> exists b :: b in bars && key(b.time) == k)
      && (forall j :: 0 <= j < |g| ==> GroupIs(bars, key, stamp, ks[j], g[j]))
  {
    GroupsHold(bars, key, stamp);
    KeysMean(bars, key);
    hide GroupIs, GroupBy;
    forall k
      ensures k in Keys(bars, key) <==> exists b :: b in bars && key(b.time) == k
    {
      KeysOccur(bars, key, k);
    }
  }

  lemma {:induction false} NewKey(front: seq<Bar>, b: Bar, key: Clock)
    requires Sorted(front + [b]) && Monotone(key)
    requires front != [] ==> key(front[|front| - 1].time) != key(b.time)
    ensures Filter(front, HasKey(key, key(b.time))) == []
  {
    KeysDiffer(front, b, key);
    FilterNone(front, HasKey(key, key(b.time)));
  }

  lemma {:induction false} KeysDiffer(front: seq<Bar>, b: Bar, key: Clock)
    requires Sorted(front + [b]) && Monotone(key)
    requires front != [] ==> key(front[|front| - 1].time) != key(b.time)
    ensures forall i :: 0 <= i < |front| ==> key(front[i].time) != key(b.time)
  {
    var bars, last := front + [b], |front| - 1;
    if front != [] {
      assert bars[last].time <= bars[last + 1].time && bars[last] == front[last] && bars[last + 1] == b;
      assert key(front[last].time) <= key(b.time);
      forall i | 0 <= i < last
        ensures key(front[i].time) != key(b.time)
      {
        assert bars[i].time <= bars[last].time && bars[i] == front[i];
        assert key(front[i].time) <= key(front[last].time);
      }
    }
  }

  lemma {:induction false} SumConcat(a: seq<Bar>, b: seq<Bar>)
    ensures SumVolume(a + b) == SumVolume(a) + SumVolume(b)
  {
    if a == [] {
      assert a + b == b;
    } else {
      assert (a + b)[1..] == a[1..] + b;
      SumConcat(a[1..], b);
    }
  }

  /** Grouping neither creates nor loses volume, whatever the input order and the key. */
  lemma {:induction false} VolumeConserved(bars: seq<Bar>, key: Clock, stamp: Clock)
    ensures SumVolume(GroupBy(bars, key, stamp)) == SumVolume(bars)
  {
    if bars != [] {
      var front, b := bars[..|bars| - 1], bars[|bars| - 1];
      VolumeConserved(front, key, stamp);
      var g := GroupBy(front, key, stamp);
      assert bars == front + [b];
      SumConcat(front, [b]);
      SumConcat(g, [Open(b, stamp)]);
      if g != [] {
        assert g == g[..|g| - 1] + [g[|g| - 1]];
        SumConcat(g[..|g| - 1], [g[|g| - 1]]);
        SumConcat(g[..|g| - 1], [Extend(g[|g| - 1], b)]);
      }
    }
  }

  /** When later periods have later stamps, the output times strictly increase. */
  lemma {:induction false} PeriodTimesIncrease(daily: seq<Bar>, key: Clock, stamp: Clock)
    requires Sorted(daily) && Monotone(key) && forall t, u :: key(t) < key(u) ==> stamp(t) < stamp(u)
    ensures Increasing(GroupBy(daily, key, stamp))
  {
    GroupsAreBuckets(daily, key, stamp);
    var g, ks := GroupBy(daily, key, stamp), Keys(daily, key);
    forall i, j | 0 <= i < j < |g|
      ensures g[i].time < g[j].time
    {
      StampOf(daily, key, stamp, ks[i], g[i]);
      StampOf(daily, key, stamp, ks[j], g[j]);
    }
  }

  lemma {:induction false} StampOf(bars: seq<Bar>, key: Clock, stamp: Clock, k: int, out: Bar)
    requires GroupIs(bars, key, stamp, k, out)
    ensures exists t :: key(t) == k && out.time == stamp(t)
  {
    var members := Filter(bars, HasKey(key, k));
    FilterMembers(bars, HasKey(key, k));
    assert members[0] in members;
  }

  // ---------------------------------------------------------------- clock buckets

  /** The start of the bucket of width `width` that holds `t`. */
  function BucketStart(width: int, t: int): int
    requires width > 0
  {
    t - t % width
  }

  function Bucket(width: int): Clock
    requires width > 0
  {
    (t: int) => BucketStart(width, t)
  }

  function Resampled(klines: seq<Bar>, width: int): seq<Bar> {
    if klines == [] || width <= 0 then klines
    else GroupBy(klines, Bucket(width), Bucket(width))
  }

  method Resample(klines: seq<Bar>, targetSeconds: int) returns (out: seq<Bar>)
    ensures out == Resampled(klines, targetSeconds)
  {
    if klines == [] || targetSeconds <= 0 {
      return klines;
    }
    out := [];
    var current: Option<Bar> := None;
    var bucketStart := -1;
    ghost var key := Bucket(targetSeconds);
    hide GroupBy, Bucket, BucketStart;
    for i := 0 to |klines|
      invariant current.None? <==> i == 0
      invariant current.None? ==> out == []
      invariant current.Some? ==> bucketStart == key(klines[i - 1].time)
      invariant current.Some? ==> out + [current.value] == GroupBy(klines[..i], key, key)
    {
      var k := klines[i];
      var b := k.time - k.time % targetSeconds;
      BucketIs(targetSeconds, k.time);
      assert klines[..i + 1] == klines[..i] + [k];
      if current.None? {
        OneGrouped(k, key, key);
        assert klines[..i + 1] == [k];
      } else {
        NextGroup(klines[..i], k, key, out, current.value);
      }
      if current.None? || b != bucketStart {
        if current.Some? {
          out := out + [current.value];
        }
        current := Some(Bar(b, k.open, k.high, k.low, k.close, k.volume));
        bucketStart := b;
      } else {
        var c := current.value;
        current := Some(Bar(c.time, c.open, Max(c.high, k.high), Min(c.low, k.low), k.close, c.volume + k.volume));
      }
    }
    assert klines[..|klines|] == klines;
    if current.Some? {
      out := out + [current.value];
    }
  }

  lemma {:induction false} BucketIs(w: int, t: int)
    requires w > 0
    ensures Bucket(w)(t) == t - t % w
  {
  }

  /** One more bar is a new group or extends the last one. */
  lemma {:induction false} NextGroup(h: seq<Bar>, k: Bar, key: Clock, out: seq<Bar>, c: Bar)
    requires h != [] && out + [c] == GroupBy(h, key, key)
    ensures GroupBy(h + [k], key, key) ==
              if key(k.time) != key(h[|h| - 1].time) then out + [c] + [k.(time := key(k.time))] else out + [Extend(c, k)]
  {
    GroupSnoc(h, k, key, key);
    hide GroupBy;
    assert (out + [c])[..|out|] == out;
  }

  /** The loops of `_aggregate_to_weekly` and `_aggregate_to_monthly`, which differ in key and stamp only. */
  method AggregateByPeriod(daily: seq<Bar>, periodKey: Clock, periodStart: Clock) returns (out: seq<Bar>)
    ensures out == GroupBy(daily, periodKey, periodStart)
  {
    out := [];
    if daily == [] {
      return;
    }
    var currentKey: Option<int> := None;
    var data: Option<Bar> := None;
    for i := 0 to |daily|
      invariant currentKey.None? <==> i == 0
      invariant data.None? <==> i == 0
      invariant i == 0 ==> out == []
      invariant i > 0 ==> currentKey.value == periodKey(daily[i - 1].time)
      invariant i > 0 ==> out + [data.value] == GroupBy(daily[..i], periodKey, periodStart)
    {
      var k := daily[i];
      var key := periodKey(k.time);
      assert daily[..i + 1][..i] == daily[..i];
      if Some(key) != currentKey {
        if data.Some? {
          out := out + [data.value];
        }
        currentKey := Some(key);
        data := Some(Bar(periodStart(k.time), k.open, k.high, k.low, k.close, k.volume));
      } else {
        var d := data.value;
        data := Some(Bar(d.time, d.open, Max(d.high, k.high), Min(d.low, k.low), k.close, d.volume + k.volume));
      }
    }
    assert daily[..|daily|] == daily;
    out := out + [data.value];
  }

  lemma {:induction false} MulAtLeast(w: int, d: int)
    requires w > 0 && d >= 1
    ensures w * d >= w
  {
  }

  lemma {:induction false} MultiplesApart(w: int, q: int, p: int)
    requires w > 0 && w * q < w * p + w
    ensures q <= p
  {
    if q > p {
      MulAtLeast(w, q - p);
    }
  }

  lemma {:induction false} StartIsMultiple(w: int, t: int)
    requires w > 0
    ensures BucketStart(w, t) == w * (t / w) && w * (t / w) <= t < w * (t / w) + w
  {
  }

  lemma {:induction false} StartIs(w: int, t: int, q: int)
    requires w > 0 && w * q <= t < w * q + w
    ensures BucketStart(w, t) == w * q
  {
    StartIsMultiple(w, t);
    MultiplesApart(w, q, t / w);
    MultiplesApart(w, t / w, q);
  }

  /** A coarse bucket is made of whole fine buckets. */
  lemma {:induction false} BucketsNest(a: int, b: int, t: int)
    requires a > 0 && b > 0 && b % a == 0
    ensures BucketStart(b, BucketStart(a, t)) == BucketStart(b, t)
    ensures BucketStart(a, t) == BucketStart(a, BucketStart(a, t))
  {
    var n, p, q := b / a, t / a, t / b;
    StartIsMultiple(a, b);
    StartIsMultiple(a, t);
    StartIsMultiple(b, t);
    assert b == a * n;
    assert b * q == a * (n * q) by {
      assert a * n * q == a * (n * q);
    }
    MultiplesApart(a, n * q, p);
    assert a * (n * q) <= a * p by {
      if n * q < p { MulAtLeast(a, p - n * q); assert a * (p - n * q) == a * p - a * (n * q); }
    }
    StartIs(b, a * p, q);
    StartIs(a, a * p, p);
  }

  lemma {:induction false} StartMonotone(w: int, t: int, u: int)
    requires w > 0 && t <= u
    ensures BucketStart(w, t) <= BucketStart(w, u)
  {
    var q, p := t / w, u / w;
    StartIsMultiple(w, t);
    StartIsMultiple(w, u);
    MultiplesApart(w, q, p);
    if q < p {
      MulAtLeast(w, p - q);
      assert w * (p - q) == w * p - w * q;
    }
  }

  lemma {:induction false} BucketMonotone(width: int)
    requires width > 0
    ensures Monotone(Bucket(width))
  {
    forall t, u | t <= u
      ensures BucketStart(width, t) <= BucketStart(width, u)
    {
      StartMonotone(width, t, u);
    }
  }

  /**
   The clock resampler on sorted input: bucket times strictly increase, and every output bar
   is the summary of exactly the bars of its own bucket.
   */
  lemma {:induction false} ResampleMeans(klines: seq<Bar>, width: int)
    requires Sorted(klines) && width > 0
    ensures var out := Resampled(klines, width);
      && Increasing(out)
      && SumVolume(out) == SumVolume(klines)
      && (forall j :: 0 <= j < |out| ==>
           var members := Filter(klines, HasKey(Bucket(width), out[j].time));
           members != [] && out[j] == Whole(members, out[j].time))
      && (forall b :: b in klines ==> exists j :: 0 <= j < |out| && out[j].time == BucketStart(width, b.time))
  {
    var key := Bucket(width);
    BucketMonotone(width);
    GroupsAreBuckets(klines, key, key);
    KeysMean(klines, key);
    VolumeConserved(klines, key, key);
    var out, ks := GroupBy(klines, key, key), Keys(klines, key);
    forall j | 0 <= j < |out|
      ensures out[j].time == ks[j]
    {
      assert GroupIs(klines, key, key, ks[j], out[j]);
      FilterMembers(klines, HasKey(key, ks[j]));
      assert Filter(klines, HasKey(key, ks[j]))[0] in Filter(klines, HasKey(key, ks[j]));
    }
    forall b | b in klines
      ensures exists j :: 0 <= j < |out| && out[j].time == BucketStart(width, b.time)
    {
      assert key(b.time) in ks;
      var j :| 0 <= j < |ks| && ks[j] == key(b.time);
      assert out[j].time == ks[j];
    }
  }

  // ---------------------------------------------------------------- resampling composes

  lemma {:induction false} LastStamp(bars: seq<Bar>, width: int)
    requires width > 0 && bars != []
    ensures var g := GroupBy(bars, Bucket(width), Bucket(width));
      g[|g| - 1].time == BucketStart(width, bars[|bars| - 1].time)
  {
    var front := bars[..|bars| - 1];
    if front != [] {
      LastStamp(front, width);
    }
  }

  /** Extending the last bar before grouping is the same as extending the last group after. */
  lemma {:induction false} ExtendLast(h: seq<Bar>, l: Bar, b: Bar, key: Clock)
    ensures var r := GroupBy(h + [l], key, key);
      GroupBy(h + [Extend(l, b)], key, key) == r[..|r| - 1] + [Extend(r[|r| - 1], b)]
  {
    GroupSnoc(h, l, key, key);
    GroupSnoc(h, Extend(l, b), key, key);
    var r := GroupBy(h, key, key);
    assert Open(Extend(l, b), key) == Extend(Open(l, key), b);
    assert forall c :: Extend(c, Extend(l, b)) == Extend(Extend(c, l), b);
    hide GroupBy, Open;
  }

  lemma {:induction false} GroupSnoc(h: seq<Bar>, y: Bar, key: Clock, stamp: Clock)
    ensures var r := GroupBy(h, key, stamp);
      GroupBy(h + [y], key, stamp) ==
        if h != [] && key(h[|h| - 1].time) == key(y.time) then r[..|r| - 1] + [Extend(r[|r| - 1], y)]
        else r + [Open(y, stamp)]
  {
    assert (h + [y])[..|h|] == h;
  }

  /** Within a fine bucket, one more bar extends the last fine group and so the last coarse one. */
  lemma {:induction false} TwiceSame(front: seq<Bar>, x: Bar, a: int, b: int)
    requires a > 0 && b > 0 && b % a == 0 && front != []
    requires BucketStart(a, front[|front| - 1].time) == BucketStart(a, x.time)
    requires GroupBy(GroupBy(front, Bucket(a), Bucket(a)), Bucket(b), Bucket(b)) == GroupBy(front, Bucket(b), Bucket(b))
    ensures GroupBy(GroupBy(front + [x], Bucket(a), Bucket(a)), Bucket(b), Bucket(b)) ==
              GroupBy(front + [x], Bucket(b), Bucket(b))
  {
    var g := GroupBy(front, Bucket(a), Bucket(a));
    BucketsNest(a, b, x.time);
    BucketsNest(a, b, front[|front| - 1].time);
    assert g == g[..|g| - 1] + [g[|g| - 1]];
    assert Bucket(a)(front[|front| - 1].time) == Bucket(a)(x.time);
    assert Bucket(b)(front[|front| - 1].time) == Bucket(b)(x.time);
    hide BucketStart, GroupBy, Bucket, Open, Extend;
    GroupSnoc(front, x, Bucket(a), Bucket(a));
    GroupSnoc(front, x, Bucket(b), Bucket(b));
    ExtendLast(g[..|g| - 1], g[|g| - 1], x, Bucket(b));
  }

  /** At the start of a fine bucket, one more bar is a new fine group that the coarse step treats as the bar. */
  lemma {:induction false} TwiceNew(front: seq<Bar>, x: Bar, a: int, b: int)
    requires a > 0 && b > 0 && b % a == 0 && front != []
    requires BucketStart(a, front[|front| - 1].time) != BucketStart(a, x.time)
    requires GroupBy(GroupBy(front, Bucket(a), Bucket(a)), Bucket(b), Bucket(b)) == GroupBy(front, Bucket(b), Bucket(b))
    ensures GroupBy(GroupBy(front + [x], Bucket(a), Bucket(a)), Bucket(b), Bucket(b)) ==
              GroupBy(front + [x], Bucket(b), Bucket(b))
  {
    var g := GroupBy(front, Bucket(a), Bucket(a));
    LastStamp(front, a);
    BucketsNest(a, b, x.time);
    BucketsNest(a, b, front[|front| - 1].time);
    var y := Open(x, Bucket(a));
    assert Open(y, Bucket(b)) == Open(x, Bucket(b));
    assert forall c :: Extend(c, y) == Extend(c, x);
    assert Bucket(b)(g[|g| - 1].time) == Bucket(b)(front[|front| - 1].time) && Bucket(b)(y.time) == Bucket(b)(x.time);
    assert Bucket(a)(front[|front| - 1].time) != Bucket(a)(x.time);
    hide BucketStart, GroupBy, Bucket, Open, Extend;
    GroupSnoc(front, x, Bucket(a), Bucket(a));
    GroupSnoc(front, x, Bucket(b), Bucket(b));
    GroupSnoc(g, y, Bucket(b), Bucket(b));
  }

  lemma {:induction false} OneGrouped(x: Bar, key: Clock, stamp: Clock)
    ensures GroupBy([x], key, stamp) == [Open(x, stamp)]
  {
    GroupSnoc([], x, key, stamp);
    assert [] + [x] == [x];
  }

  lemma {:induction false} OneTwice(x: Bar, a: int, b: int)
    requires a > 0 && b > 0 && b % a == 0
    ensures GroupBy(GroupBy([x], Bucket(a), Bucket(a)), Bucket(b), Bucket(b)) == GroupBy([x], Bucket(b), Bucket(b))
  {
    var y := Open(x, Bucket(a));
    BucketsNest(a, b, x.time);
    assert Open(y, Bucket(b)) == Open(x, Bucket(b));
    hide GroupBy, Bucket, Open;
    OneGrouped(x, Bucket(a), Bucket(a));
    OneGrouped(x, Bucket(b), Bucket(b));
    OneGrouped(y, Bucket(b), Bucket(b));
  }

  lemma {:induction false} GroupTwice(bars: seq<Bar>, a: int, b: int)
    requires a > 0 && b > 0 && b % a == 0
    ensures GroupBy(GroupBy(bars, Bucket(a), Bucket(a)), Bucket(b), Bucket(b)) == GroupBy(bars, Bucket(b), Bucket(b))
  {
    if bars != [] {
      var front, x := bars[..|bars| - 1], bars[|bars| - 1];
      assert bars == front + [x];
      hide BucketStart, GroupBy, Bucket;
      GroupTwice(front, a, b);
      if front == [] {
        OneTwice(x, a, b);
      } else if BucketStart(a, front[|front| - 1].time) == BucketStart(a, x.time) {
        TwiceSame(front, x, a, b);
      } else {
        TwiceNew(front, x, a, b);
      }
    }
  }

  /** Resampling to `a` and then to a multiple `b` of `a` equals resampling to `b`, on any input. */
  lemma {:induction false} ResampleComposes(klines: seq<Bar>, a: int, b: int)
    requires a > 0 && b > 0 && b % a == 0
    ensures Resampled(Resampled(klines, a), b) == Resampled(klines, b)
  {
    GroupTwice(klines, a, b);
  }

  // ---------------------------------------------------------------- summaries by their fields

  /**
   A summary has the first bar's open, the last one's close, a high and a low that bound all bars
   and are attained, and the sum of the volumes.
   */
  ghost predicate Summarises(b: Bar, s: seq<Bar>, t: int)
    requires s != []
  {
    && b.time == t && b.open == s[0].open && b.close == s[|s| - 1].close
    && (forall i :: 0 <= i < |s| ==> b.low <= s[i].low && s[i].high <= b.high)
    && (exists i :: 0 <= i < |s| && s[i].high == b.high) && (exists i :: 0 <= i < |s| && s[i].low == b.low)
    && b.volume == SumVolume(s)
  }

  lemma {:induction false} WholeSummarises(s: seq<Bar>, t: int)
    requires s != []
    ensures Summarises(Whole(s, t), s, t)
  {
    ExtremesMean(s);
    hide MaxHigh, MinLow, SumVolume;
  }

  lemma {:induction false} BucketRange(w: int, t: int, x: int, y: int)
    requires w > 0 && t == BucketStart(w, x)
    ensures BucketStart(w, y) == t <==> t <= y < t + w
  {
    hide BucketStart;
    StartIsMultiple(w, x);
    StartIsMultiple(w, y);
    if t <= y < t + w {
      StartIs(w, y, x / w);
    }
  }

  /** Every bar of a sorted input's resampling summarises, field by field, the bars in its `w` seconds. */
  lemma {:induction false} BucketsSummarised(bars: seq<Bar>, w: int, j: nat)
    requires w > 0 && Sorted(bars) && j < |Resampled(bars, w)|
    ensures var r := Resampled(bars, w)[j];
      var bucket := Filter(bars, HasKey(Bucket(w), r.time));
      && bucket != [] && Summarises(r, bucket, r.time)
      && forall b :: b in bucket <==> b in bars && r.time <= b.time < r.time + w
  {
    ResampleMeans(bars, w);
    hide *;
    var r := Resampled(bars, w)[j];
    var bucket := Filter(bars, HasKey(Bucket(w), r.time));
    InBucket(bars, w, r.time, bucket[0]);
    WholeSummarises(bucket, r.time);
    forall b
      ensures b in bucket <==> b in bars && r.time <= b.time < r.time + w
    {
      InBucket(bars, w, r.time, b);
      BucketRange(w, r.time, bucket[0].time, b.time);
    }
  }

  lemma {:induction false} InBucket(bars: seq<Bar>, w: int, t: int, b: Bar)
    requires w > 0
    ensures b in Filter(bars, HasKey(Bucket(w), t)) <==> b in bars && BucketStart(w, b.time) == t
  {
    FilterMembers(bars, HasKey(Bucket(w), t));
  }
}
