/**
 The three "merge every n bars" loops: `_resample_ohlcv` of backend/app/data_sources/crypto.py
 and `_merge_every_n_sorted_bars` of asia_stock_kline.py and us_stock.py.
 */
module Merging {
  import opened Basics
  import opened Bars
  import opened Resampling

  /** One bar for every `n` consecutive bars; a shorter remainder is dropped. */
  function Chunks(bars: seq<Bar>, n: nat): seq<Bar>
    requires n >= 1
  {
    if |bars| < n then [] else [Whole(bars[..n], bars[0].time)] + Chunks(bars[n..], n)
  }

  function CryptoMerged(bars: seq<Bar>, n: int): seq<Bar> {
    if n <= 1 || bars == [] then bars else Chunks(bars, n)
  }

  function AsiaMerged(bars: seq<Bar>, n: int): seq<Bar> {
    if n <= 1 || |bars| < n then bars else Chunks(bars, n)
  }

  function UsMerged(bars: seq<Bar>, n: int): seq<Bar> {
    if n <= 1 || |bars| < n then bars else Chunks(SortByTime(bars), n)
  }

  // ---------------------------------------------------------------- the loops

  method MergeCrypto(ohlcv: seq<Bar>, bucketSize: int) returns (out: seq<Bar>)
    ensures out == CryptoMerged(ohlcv, bucketSize)
  {
    if bucketSize <= 1 || ohlcv == [] {
      return ohlcv;
    }
    out := [];
    var i := 0;
    while i < |ohlcv|
      invariant 0 <= i <= |ohlcv|
      invariant out + Chunks(ohlcv[i..], bucketSize) == Chunks(ohlcv, bucketSize)
    {
      var chunk := ohlcv[i..Min(|ohlcv|, i + bucketSize)];
      if |chunk| < bucketSize {
        break;
      }
      TakeChunk(ohlcv, i, bucketSize);
      out := out + [Bar(chunk[0].time, chunk[0].open, MaxHigh(chunk), MinLow(chunk), chunk[|chunk| - 1].close, SumVolume(chunk))];
      i := i + bucketSize;
    }
  }

  method MergeAsia(bars: seq<Bar>, n: int) returns (out: seq<Bar>)
    ensures out == AsiaMerged(bars, n)
  {
    if n <= 1 || |bars| < n {
      return bars;
    }
    out := [];
    var i := 0;
    while i + n <= |bars|
      invariant 0 <= i <= |bars|
      invariant out + Chunks(bars[i..], n) == Chunks(bars, n)
    {
      var chunk := bars[i..i + n];
      TakeChunk(bars, i, n);
      out := out + [Bar(chunk[0].time, chunk[0].open, MaxHigh(chunk), MinLow(chunk), chunk[|chunk| - 1].close, SumVolume(chunk))];
      i := i + n;
    }
  }

  method MergeUs(bars: seq<Bar>, n: int) returns (out: seq<Bar>)
    ensures out == UsMerged(bars, n)
  {
    if n <= 1 || |bars| < n {
      return bars;
    }
    var sorted := SortByTime(bars);
    out := [];
    var stop := |sorted| - |sorted| % n;
    var i := 0;
    StopIsWhole(|sorted|, n);
    while i < stop
      invariant 0 <= i <= stop && Remainder(stop - i, n) == 0
      invariant out + Chunks(sorted[i..], n) == Chunks(sorted, n)
    {
      TakeChunk(sorted, i, n);
      var chunk := sorted[i..i + n];
      out := out + [Bar(chunk[0].time, chunk[0].open, MaxHigh(chunk), MinLow(chunk), chunk[|chunk| - 1].close, SumVolume(chunk))];
      i := i + n;
    }
    ShortOfOne(sorted[i..], n);
  }

  lemma {:induction false} StopIsWhole(size: nat, n: nat)
    requires n >= 1
    ensures 0 <= size - size % n && Remainder(size - size % n, n) == 0 && size % n < n
  {
    assert size - size % n == size / n * n;
    RemainderIs(size - size % n, n, size / n);
  }

  lemma {:induction false} TakeChunk(s: seq<Bar>, i: nat, n: nat)
    requires n >= 1 && i + n <= |s|
    ensures Chunks(s[i..], n) == [Whole(s[i..i + n], s[i].time)] + Chunks(s[i + n..], n)
  {
    assert s[i..][..n] == s[i..i + n] && s[i..][n..] == s[i + n..];
  }

  lemma {:induction false} ShortOfOne(s: seq<Bar>, n: nat)
    requires n >= 1 && |s| < n
    ensures Chunks(s, n) == []
  {
  }

  // ---------------------------------------------------------------- agreement

  /** There are at least `m` chunks exactly when there are at least n * m bars. */
  lemma {:induction false} ChunksCount(bars: seq<Bar>, n: nat, m: nat)
    requires n >= 1
    ensures |Chunks(bars, n)| >= m <==> |bars| >= m * n
    decreases m
  {
    if m > 0 {
      assert m * n == (m - 1) * n + n;
      if |bars| >= n {
        ChunksCount(bars[n..], n, m - 1);
      } else {
        MulMono(0, m - 1, n);
      }
    }
  }

  lemma {:induction false} ChunksShrink(bars: seq<Bar>, n: nat)
    requires n >= 2 && bars != []
    ensures |Chunks(bars, n)| < |bars|
  {
    if |bars| > n {
      ChunksShrink(bars[n..], n);
    } else if |bars| == n {
      assert Chunks(bars[n..], n) == [];
    }
  }

  /**
   On time-sorted input the three mergers return the same bars exactly when there is nothing
   to merge or enough for one bar; on shorter input only the crypto one drops everything.
   */
  lemma {:induction false} MergersAgreeExactly(bars: seq<Bar>, n: int)
    requires Sorted(bars)
    ensures AsiaMerged(bars, n) == UsMerged(bars, n)
    ensures CryptoMerged(bars, n) == AsiaMerged(bars, n) <==> n <= 1 || bars == [] || |bars| >= n
  {
    SortOfSorted(bars);
  }

  // ---------------------------------------------------------------- refinement of the clock resampler

  /** Gap-free bars of width `tf` that start on a boundary of `width`. */
  ghost predicate Regular(bars: seq<Bar>, tf: int) {
    forall i :: 0 <= i < |bars| ==> bars[i].time == bars[0].time + i * tf
  }

  lemma {:induction false} OneGroup(bars: seq<Bar>, key: Clock, stamp: Clock)
    requires bars != [] && forall i :: 0 <= i < |bars| ==> key(bars[i].time) == key(bars[0].time)
    ensures GroupBy(bars, key, stamp) == [Whole(bars, stamp(bars[0].time))]
  {
    var front, b := bars[..|bars| - 1], bars[|bars| - 1];
    assert bars == front + [b];
    if front == [] {
      WholeOne(b, stamp(b.time));
    } else {
      OneGroup(front, key, stamp);
      WholeSnoc(front, b, stamp(bars[0].time));
    }
  }

  lemma {:induction false} LastOfConcat(a: seq<Bar>, b: seq<Bar>)
    requires b != []
    ensures (a + b)[..|a + b| - 1] == a + b[..|b| - 1] && (a + b)[|a + b| - 1] == b[|b| - 1]
  {
  }

  lemma {:induction false} GroupAppend(a: seq<Bar>, front: seq<Bar>, x: Bar, ga: seq<Bar>, key: Clock, stamp: Clock)
    requires front != [] && GroupBy(a + front, key, stamp) == ga + GroupBy(front, key, stamp)
    ensures GroupBy((a + front) + [x], key, stamp) == ga + GroupBy(front + [x], key, stamp)
  {
    var g, gf := GroupBy(a + front, key, stamp), GroupBy(front, key, stamp);
    GroupSnoc(a + front, x, key, stamp);
    GroupSnoc(front, x, key, stamp);
    LastOfConcat(a, front);
    LastOfConcat(ga, gf);
    hide GroupBy, Extend, Open;
    if key(front[|front| - 1].time) == key(x.time) {
      Reassociate(ga, gf[..|gf| - 1], Extend(gf[|gf| - 1], x));
      assert g[..|g| - 1] == ga + gf[..|gf| - 1] && g[|g| - 1] == gf[|gf| - 1];
    } else {
      Reassociate(ga, gf, Open(x, stamp));
    }
  }

  lemma {:induction false} Reassociate(a: seq<Bar>, b: seq<Bar>, y: Bar)
    ensures (a + b) + [y] == a + (b + [y])
  {
  }

  /** Grouping splits where two neighbours have different keys. */
  lemma {:induction false} GroupConcat(a: seq<Bar>, b: seq<Bar>, key: Clock, stamp: Clock)
    requires a != [] && b != [] && key(a[|a| - 1].time) != key(b[0].time)
    ensures GroupBy(a + b, key, stamp) == GroupBy(a, key, stamp) + GroupBy(b, key, stamp)
  {
    var front, x := b[..|b| - 1], b[|b| - 1];
    assert b == front + [x] && a + b == (a + front) + [x];
    if front == [] {
      GroupSnoc(a, x, key, stamp);
      GroupSnoc([], x, key, stamp);
      assert a + front == a && b == [] + [x];
    } else {
      GroupConcat(a, front, key, stamp);
      GroupAppend(a, front, x, GroupBy(a, key, stamp), key, stamp);
    }
  }

  /** Gap-free bars of width `tf`, from a boundary of `w`, the time of n bars. */
  ghost predicate Aligned(bars: seq<Bar>, tf: int, n: nat, w: int) {
    && tf > 0 && n >= 1 && w > 0 && w == n * tf && Regular(bars, tf)
    && (bars != [] ==> bars[0].time % w == 0)
  }

  /** The first `n` regular bars share a bucket that the next bar is not in. */
  lemma {:induction false} ChunkFillsBucket(bars: seq<Bar>, tf: int, n: nat, w: int)
    requires Aligned(bars, tf, n, w) && bars != []
    ensures forall i :: 0 <= i < |bars| && i < n ==> BucketStart(w, bars[i].time) == bars[0].time
    ensures n < |bars| ==> bars[n].time == bars[0].time + w && BucketStart(w, bars[n].time) == bars[n].time
  {
    var t := bars[0].time;
    StartIsMultiple(w, t);
    forall i | 0 <= i < |bars| && i < n
      ensures BucketStart(w, bars[i].time) == t
    {
      MulMono(0, i, tf);
      MulMono(i + 1, n, tf);
      assert (i + 1) * tf == i * tf + tf;
      StartIs(w, bars[i].time, t / w);
    }
    if n < |bars| {
      assert w * (t / w + 1) == w * (t / w) + w;
      StartIs(w, bars[n].time, t / w + 1);
    }
  }

  lemma {:induction false} RestAligned(bars: seq<Bar>, tf: int, n: nat, w: int)
    requires Aligned(bars, tf, n, w) && |bars| >= n
    ensures Aligned(bars[n..], tf, n, w)
  {
    var rest := bars[n..];
    if rest != [] {
      ChunkFillsBucket(bars, tf, n, w);
      assert bars[n].time % w == 0;
      forall i | 0 <= i < |rest|
        ensures rest[i].time == rest[0].time + i * tf
      {
        assert rest[i] == bars[n + i] && rest[0] == bars[n];
        assert (n + i) * tf == n * tf + i * tf;
      }
    }
  }

  /** The clock resampler makes one bar of the first `n` aligned bars. */
  lemma {:induction false} ClockOnChunk(bars: seq<Bar>, tf: int, n: nat, w: int)
    requires Aligned(bars, tf, n, w) && n <= |bars|
    ensures GroupBy(bars[..n], Bucket(w), Bucket(w)) == [Whole(bars[..n], bars[0].time)]
    ensures Bucket(w)(bars[n - 1].time) == bars[0].time
    ensures n < |bars| ==> Bucket(w)(bars[n].time) == bars[0].time + w
  {
    assert w > 0 && n >= 1;
    ChunkFillsBucket(bars, tf, n, w);
    assert forall i :: 0 <= i < n ==> Bucket(w)(bars[i].time) == bars[0].time;
    hide Aligned, BucketStart, Bucket, Whole, GroupBy;
    OneGroup(bars[..n], Bucket(w), Bucket(w));
  }

  /** Grouping takes a leading group off when the next bar has another key. */
  lemma {:induction false} GroupTakesPrefix(bars: seq<Bar>, n: nat, key: Clock, stamp: Clock)
    requires 1 <= n <= |bars| && (n < |bars| ==> key(bars[n - 1].time) != key(bars[n].time))
    ensures GroupBy(bars, key, stamp) == GroupBy(bars[..n], key, stamp) + GroupBy(bars[n..], key, stamp)
  {
    var head, rest := bars[..n], bars[n..];
    assert bars == head + rest;
    if rest == [] {
      assert head == bars && GroupBy(rest, key, stamp) == [];
    } else {
      hide GroupBy;
      GroupConcat(head, rest, key, stamp);
    }
  }

  /** The clock resampler takes one chunk off the front of aligned bars. */
  lemma {:induction false} ClockTakesChunk(bars: seq<Bar>, tf: int, n: nat, w: int)
    requires Aligned(bars, tf, n, w) && n <= |bars|
    ensures GroupBy(bars, Bucket(w), Bucket(w)) ==
              [Whole(bars[..n], bars[0].time)] + GroupBy(bars[n..], Bucket(w), Bucket(w))
  {
    assert w > 0 && n >= 1;
    hide Aligned, BucketStart, Bucket, Whole, GroupBy;
    ClockOnChunk(bars, tf, n, w);
    GroupTakesPrefix(bars, n, Bucket(w), Bucket(w));
  }

  /** Fewer than `n` aligned bars are one bucket, or none. */
  lemma {:induction false} ClockOnRemainder(bars: seq<Bar>, tf: int, n: nat, w: int)
    requires Aligned(bars, tf, n, w) && |bars| < n
    ensures |GroupBy(bars, Bucket(w), Bucket(w))| == if bars == [] then 0 else 1
  {
    if bars != [] {
      assert w > 0;
      ChunkFillsBucket(bars, tf, n, w);
      hide Aligned;
      assert forall i :: 0 <= i < |bars| ==> Bucket(w)(bars[i].time) == bars[0].time;
      OneGroup(bars, Bucket(w), Bucket(w));
    }
  }

  function Remainder(size: nat, n: nat): nat
    requires n >= 1
  {
    if size < n then size else Remainder(size - n, n)
  }

  lemma {:induction false} RemainderIs(size: nat, n: nat, q: nat)
    requires n >= 1 && size == q * n
    ensures Remainder(size, n) == 0
    decreases q
  {
    if q > 0 {
      assert q * n == (q - 1) * n + n;
      MulMono(0, q - 1, n);
      RemainderIs(size - n, n, q - 1);
    }
  }

  /**
   Counting refines the clock: on gap-free bars of width `tf` whose first time lies on a
   boundary of w = n * tf, merging every n bars gives the clock resampler's bars of width w,
   save the last one when a partial bucket is left over.
   */
  lemma {:induction false} CountingRefinesClock(bars: seq<Bar>, tf: int, n: nat, w: int)
    requires Aligned(bars, tf, n, w)
    ensures var clock := Resampled(bars, w);
      && Chunks(bars, n) <= clock
      && |clock| == |Chunks(bars, n)| + (if Remainder(|bars|, n) == 0 then 0 else 1)
    decreases |bars|
  {
    assert w > 0 && n >= 1;
    hide Aligned;
    if |bars| < n {
      ClockOnRemainder(bars, tf, n, w);
    } else {
      ClockTakesChunk(bars, tf, n, w);
      RestAligned(bars, tf, n, w);
      CountingRefinesClock(bars[n..], tf, n, w);
    }
  }

  lemma {:induction false} RegularSorted(bars: seq<Bar>, tf: int)
    requires tf > 0 && Regular(bars, tf)
    ensures Sorted(bars)
  {
    forall i, j | 0 <= i < j < |bars|
      ensures bars[i].time <= bars[j].time
    {
      MulMono(i, j, tf);
    }
  }

  /** With a whole number of chunks, all three loops and the clock resampler return the same bars. */
  lemma {:induction false} FourWaysOneResult(bars: seq<Bar>, tf: int, n: nat, chunks: nat)
    requires Aligned(bars, tf, n, n * tf) && n >= 2 && chunks >= 1 && |bars| == chunks * n
    ensures CryptoMerged(bars, n) == AsiaMerged(bars, n) == UsMerged(bars, n) == Resampled(bars, n * tf)
  {
    var w := n * tf;
    RegularSorted(bars, tf);
    SortOfSorted(bars);
    RemainderIs(|bars|, n, chunks);
    CountingRefinesClock(bars, tf, n, w);
    hide Aligned, Regular, Sorted, Chunks, Resampled, Remainder;
    assert Chunks(bars, n) == Resampled(bars, w);
  }

  // ---------------------------------------------------------------- composition

  lemma {:induction false} ChunksConcat(a: seq<Bar>, b: seq<Bar>, n: nat, m: nat)
    requires n >= 1 && |a| == m * n
    ensures Chunks(a + b, n) == Chunks(a, n) + Chunks(b, n) && |Chunks(a, n)| == m
    decreases m
  {
    if m == 0 {
      assert a == [] && a + b == b;
    } else {
      OneMore(m, n);
      ChunksConcat(a[n..], b, n, m - 1);
      assert (a + b)[..n] == a[..n] && (a + b)[n..] == a[n..] + b && (a + b)[0] == a[0];
      hide Whole;
      assert [Whole(a[..n], a[0].time)] + (Chunks(a[n..], n) + Chunks(b, n)) == Chunks(a, n) + Chunks(b, n);
    }
  }

  lemma {:induction false} OneMore(m: nat, n: nat)
    requires m >= 1 && n >= 1
    ensures m * n == (m - 1) * n + n && m * n >= n
  {
    MulMono(0, m - 1, n);
  }

  /** Summarising the summaries of whole chunks is summarising the bars themselves. */
  lemma {:induction false} WholeOfChunks(bars: seq<Bar>, n: nat, m: nat, t: int)
    requires n >= 1 && m >= 1 && |bars| == m * n
    ensures Chunks(bars, n) != [] && Chunks(bars, n)[0].time == bars[0].time
    ensures Whole(Chunks(bars, n), t) == Whole(bars, t)
    decreases m
  {
    OneMore(m, n);
    var head, rest := bars[..n], bars[n..];
    assert bars == head + rest;
    WholeOne(Whole(head, bars[0].time), t);
    if m == 1 {
      assert rest == [] && head == bars && Chunks(rest, n) == [];
      assert Chunks(bars, n) == [Whole(head, bars[0].time)];
    } else {
      OneMore(m - 1, n);
      WholeOfChunks(rest, n, m - 1, t);
      WholeConcat(head, rest, t);
      WholeConcat([Whole(head, bars[0].time)], Chunks(rest, n), t);
    }
  }

  /** Merging by n and then by m is merging by m * n, for the variant that drops partial chunks. */
  lemma {:induction false} ChunksCompose(bars: seq<Bar>, n: nat, m: nat, w: nat)
    requires n >= 1 && m >= 1 && w == m * n && w >= 1
    ensures Chunks(Chunks(bars, n), m) == Chunks(bars, w)
    decreases |bars|
  {
    if |bars| < w {
      ChunksCount(bars, n, m);
    } else {
      var head, rest := bars[..w], bars[w..];
      assert bars == head + rest;
      ChunksConcat(head, rest, n, m);
      ChunksCompose(rest, n, m, w);
      WholeOfChunks(head, n, m, bars[0].time);
      var fine := Chunks(bars, n);
      assert fine[..m] == Chunks(head, n) && fine[m..] == Chunks(rest, n);
    }
  }

  /** The crypto merger composes on every input. */
  lemma {:induction false} CryptoComposes(bars: seq<Bar>, n: nat, m: nat)
    requires n >= 1 && m >= 1
    ensures CryptoMerged(CryptoMerged(bars, n), m) == CryptoMerged(bars, m * n)
  {
    OneMore(m, n);
    if n == 1 {
      assert m * n == m;
    } else if m == 1 {
      assert m * n == n;
    } else {
      ChunksCompose(bars, n, m, m * n);
    }
  }

  /**
   The variant that returns short input unmerged composes exactly when one factor is 1, when
   there is enough input for one bar of m * n, or when there is too little even for the
   smaller factor; in between, the two-step merge stops half way.
   */
  lemma {:induction false} AsiaComposesExactly(bars: seq<Bar>, n: nat, m: nat)
    requires n >= 1 && m >= 1
    ensures AsiaMerged(AsiaMerged(bars, n), m) == AsiaMerged(bars, m * n)
       <==> n == 1 || m == 1 || |bars| >= m * n || (|bars| < n && |bars| < m)
  {
    OneMore(m, n);
    OneMore(n, m);
    if n == 1 {
      assert m * n == m;
    } else if m == 1 {
      assert m * n == n;
    } else if bars != [] {
      AsiaTwice(bars, n, m, m * n);
    } else {
      assert AsiaMerged(bars, n) == bars;
    }
  }

  lemma {:induction false} AsiaTwice(bars: seq<Bar>, n: nat, m: nat, w: nat)
    requires n >= 2 && m >= 2 && w == m * n && w >= n && w >= m && bars != []
    ensures AsiaMerged(AsiaMerged(bars, n), m) == AsiaMerged(bars, w) <==> |bars| >= w || (|bars| < n && |bars| < m)
  {
    ChunksCount(bars, n, m);
    ChunksCompose(bars, n, m, w);
    ChunksShrink(bars, n);
    ChunksShrink(bars, m);
    hide Chunks;
  }

  // ---------------------------------------------------------------- chunks by their positions

  lemma {:induction false} OneLess(j: nat, n: nat)
    requires j >= 1 && n >= 1
    ensures j * n == (j - 1) * n + n && j * n >= n
  {
    MulMono(1, j, n);
  }

  /** The j-th bar merged summarises the `n` bars from position j * n on, stamped with the first one's time. */
  lemma {:induction false} ChunkAt(bars: seq<Bar>, n: nat, j: nat, i: nat)
    requires n >= 1 && i == j * n
    ensures j < |Chunks(bars, n)| <==> i + n <= |bars|
    ensures j < |Chunks(bars, n)| ==> Summarises(Chunks(bars, n)[j], bars[i..i + n], bars[i].time)
    decreases j
  {
    hide Summarises, Whole;
    if j == 0 {
      if n <= |bars| {
        WholeSummarises(bars[..n], bars[0].time);
      }
    } else {
      OneLess(j, n);
      if n <= |bars| {
        ChunkAt(bars[n..], n, j - 1, i - n);
        assert i + n <= |bars| ==> bars[n..][i - n..i] == bars[i..i + n] && bars[n..][i - n] == bars[i];
      }
    }
  }
}
