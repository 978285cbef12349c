/**
 Bars and the window filter of backend/app/data_sources/base.py.  Prices are integers in a
 fixed scale, volumes are integer hundredths, so the rounding of `format_kline` is exact.
 */
module Bars {
  import opened Basics

  datatype Bar = Bar(time: int, open: int, high: int, low: int, close: int, volume: int)

  ghost predicate Sorted(bars: seq<Bar>) {
    forall i, j :: 0 <= i < j < |bars| ==> bars[i].time <= bars[j].time
  }

  ghost predicate Increasing(bars: seq<Bar>) {
    forall i, j :: 0 <= i < j < |bars| ==> bars[i].time < bars[j].time
  }

  function AtTime(t: int): Bar -> bool {
    (b: Bar) => b.time == t
  }

  function Before(t: int): Bar -> bool {
    (b: Bar) => b.time < t
  }

  function NotBefore(t: int): Bar -> bool {
    (b: Bar) => b.time >= t
  }

  function Within(before: Option<int>, after: Option<int>): Bar -> bool {
    (b: Bar) => InWindow(b.time, before, after)
  }

  function Filter(bars: seq<Bar>, keep: Bar -> bool): seq<Bar> {
    if bars == [] then []
    else (if keep(bars[0]) then [bars[0]] else []) + Filter(bars[1..], keep)
  }

  lemma {:induction false} FilterConcat(a: seq<Bar>, b: seq<Bar>, keep: Bar -> bool)
    ensures Filter(a + b, keep) == Filter(a, keep) + Filter(b, keep)
  {
    if a == [] {
      assert a + b == b;
    } else {
      var rest, head := a[1..], if keep(a[0]) then [a[0]] else [];
      FilterConcat(rest, b, keep);
      assert (a + b)[1..] == rest + b && (a + b)[0] == a[0];
      assert Filter(a + b, keep) == head + Filter(rest + b, keep);
    }
  }

  lemma {:induction false} FilterAll(bars: seq<Bar>, keep: Bar -> bool)
    requires forall i :: 0 <= i < |bars| ==> keep(bars[i])
    ensures Filter(bars, keep) == bars
  {
    if bars != [] {
      FilterAll(bars[1..], keep);
    }
  }

  lemma {:induction false} FilterNone(bars: seq<Bar>, keep: Bar -> bool)
    requires forall i :: 0 <= i < |bars| ==> !keep(bars[i])
    ensures Filter(bars, keep) == []
  {
    if bars != [] {
      FilterNone(bars[1..], keep);
    }
  }

  lemma {:induction false} FilterMembers(bars: seq<Bar>, keep: Bar -> bool)
    ensures forall b :: b in Filter(bars, keep) <==> b in bars && keep(b)
  {
    if bars != [] {
      FilterMembers(bars[1..], keep);
      assert bars == [bars[0]] + bars[1..];
    }
  }

  lemma {:induction false} FilterTwice(bars: seq<Bar>, p: Bar -> bool, q: Bar -> bool)
    ensures Filter(Filter(bars, p), q) == Filter(bars, (b: Bar) => p(b) && q(b))
  {
    if bars != [] {
      FilterTwice(bars[1..], p, q);
      var head := if p(bars[0]) then [bars[0]] else [];
      FilterConcat(head, Filter(bars[1..], p), q);
    }
  }

  lemma {:induction false} FilterSorted(bars: seq<Bar>, keep: Bar -> bool)
    requires Sorted(bars)
    ensures Sorted(Filter(bars, keep))
  {
    if bars != [] {
      FilterSorted(bars[1..], keep);
      FilterMembers(bars[1..], keep);
      assert forall b :: b in bars[1..] ==> bars[0].time <= b.time;
    }
  }

  lemma {:induction false} HasMember(bars: seq<Bar>)
    ensures bars != [] ==> exists b :: b in bars
  {
    if bars != [] {
      assert bars[0] in bars;
    }
  }

  // ---------------------------------------------------------------- stable sort by time

  /** Place `b` behind every bar that is not later than it. */
  function Insert(bars: seq<Bar>, b: Bar): seq<Bar> {
    if bars == [] || bars[|bars| - 1].time <= b.time then bars + [b]
    else Insert(bars[..|bars| - 1], b) + [bars[|bars| - 1]]
  }

  /** `list.sort(key=time)` and `sorted(..., key=time)`. */
  function SortByTime(bars: seq<Bar>): seq<Bar> {
    if bars == [] then [] else Insert(SortByTime(bars[..|bars| - 1]), bars[|bars| - 1])
  }

  lemma {:induction false} InsertMembers(bars: seq<Bar>, b: Bar)
    ensures multiset(Insert(bars, b)) == multiset(bars) + multiset{b}
    ensures forall x :: x in Insert(bars, b) <==> x in bars || x == b
  {
    if bars != [] && bars[|bars| - 1].time > b.time {
      assert bars == bars[..|bars| - 1] + [bars[|bars| - 1]];
      InsertMembers(bars[..|bars| - 1], b);
    }
  }

  lemma {:induction false} InsertSorted(bars: seq<Bar>, b: Bar)
    requires Sorted(bars)
    ensures Sorted(Insert(bars, b))
  {
    if bars != [] && bars[|bars| - 1].time > b.time {
      var front, last := bars[..|bars| - 1], bars[|bars| - 1];
      InsertSorted(front, b);
      InsertMembers(front, b);
      assert forall x: Bar :: x in Insert(front, b) ==> x.time <= last.time;
    }
  }

  lemma {:induction false} InsertStable(bars: seq<Bar>, b: Bar, t: int)
    ensures Filter(Insert(bars, b), AtTime(t)) == Filter(bars + [b], AtTime(t))
  {
    if bars != [] && bars[|bars| - 1].time > b.time {
      var front, last := bars[..|bars| - 1], bars[|bars| - 1];
      assert bars == front + [last];
      InsertStable(front, b, t);
      FilterConcat(Insert(front, b), [last], AtTime(t));
      FilterConcat(front, [b], AtTime(t));
      FilterConcat(front, [last], AtTime(t));
      FilterConcat(front + [last], [b], AtTime(t));
    }
  }

  /** The sort is a permutation in time order that keeps bars of equal time in their order. */
  lemma {:induction false} SortMeans(bars: seq<Bar>)
    ensures Sorted(SortByTime(bars)) && multiset(SortByTime(bars)) == multiset(bars)
    ensures forall x :: x in SortByTime(bars) <==> x in bars
    ensures forall t :: Filter(SortByTime(bars), AtTime(t)) == Filter(bars, AtTime(t))
  {
    if bars != [] {
      var front, last := bars[..|bars| - 1], bars[|bars| - 1];
      assert bars == front + [last];
      SortMeans(front);
      InsertSorted(SortByTime(front), last);
      InsertMembers(SortByTime(front), last);
      forall t
        ensures Filter(SortByTime(bars), AtTime(t)) == Filter(bars, AtTime(t))
      {
        InsertStable(SortByTime(front), last, t);
        FilterConcat(SortByTime(front), [last], AtTime(t));
        FilterConcat(front, [last], AtTime(t));
      }
    }
  }

  lemma {:induction false} SortOfSorted(bars: seq<Bar>)
    requires Sorted(bars)
    ensures SortByTime(bars) == bars
  {
    if bars != [] {
      SortOfSorted(bars[..|bars| - 1]);
    }
  }

  // ---------------------------------------------------------------- filter_and_limit

  /** Python's `s[-limit:]`. */
  function Tail(bars: seq<Bar>, limit: int): seq<Bar> {
    if limit > 0 then bars[Max(0, |bars| - limit)..]
    else bars[Min(-limit, |bars|)..]
  }

  predicate InWindow(t: int, before: Option<int>, after: Option<int>) {
    && (before.Some? && before.value != 0 ==> t < before.value)
    && (after.Some? ==> after.value <= t)
  }

  function FilterAndLimit(klines: seq<Bar>, limit: int, before: Option<int>, after: Option<int>,
          truncate: bool): seq<Bar> {
    var sorted := SortByTime(klines);
    var early := if before.Some? && before.value != 0 then Filter(sorted, Before(before.value)) else sorted;
    var kept := if after.Some? then Filter(early, NotBefore(after.value)) else early;
    if truncate && |kept| > limit then Tail(kept, limit) else kept
  }

  lemma {:induction false} WindowOf(klines: seq<Bar>, before: Option<int>, after: Option<int>)
    ensures FilterAndLimit(klines, 0, before, after, false)
         == Filter(SortByTime(klines), Within(before, after))
  {
    var sorted := SortByTime(klines);
    var w := Within(before, after);
    if before.Some? && before.value != 0 {
      var p := Before(before.value);
      if after.Some? {
        var q := NotBefore(after.value);
        FilterTwice(sorted, p, q);
        FilterSame(sorted, (b: Bar) => p(b) && q(b), w);
      } else {
        FilterSame(sorted, p, w);
      }
    } else if after.Some? {
      FilterSame(sorted, NotBefore(after.value), w);
    } else {
      FilterAll(sorted, w);
    }
  }

  lemma {:induction false} FilterSame(bars: seq<Bar>, p: Bar -> bool, q: Bar -> bool)
    requires forall b :: b in bars ==> p(b) == q(b)
    ensures Filter(bars, p) == Filter(bars, q)
  {
    if bars != [] {
      assert bars[0] in bars;
      assert forall b :: b in bars[1..] ==> b in bars;
      FilterSame(bars[1..], p, q);
    }
  }

  /** At every instant the window keeps all the bars, in the order given, or none. */
  lemma {:induction false} InstantKept(klines: seq<Bar>, before: Option<int>, after: Option<int>, t: int)
    ensures Filter(FilterAndLimit(klines, 0, before, after, false), AtTime(t)) ==
              if InWindow(t, before, after) then Filter(klines, AtTime(t)) else []
  {
    var sorted, w, at := SortByTime(klines), Within(before, after), AtTime(t);
    WindowOf(klines, before, after);
    SortMeans(klines);
    FilterTwice(sorted, w, at);
    var both := (b: Bar) => w(b) && at(b);
    if InWindow(t, before, after) {
      FilterSame(sorted, both, at);
    } else {
      FilterNone(sorted, both);
    }
  }

  /**
   What the window filter returns: at every instant of the half-open window exactly the bars
   that were given for it, in the order given, nothing outside the window, and all in time
   order; truncation keeps the latest `limit` of them.
   */
  lemma {:induction false} FilterAndLimitMeans(klines: seq<Bar>, limit: int, before: Option<int>, after: Option<int>)
    ensures var all := FilterAndLimit(klines, limit, before, after, false);
      && Sorted(all)
      && (forall b :: b in all <==> b in klines && InWindow(b.time, before, after))
      && (forall t :: InWindow(t, before, after) ==> Filter(all, AtTime(t)) == Filter(klines, AtTime(t)))
      && (limit >= 1 ==>
           var r := FilterAndLimit(klines, limit, before, after, true);
           |r| == Min(limit, |all|) && r == all[|all| - |r|..])
  {
    WindowMeans(klines, before, after);
    forall t | InWindow(t, before, after)
      ensures Filter(FilterAndLimit(klines, 0, before, after, false), AtTime(t)) == Filter(klines, AtTime(t))
    {
      InstantKept(klines, before, after, t);
    }
  }

  lemma {:induction false} WindowMeans(klines: seq<Bar>, before: Option<int>, after: Option<int>)
    ensures var all := FilterAndLimit(klines, 0, before, after, false);
      && Sorted(all)
      && (forall b :: b in all <==> b in klines && InWindow(b.time, before, after))
  {
    SortMeans(klines);
    WindowOf(klines, before, after);
    var w := Within(before, after);
    FilterSorted(SortByTime(klines), w);
    FilterMembers(SortByTime(klines), w);
  }

  /**
   The row limit is honoured exactly when it is positive or no row given lies in the window:
   with a limit of zero the slice `[-0:]` keeps every row.
   */
  lemma {:induction false} LimitHonouredExactly(klines: seq<Bar>, limit: nat, before: Option<int>, after: Option<int>)
    ensures |FilterAndLimit(klines, limit, before, after, true)| <= limit
       <==> limit >= 1 || forall b :: b in klines ==> !InWindow(b.time, before, after)
  {
    FilterAndLimitMeans(klines, limit, before, after);
    var all := FilterAndLimit(klines, limit, before, after, false);
    HasMember(all);
    hide SortByTime, Filter, Sorted, InWindow, AtTime;
    if b :| b in klines && InWindow(b.time, before, after) {
      assert b in all;
    }
  }
}
