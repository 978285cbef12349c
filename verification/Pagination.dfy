/**
 The paged history download of backend/app/data_sources/crypto.py: the request window, the
 loop over 300-bar pages with its give-up rules, and what reaches the caller of `get_kline`.
 Times are milliseconds here; `get_kline` turns them into seconds.
 */
module Pagination {
  import opened Basics
  import opened Bars

  const BATCH_LIMIT := 300
  const MAX_BATCHES := 6000
  const MAX_EMPTY := 6
  const ATTEMPTS := 3         // retry_per_batch + 1
  const SINGLE_FETCH_HARD_CAP := 300

  /** The time covered by one page of 300 bars. */
  function PageSpan(tf: int): int {
    300 * tf
  }

  /** How far the loop skips after an empty page: min(batch_limit, 64) bars. */
  function SkipSpan(tf: int): int {
    64 * tf
  }

  /** The time covered by six page requests, each 64 bars after the one before. */
  function GapSpan(tf: int): int {
    620 * tf
  }

  /** The distance skipped by `streak` empty pages in a row. */
  function Skipped(streak: nat, tf: int): int {
    if streak == 0 then 0 else Skipped(streak - 1, tf) + SkipSpan(tf)
  }

  /** One answer of the venue's `fetch_ohlcv`. */
  datatype Reply = Page(rows: seq<Bar>) | Refused(unknownSymbol: bool)

  /** The venue as seen by one download: batch number, attempt number, `since`. */
  type Venue = (nat, nat, int) -> Reply

  datatype Stop = PastEnd | OutOfTime | TooManyEmpty | NoProgress | BatchCap | Raised(unknownSymbol: bool)

  /** What a download has collected, where its next request would start, why it ended. */
  datatype Walk = Walk(rows: seq<Bar>, next: int, stop: Stop)

  // ---------------------------------------------------------------- the loop

  /** The first answer that is not a refusal, or the last refusal. */
  function Ask(venue: Venue, batch: nat, since: int, attempt: nat): Reply
    requires attempt < ATTEMPTS
    decreases ATTEMPTS - attempt
  {
    var r := venue(batch, attempt, since);
    if r.Page? || attempt + 1 == ATTEMPTS then r else Ask(venue, batch, since, attempt + 1)
  }

  function WalkFrom(venue: Venue, late: nat -> bool, end: int, tf: int, batch: nat, cur: int, streak: nat,
          rows: seq<Bar>): Walk
    decreases MAX_BATCHES - batch
  {
    if batch >= MAX_BATCHES then Walk(rows, cur, BatchCap)
    else if cur >= end then Walk(rows, cur, PastEnd)
    else if late(batch) then Walk(rows, cur, OutOfTime)
    else
      match Ask(venue, batch, cur, 0)
      case Refused(unknown) => Walk(rows, cur, Raised(unknown))
      case Page(page) =>
        if page == [] then
          if streak + 1 >= MAX_EMPTY then Walk(rows, cur, TooManyEmpty)
          else WalkFrom(venue, late, end, tf, batch + 1, cur + SkipSpan(tf), streak + 1, rows)
        else
          var last := page[|page| - 1].time;
          if last >= end then Walk(rows + page, last, PastEnd)
          else if last + tf <= cur then Walk(rows + page, cur, NoProgress)
          else WalkFrom(venue, late, end, tf, batch + 1, last + tf, 0, rows + page)
  }

  method AskVenue(venue: Venue, batch: nat, since: int) returns (r: Reply)
    ensures r == Ask(venue, batch, since, 0)
  {
    var attempt := 0;
    r := venue(batch, attempt, since);
    while r.Refused? && attempt + 1 < ATTEMPTS
      invariant attempt < ATTEMPTS && r == venue(batch, attempt, since)
      invariant Ask(venue, batch, since, 0) == Ask(venue, batch, since, attempt)
    {
      attempt := attempt + 1;
      r := venue(batch, attempt, since);
    }
  }

  method Download(venue: Venue, late: nat -> bool, since: int, end: int, tf: int) returns (w: Walk)
    ensures w == WalkFrom(venue, late, end, tf, 0, since, 0, [])
  {
    var all: seq<Bar> := [];
    var cur := since;
    var streak := 0;
    var batch := 0;
    while batch < MAX_BATCHES
      invariant batch <= MAX_BATCHES
      invariant WalkFrom(venue, late, end, tf, 0, since, 0, []) == WalkFrom(venue, late, end, tf, batch, cur, streak, all)
    {
      if cur >= end {
        return Walk(all, cur, PastEnd);
      }
      if late(batch) {
        return Walk(all, cur, OutOfTime);
      }
      var reply := AskVenue(venue, batch, cur);
      if reply.Refused? {
        return Walk(all, cur, Raised(reply.unknownSymbol));
      }
      var page := reply.rows;
      if page == [] {
        streak := streak + 1;
        if streak >= MAX_EMPTY {
          return Walk(all, cur, TooManyEmpty);
        }
        cur := cur + SkipSpan(tf);
      } else {
        streak := 0;
        all := all + page;
        var last := page[|page| - 1].time;
        if last >= end {
          return Walk(all, last, PastEnd);
        }
        if last + tf <= cur {
          return Walk(all, cur, NoProgress);
        }
        cur := last + tf;
      }
      batch := batch + 1;
    }
    return Walk(all, cur, BatchCap);
  }

  // ---------------------------------------------------------------- venues

  /** A venue's candle history: at least one timeframe between any two candles. */
  ghost predicate History(candles: seq<Bar>, tf: int) {
    tf > 0 && forall i, j :: 0 <= i < j < |candles| ==> candles[i].time + tf <= candles[j].time
  }

  /** How many candles are earlier than `t`. */
  function Index(candles: seq<Bar>, t: int): (n: nat)
    ensures n <= |candles|
  {
    if candles == [] then 0
    else if candles[|candles| - 1].time < t then |candles|
    else Index(candles[..|candles| - 1], t)
  }

  lemma {:induction false} IndexSplits(candles: seq<Bar>, tf: int, t: int)
    requires History(candles, tf)
    ensures forall i :: 0 <= i < |candles| ==> (candles[i].time < t <==> i < Index(candles, t))
  {
    if candles != [] {
      IndexSplits(candles[..|candles| - 1], tf, t);
    }
  }

  ghost predicate NoneIn(candles: seq<Bar>, from: int, to: int) {
    forall i :: 0 <= i < |candles| ==> !(from <= candles[i].time < to)
  }

  /**
   The page contract: consecutive candles starting with the first one at or after `since`,
   missing none that falls in the 300 bar slots from `since` on.
   */
  ghost predicate GoodPage(candles: seq<Bar>, tf: int, since: int, page: seq<Bar>) {
    var lo := Index(candles, since);
    && lo + |page| <= |candles|
    && page == candles[lo..lo + |page|]
    && (forall i :: lo + |page| <= i < |candles| ==> candles[i].time >= since + PageSpan(tf))
  }

  ghost predicate Honest(venue: Venue, candles: seq<Bar>, tf: int) {
    forall b, a, s :: venue(b, a, s).Page? ==> GoodPage(candles, tf, s, venue(b, a, s).rows)
  }

  /** A venue that answers with exactly the candles of the 300 slots from `since`. */
  function SlotPage(candles: seq<Bar>, tf: int, since: int): seq<Bar> {
    var lo, hi := Index(candles, since), Index(candles, since + PageSpan(tf));
    if lo <= hi then candles[lo..hi] else []
  }

  /** A venue that answers with the first 300 candles at or after `since`. */
  function CountPage(candles: seq<Bar>, since: int): seq<Bar> {
    var lo := Index(candles, since);
    candles[lo..Min(|candles|, lo + BATCH_LIMIT)]
  }

  lemma {:induction false} SlotPageIsGood(candles: seq<Bar>, tf: int, since: int)
    requires History(candles, tf)
    ensures GoodPage(candles, tf, since, SlotPage(candles, tf, since))
  {
    IndexSplits(candles, tf, since);
    IndexSplits(candles, tf, since + PageSpan(tf));
    IndexGrows(candles, tf, since, since + PageSpan(tf));
  }

  lemma {:induction false} IndexGrows(candles: seq<Bar>, tf: int, t: int, u: int)
    requires History(candles, tf) && t <= u
    ensures Index(candles, t) <= Index(candles, u)
  {
    IndexSplits(candles, tf, t);
    IndexSplits(candles, tf, u);
    var n := Index(candles, t);
    assert n > 0 ==> candles[n - 1].time < u;
  }

  lemma {:induction false} CountPageIsGood(candles: seq<Bar>, tf: int, since: int)
    requires History(candles, tf)
    ensures GoodPage(candles, tf, since, CountPage(candles, since))
  {
    IndexSplits(candles, tf, since);
    var lo := Index(candles, since);
    forall i | lo + BATCH_LIMIT <= i < |candles|
      ensures candles[i].time >= since + PageSpan(tf)
    {
      Spread(candles, tf, lo, lo + BATCH_LIMIT);
    }
  }

  lemma {:induction false} Spread(candles: seq<Bar>, tf: int, i: nat, j: nat)
    requires History(candles, tf) && i <= j < |candles|
    ensures candles[j].time >= candles[i].time + (j - i) * tf
    decreases j
  {
    if i < j {
      Spread(candles, tf, i, j - 1);
      assert (j - i) * tf == (j - 1 - i) * tf + tf;
    }
  }

  // ---------------------------------------------------------------- what a download collects

  /** The rows are the venue's candles from the first one at or after `since`, without a hole. */
  ghost predicate Prefix(candles: seq<Bar>, since: int, rows: seq<Bar>, upto: int) {
    var lo := Index(candles, since);
    && lo + |rows| <= |candles|
    && rows == candles[lo..lo + |rows|]
    && Index(candles, upto) <= lo + |rows|
  }

  lemma {:induction false} AskIsHonest(venue: Venue, candles: seq<Bar>, tf: int, batch: nat, since: int, attempt: nat)
    requires Honest(venue, candles, tf) && attempt < ATTEMPTS
    ensures var r := Ask(venue, batch, since, attempt); r.Page? ==> GoodPage(candles, tf, since, r.rows)
    decreases ATTEMPTS - attempt
  {
    if attempt + 1 < ATTEMPTS {
      AskIsHonest(venue, candles, tf, batch, since, attempt + 1);
    }
  }

  /** One non-empty page extends a hole-free prefix to just before the next request. */
  lemma {:induction false} PageExtends(candles: seq<Bar>, tf: int, since: int, cur: int, rows: seq<Bar>, page: seq<Bar>)
    requires History(candles, tf) && since <= cur && GoodPage(candles, tf, cur, page) && page != []
    requires Index(candles, since) + |rows| == Index(candles, cur)
    requires rows == candles[Index(candles, since)..Index(candles, cur)]
    ensures var last := page[|page| - 1].time;
      && cur <= last
      && Index(candles, last + tf) == Index(candles, since) + |rows + page|
      && rows + page == candles[Index(candles, since)..Index(candles, last + tf)]
      && NoneIn(candles, last + tf, cur + PageSpan(tf))
  {
    var lo, mid := Index(candles, since), Index(candles, cur);
    var hi := mid + |page|;
    var last := page[|page| - 1].time;
    IndexSplits(candles, tf, cur);
    IndexSplits(candles, tf, last + tf);
    assert page[|page| - 1] == candles[hi - 1];
    forall i | 0 <= i < |candles|
      ensures candles[i].time < last + tf <==> i < hi
      ensures i >= hi ==> candles[i].time >= cur + PageSpan(tf)
    {
      if i < hi - 1 {
        assert candles[i].time + tf <= candles[hi - 1].time;
      } else if i >= hi {
        assert candles[hi - 1].time + tf <= candles[i].time;
      }
    }
    IndexUnique(candles, last + tf, hi);
    assert rows + page == candles[lo..hi];
  }

  lemma {:induction false} IndexUnique(candles: seq<Bar>, t: int, n: nat)
    requires n <= |candles| && forall i :: 0 <= i < |candles| ==> (candles[i].time < t <==> i < n)
    requires forall i :: 0 <= i < |candles| ==> (candles[i].time < t <==> i < Index(candles, t))
    ensures Index(candles, t) == n
  {
    var k := Index(candles, t);
    if k < |candles| {
      assert candles[k].time >= t;
    }
    if n < |candles| {
      assert candles[n].time >= t;
    }
  }

  /** An empty page means no candle at all in its 300 slots, so skipping 64 of them loses none. */
  lemma {:induction false} EmptySkips(candles: seq<Bar>, tf: int, cur: int)
    requires History(candles, tf) && GoodPage(candles, tf, cur, [])
    ensures NoneIn(candles, cur, cur + PageSpan(tf))
    ensures Index(candles, cur + SkipSpan(tf)) == Index(candles, cur)
  {
    IndexSplits(candles, tf, cur);
    IndexSplits(candles, tf, cur + SkipSpan(tf));
    IndexUnique(candles, cur + SkipSpan(tf), Index(candles, cur));
  }

  /** A point where the loop may start counting empty pages: the start, or one bar after a candle. */
  ghost predicate Restart(candles: seq<Bar>, tf: int, since: int, x: int) {
    x == since || exists i :: 0 <= i < |candles| && since <= candles[i].time && candles[i].time + tf == x
  }

  lemma {:induction false} SkippedBound(streak: nat, tf: int)
    requires tf > 0 && streak < MAX_EMPTY
    ensures 0 <= Skipped(streak, tf) <= GapSpan(tf) - PageSpan(tf)
    ensures streak == MAX_EMPTY - 1 ==> Skipped(streak, tf) == GapSpan(tf) - PageSpan(tf)
  {
    assert Skipped(1, tf) == 64 * tf;
    assert Skipped(2, tf) == 128 * tf;
    assert Skipped(3, tf) == 192 * tf;
    assert Skipped(4, tf) == 256 * tf;
    assert Skipped(5, tf) == 320 * tf;
  }

  /** The invariant of the loop against an honest venue. */
  ghost predicate Sofar(candles: seq<Bar>, tf: int, since: int, cur: int, streak: nat, rows: seq<Bar>) {
    var base := cur - Skipped(streak, tf);
    && since <= base
    && Index(candles, since) <= Index(candles, cur)
    && rows == candles[Index(candles, since)..Index(candles, cur)]
    && Restart(candles, tf, since, base)
    && NoneIn(candles, base, cur)
  }

  /** The invariant still holds after a page that is neither the last nor the last straw. */
  lemma {:induction false} SofarKept(candles: seq<Bar>, tf: int, since: int, cur: int, streak: nat, rows: seq<Bar>,
          page: seq<Bar>)
    requires History(candles, tf) && Sofar(candles, tf, since, cur, streak, rows) && GoodPage(candles, tf, cur, page)
    requires streak < MAX_EMPTY
    ensures page == [] ==> Sofar(candles, tf, since, cur + SkipSpan(tf), streak + 1, rows)
    ensures page == [] ==> NoneIn(candles, cur - Skipped(streak, tf), cur + PageSpan(tf))
    ensures page != [] ==>
      var last := page[|page| - 1].time;
      cur <= last && Sofar(candles, tf, since, last + tf, 0, rows + page)
  {
    SkippedBound(streak, tf);
    if page == [] {
      EmptySkips(candles, tf, cur);
    } else {
      PageExtends(candles, tf, since, cur, rows, page);
      var last := page[|page| - 1].time;
      var i := Index(candles, cur) + |page| - 1;
      assert candles[i] == page[|page| - 1];
      assert candles[i].time + tf == last + tf;
    }
  }

  /**
   Against an honest venue the download is a hole-free run of the venue's candles that
   starts at the first one at or after `since`; the loop always moves forward; it gives up
   on empty pages only inside a gap of 620 bar slots that begins right where data stopped.
   */
  lemma {:induction false} WalkCollects(venue: Venue, late: nat -> bool, candles: seq<Bar>, tf: int, since: int,
          end: int,
                                        batch: nat, cur: int, streak: nat, rows: seq<Bar>)
    requires History(candles, tf) && Honest(venue, candles, tf) && streak < MAX_EMPTY
    requires Sofar(candles, tf, since, cur, streak, rows)
    ensures var w := WalkFrom(venue, late, end, tf, batch, cur, streak, rows);
      && Prefix(candles, since, w.rows, w.next)
      && w.stop != NoProgress
      && (w.stop.PastEnd? ==> w.next >= end)
      && (w.stop.TooManyEmpty? ==>
           var x := w.next + PageSpan(tf) - GapSpan(tf);
           w.next < end && Restart(candles, tf, since, x) && NoneIn(candles, x, x + GapSpan(tf)))
    decreases MAX_BATCHES - batch
  {
    hide Sofar, GoodPage, NoneIn, Prefix, Restart, Ask, Honest, Skipped;
    SofarPrefix(candles, tf, since, cur, streak, rows);
    var reply := Ask(venue, batch, cur, 0);
    if batch < MAX_BATCHES && cur < end && !late(batch) && reply.Page? {
      AskIsHonest(venue, candles, tf, batch, cur, 0);
      var page := reply.rows;
      SofarKept(candles, tf, since, cur, streak, rows, page);
      if page == [] {
        if streak + 1 < MAX_EMPTY {
          WalkCollects(venue, late, candles, tf, since, end, batch + 1, cur + SkipSpan(tf), streak + 1, rows);
        } else {
          GapSeen(candles, tf, since, cur, streak, rows);
        }
      } else {
        var last := page[|page| - 1].time;
        SofarPrefix(candles, tf, since, last + tf, 0, rows + page);
        if last < end {
          WalkCollects(venue, late, candles, tf, since, end, batch + 1, last + tf, 0, rows + page);
        }
      }
    }
  }

  lemma {:induction false} SofarStarts(candles: seq<Bar>, tf: int, since: int)
    ensures Sofar(candles, tf, since, since, 0, [])
  {
  }

  lemma {:induction false} SofarPrefix(candles: seq<Bar>, tf: int, since: int, cur: int, streak: nat, rows: seq<Bar>)
    requires History(candles, tf) && Sofar(candles, tf, since, cur, streak, rows)
    ensures Prefix(candles, since, rows, cur) && Prefix(candles, since, rows, cur - tf)
  {
    IndexGrows(candles, tf, cur - tf, cur);
  }

  lemma {:induction false} GapSeen(candles: seq<Bar>, tf: int, since: int, cur: int, streak: nat, rows: seq<Bar>)
    requires History(candles, tf) && Sofar(candles, tf, since, cur, streak, rows) && streak == MAX_EMPTY - 1
    requires NoneIn(candles, cur - Skipped(streak, tf), cur + PageSpan(tf))
    ensures var x := cur + PageSpan(tf) - GapSpan(tf);
      Restart(candles, tf, since, x) && NoneIn(candles, x, x + GapSpan(tf))
  {
    SkippedBound(streak, tf);
  }

  // ---------------------------------------------------------------- complete, and exactly when

  ghost predicate Complete(candles: seq<Bar>, since: int, end: int, rows: seq<Bar>) {
    forall i :: 0 <= i < |candles| && since <= candles[i].time < end ==> candles[i] in rows
  }

  /** Data stops for 620 bar slots or more and resumes before the end of the window. */
  ghost predicate LongGap(candles: seq<Bar>, tf: int, since: int, end: int) {
    exists x, y ::
      && Restart(candles, tf, since, x) && NoneIn(candles, x, x + GapSpan(tf))
      && 0 <= y < |candles| && x + GapSpan(tf) <= candles[y].time < end
  }

  lemma {:induction false} PrefixHolds(candles: seq<Bar>, tf: int, since: int, rows: seq<Bar>, upto: int)
    requires History(candles, tf) && Prefix(candles, since, rows, upto)
    ensures Complete(candles, since, upto, rows)
  {
    IndexSplits(candles, tf, since);
    IndexSplits(candles, tf, upto);
    var lo := Index(candles, since);
    forall i | 0 <= i < |candles| && since <= candles[i].time < upto
      ensures candles[i] in rows
    {
      assert candles[i] == rows[i - lo];
    }
  }

  /** Whatever ends the download, everything before its last request is complete. */
  lemma {:induction false} CoveredPrefixComplete(venue: Venue, late: nat -> bool, candles: seq<Bar>, tf: int,
          since: int, end: int)
    requires History(candles, tf) && Honest(venue, candles, tf)
    ensures var w := WalkFrom(venue, late, end, tf, 0, since, 0, []);
      && Complete(candles, since, w.next, w.rows)
      && Increasing(w.rows)
      && (forall b :: b in w.rows ==> b in candles && since <= b.time)
  {
    WalkCollects(venue, late, candles, tf, since, end, 0, since, 0, []);
    var w := WalkFrom(venue, late, end, tf, 0, since, 0, []);
    PrefixHolds(candles, tf, since, w.rows, w.next);
    IndexSplits(candles, tf, since);
  }

  /** A slot venue: it answers each request that it does not refuse with exactly its 300 slots. */
  ghost predicate SlotVenue(venue: Venue, candles: seq<Bar>, tf: int) {
    forall b, a, s :: venue(b, a, s).Page? ==> venue(b, a, s).rows == SlotPage(candles, tf, s)
  }

  lemma {:induction false} AskIsSlotted(venue: Venue, candles: seq<Bar>, tf: int, batch: nat, since: int, attempt: nat)
    requires SlotVenue(venue, candles, tf) && attempt < ATTEMPTS
    ensures var r := Ask(venue, batch, since, attempt); r.Page? ==> r.rows == SlotPage(candles, tf, since)
    decreases ATTEMPTS - attempt
  {
    if attempt + 1 < ATTEMPTS {
      AskIsSlotted(venue, candles, tf, batch, since, attempt + 1);
    }
  }

  ghost predicate AllBefore(rows: seq<Bar>, t: int) {
    forall b :: b in rows ==> b.time < t
  }

  lemma {:induction false} SlotPageBounds(candles: seq<Bar>, tf: int, cur: int)
    requires History(candles, tf)
    ensures forall b :: b in SlotPage(candles, tf, cur) <==> b in candles && cur <= b.time < cur + PageSpan(tf)
  {
    IndexSplits(candles, tf, cur);
    IndexSplits(candles, tf, cur + PageSpan(tf));
    var page, lo := SlotPage(candles, tf, cur), Index(candles, cur);
    forall b | b in candles && cur <= b.time < cur + PageSpan(tf)
      ensures b in page
    {
      var i :| 0 <= i < |candles| && candles[i] == b;
      assert page[i - lo] == b;
    }
  }

  /**
   Before the gap at `x` the loop either still has the candle that precedes the gap ahead of
   it, or is counting empty pages from `x` itself; so it never sees a candle behind the gap.
   */
  lemma {:induction false} WalkMisses(venue: Venue, late: nat -> bool, candles: seq<Bar>, tf: int, end: int, x: int,
                                      batch: nat, cur: int, streak: nat, rows: seq<Bar>)
    requires History(candles, tf) && SlotVenue(venue, candles, tf) && streak < MAX_EMPTY
    requires NoneIn(candles, x, x + GapSpan(tf)) && AllBefore(rows, x + GapSpan(tf))
    requires || cur == x + Skipped(streak, tf)
             || (cur <= x - tf && exists b :: b in candles && b.time == x - tf)
    ensures AllBefore(WalkFrom(venue, late, end, tf, batch, cur, streak, rows).rows, x + GapSpan(tf))
    decreases MAX_BATCHES - batch
  {
    hide NoneIn, SlotPage, Ask, SlotVenue, AllBefore;
    var reply := Ask(venue, batch, cur, 0);
    if batch < MAX_BATCHES && cur < end && !late(batch) && reply.Page? {
      AskIsSlotted(venue, candles, tf, batch, cur, 0);
      SlotPageBounds(candles, tf, cur);
      var page := reply.rows;
      if cur == x + Skipped(streak, tf) {
        InGapEmpty(candles, tf, x, cur, streak);
        if streak + 1 < MAX_EMPTY {
          WalkMisses(venue, late, candles, tf, end, x, batch + 1, cur + SkipSpan(tf), streak + 1, rows);
        }
      } else {
        BeforeGap(candles, tf, x, cur);
        PageBefore(rows, page, x, tf);
        if page == [] {
          if streak + 1 < MAX_EMPTY {
            WalkMisses(venue, late, candles, tf, end, x, batch + 1, cur + SkipSpan(tf), streak + 1, rows);
          }
        } else {
          var last := page[|page| - 1].time;
          assert page[|page| - 1] in page;
          if last < end && last + tf > cur {
            WalkMisses(venue, late, candles, tf, end, x, batch + 1, last + tf, 0, rows + page);
          }
        }
      }
    }
  }

  lemma {:induction false} PageBefore(rows: seq<Bar>, page: seq<Bar>, x: int, tf: int)
    requires tf > 0 && AllBefore(rows, x + GapSpan(tf)) && forall b :: b in page ==> b.time <= x - tf
    ensures AllBefore(rows + page, x + GapSpan(tf))
  {
  }

  lemma {:induction false} InGapEmpty(candles: seq<Bar>, tf: int, x: int, cur: int, streak: nat)
    requires History(candles, tf) && streak < MAX_EMPTY && cur == x + Skipped(streak, tf)
    requires NoneIn(candles, x, x + GapSpan(tf))
    ensures SlotPage(candles, tf, cur) == []
  {
    SkippedBound(streak, tf);
    IndexSplits(candles, tf, cur);
    IndexSplits(candles, tf, cur + PageSpan(tf));
    IndexUnique(candles, cur + PageSpan(tf), Index(candles, cur));
  }

  lemma {:induction false} BeforeGap(candles: seq<Bar>, tf: int, x: int, cur: int)
    requires History(candles, tf) && cur <= x - tf && exists b :: b in candles && b.time == x - tf
    requires NoneIn(candles, x, x + GapSpan(tf))
    ensures var page := SlotPage(candles, tf, cur);
      && (page == [] ==> cur + SkipSpan(tf) <= x - tf)
      && (forall b :: b in page ==> b.time == x - tf || b.time + tf <= x - tf)
  {
    SlotPageBounds(candles, tf, cur);
    var c :| c in candles && c.time == x - tf;
    var i :| 0 <= i < |candles| && candles[i] == c;
    forall b | b in SlotPage(candles, tf, cur)
      ensures b.time == x - tf || b.time + tf <= x - tf
    {
      var j :| 0 <= j < |candles| && candles[j] == b;
    }
    if SlotPage(candles, tf, cur) == [] {
      assert c !in SlotPage(candles, tf, cur);
    }
  }

  // ---------------------------------------------------------------- the batch cap

  /** Nothing is stored between `cur` and `known`; at most 299 bars of that are counted. */
  function Lead(cur: int, known: int, tf: int): int {
    Min(Max(0, known - cur), 299 * tf)
  }

  function Quota(batch: nat, tf: int): int {
    if batch == 0 then 0 else Quota(batch - 1, tf) + 19435 * tf
  }

  lemma {:induction false} QuotaIs(batch: nat, tf: int)
    ensures Quota(batch, tf) == batch * (19435 * tf)
  {
    if batch > 0 {
      QuotaIs(batch - 1, tf);
    }
  }

  /**
   Each request earns 32.5 bars on average: a page that ends early leaves a known hole that
   the next request pays back.  The potential counts progress plus the hole still ahead.
   */
  lemma {:induction false} WalkAdvances(venue: Venue, late: nat -> bool, candles: seq<Bar>, tf: int, since: int,
          end: int,
                                        batch: nat, cur: int, streak: nat, rows: seq<Bar>, known: int)
    requires History(candles, tf) && Honest(venue, candles, tf) && batch <= MAX_BATCHES
    requires NoneIn(candles, cur, known)
    requires 598 * (cur - since) + 63 * Lead(cur, known, tf) >= Quota(batch, tf)
    ensures var w := WalkFrom(venue, late, end, tf, batch, cur, streak, rows);
      w.stop.BatchCap? ==> w.next - since >= 194968 * tf
    decreases MAX_BATCHES - batch
  {
    hide NoneIn, Ask, Honest, GoodPage;
    var reply := Ask(venue, batch, cur, 0);
    if batch == MAX_BATCHES {
      QuotaIs(batch, tf);
    } else if cur < end && !late(batch) && reply.Page? {
      AskIsHonest(venue, candles, tf, batch, cur, 0);
      var page := reply.rows;
      PageHole(candles, tf, cur, page, known);
      if page == [] {
        if streak + 1 < MAX_EMPTY {
          WalkAdvances(venue, late, candles, tf, since, end, batch + 1, cur + SkipSpan(tf), streak + 1, rows, cur + PageSpan(tf));
        }
      } else {
        var last := page[|page| - 1].time;
        if last < end {
          WalkAdvances(venue, late, candles, tf, since, end, batch + 1, last + tf, 0, rows + page, cur + PageSpan(tf));
        }
      }
    }
  }

  /** A page leaves nothing unseen up to 300 bars after its request, and cannot end in a known hole. */
  lemma {:induction false} PageHole(candles: seq<Bar>, tf: int, cur: int, page: seq<Bar>, known: int)
    requires History(candles, tf) && GoodPage(candles, tf, cur, page) && NoneIn(candles, cur, known)
    ensures page == [] ==> NoneIn(candles, cur + SkipSpan(tf), cur + PageSpan(tf))
    ensures page != [] ==>
      var last := page[|page| - 1].time;
      last >= cur && last >= cur + Lead(cur, known, tf) && NoneIn(candles, last + tf, cur + PageSpan(tf))
  {
    if page == [] {
      EmptySkips(candles, tf, cur);
    } else {
      PageExtends(candles, tf, cur, cur, [], page);
      LastIsCandle(candles, cur, page);
      var i :| 0 <= i < |candles| && candles[i] == page[|page| - 1];
      assert !(cur <= candles[i].time < known);
    }
  }

  lemma {:induction false} LastIsCandle(candles: seq<Bar>, cur: int, page: seq<Bar>)
    requires page != [] && Index(candles, cur) + |page| <= |candles|
    requires page == candles[Index(candles, cur)..Index(candles, cur) + |page|]
    ensures exists i :: 0 <= i < |candles| && candles[i] == page[|page| - 1]
  {
    assert page[|page| - 1] == candles[Index(candles, cur) + |page| - 1];
  }

  /** The cap of 6000 requests cannot cut a window of up to 194,968 bars short. */
  lemma {:induction false} BatchCapHarmless(venue: Venue, late: nat -> bool, candles: seq<Bar>, tf: int, since: int,
          end: int)
    requires History(candles, tf) && Honest(venue, candles, tf) && end - since <= 194968 * tf
    ensures var w := WalkFrom(venue, late, end, tf, 0, since, 0, []); w.stop.BatchCap? ==> w.next >= end
  {
    WalkAdvances(venue, late, candles, tf, since, end, 0, since, 0, [], since);
  }

  // ---------------------------------------------------------------- the exact condition

  /**
   The exact condition for a complete download, when no request fails for good, the time
   budget lasts and the window has at most 194,968 bars: from an honest venue without a long
   gap every candle of the window is downloaded, from a slot venue with a long gap never.
   */
  lemma {:induction false} CompleteExactly(venue: Venue, late: nat -> bool, candles: seq<Bar>, tf: int, since: int,
          end: int)
    requires History(candles, tf) && Honest(venue, candles, tf)
    requires end - since <= 194968 * tf
    requires var stop := WalkFrom(venue, late, end, tf, 0, since, 0, []).stop; !stop.Raised? && !stop.OutOfTime?
    ensures !LongGap(candles, tf, since, end) ==>
              Complete(candles, since, end, WalkFrom(venue, late, end, tf, 0, since, 0, []).rows)
    ensures SlotVenue(venue, candles, tf) && LongGap(candles, tf, since, end) ==>
              !Complete(candles, since, end, WalkFrom(venue, late, end, tf, 0, since, 0, []).rows)
  {
    var w := WalkFrom(venue, late, end, tf, 0, since, 0, []);
    WalkCollects(venue, late, candles, tf, since, end, 0, since, 0, []);
    BatchCapHarmless(venue, late, candles, tf, since, end);
    PrefixHolds(candles, tf, since, w.rows, w.next);
    if !LongGap(candles, tf, since, end) {
      forall i | 0 <= i < |candles| && since <= candles[i].time < end
        ensures candles[i] in w.rows
      {
        assert candles[i].time < w.next;
      }
    } else if SlotVenue(venue, candles, tf) {
      var x, y :|
        && Restart(candles, tf, since, x) && NoneIn(candles, x, x + GapSpan(tf))
        && 0 <= y < |candles| && x + GapSpan(tf) <= candles[y].time < end;
      RestartPoint(candles, tf, since, x);
      WalkMisses(venue, late, candles, tf, end, x, 0, since, 0, []);
      assert candles[y] !in w.rows;
    }
  }

  lemma {:induction false} RestartPoint(candles: seq<Bar>, tf: int, since: int, x: int)
    requires tf > 0 && Restart(candles, tf, since, x)
    ensures since <= x
    ensures x == since || (since <= x - tf && exists b :: b in candles && b.time == x - tf)
  {
    if x != since {
      var i :| 0 <= i < |candles| && since <= candles[i].time && candles[i].time + tf == x;
      assert candles[i] in candles;
    }
  }

  // ---------------------------------------------------------------- rows by timestamp

  function NotAt(t: int): Bar -> bool {
    (b: Bar) => b.time != t
  }

  /** `sorted({ts: row}.values())`: for every timestamp the row that came last, in time order. */
  function Latest(rows: seq<Bar>): seq<Bar> {
    if rows == [] then []
    else
      var b := rows[|rows| - 1];
      Insert(Filter(Latest(rows[..|rows| - 1]), NotAt(b.time)), b)
  }

  ghost predicate LastOfItsTime(rows: seq<Bar>, b: Bar) {
    exists i :: 0 <= i < |rows| && rows[i] == b && forall j :: i < j < |rows| ==> rows[j].time != b.time
  }

  lemma {:induction false} InsertIncreasing(bars: seq<Bar>, b: Bar)
    requires Increasing(bars) && forall x :: x in bars ==> x.time != b.time
    ensures Increasing(Insert(bars, b))
  {
    if bars != [] && bars[|bars| - 1].time > b.time {
      var front, last := bars[..|bars| - 1], bars[|bars| - 1];
      InsertIncreasing(front, b);
      InsertMembers(front, b);
      assert forall x: Bar :: x in Insert(front, b) ==> x.time < last.time;
    } else {
      assert bars != [] ==> bars[|bars| - 1] in bars;
    }
  }

  lemma {:induction false} FilterIncreasing(bars: seq<Bar>, keep: Bar -> bool)
    requires Increasing(bars)
    ensures Increasing(Filter(bars, keep))
  {
    if bars != [] {
      FilterIncreasing(bars[1..], keep);
      FilterMembers(bars[1..], keep);
      assert forall b: Bar :: b in bars[1..] ==> bars[0].time < b.time;
    }
  }

  lemma {:induction false} LastOfLonger(rows: seq<Bar>, last: Bar, b: Bar)
    ensures LastOfItsTime(rows + [last], b) <==> b == last || (b.time != last.time && LastOfItsTime(rows, b))
  {
    var all := rows + [last];
    assert all[|rows|] == last;
    if b != last && LastOfItsTime(all, b) {
      var i :| 0 <= i < |all| && all[i] == b && forall j :: i < j < |all| ==> all[j].time != b.time;
      assert rows[i] == b && forall j :: i < j < |rows| ==> rows[j] == all[j];
    }
    if b.time != last.time && LastOfItsTime(rows, b) {
      var i :| 0 <= i < |rows| && rows[i] == b && forall j :: i < j < |rows| ==> rows[j].time != b.time;
      assert all[i] == b && forall j :: i < j < |all| ==> all[j].time != b.time;
    }
  }

  /** Whatever the pages held: strictly increasing times, one row each, the one received last. */
  lemma {:induction false} LatestMeans(rows: seq<Bar>)
    ensures Increasing(Latest(rows))
    ensures forall b :: b in Latest(rows) <==> LastOfItsTime(rows, b)
  {
    if rows != [] {
      var front, last := rows[..|rows| - 1], rows[|rows| - 1];
      assert rows == front + [last];
      LatestMeans(front);
      FilterIncreasing(Latest(front), NotAt(last.time));
      FilterMembers(Latest(front), NotAt(last.time));
      InsertIncreasing(Filter(Latest(front), NotAt(last.time)), last);
      InsertMembers(Filter(Latest(front), NotAt(last.time)), last);
      forall b
        ensures b in Latest(rows) <==> LastOfItsTime(rows, b)
      {
        LastOfLonger(front, last, b);
      }
    }
  }

  lemma {:induction false} LatestOfIncreasing(rows: seq<Bar>)
    requires Increasing(rows)
    ensures Latest(rows) == rows
  {
    if rows != [] {
      var front, last := rows[..|rows| - 1], rows[|rows| - 1];
      LatestOfIncreasing(front);
      assert forall i :: 0 <= i < |front| ==> front[i] == rows[i] && front[i].time < last.time;
      hide Increasing, Filter;
      FilterAll(front, NotAt(last.time));
      assert Insert(front, last) == front + [last] == rows;
    }
  }

  // ---------------------------------------------------------------- the requested window

  datatype Span = Span(since: int, end: int)

  /** `int(seconds_per_candle * limit * 1.2)` for a non-negative limit. */
  function TimeRange(tfSeconds: int, limit: nat): int {
    tfSeconds * limit * 6 / 5
  }

  /**
   The span to download, or nothing when the venue keeps only its last `recentLimit` candles
   (0: no such limit) and the request ends before them.
   */
  function Window(tfSeconds: int, limit: nat, before: int, after: Option<int>, now: int,
          recentLimit: nat): Option<Span> {
    var safeBefore := Min(before, now);
    var byCount := safeBefore - TimeRange(tfSeconds, limit);
    var start := if after.Some? then Min(byCount, after.value) else byCount;
    var since := if start * 1000 >= now * 1000 then Max(0, now * 1000 - tfSeconds * 1000) else start * 1000;
    var end := safeBefore * 1000;
    var earliest := Max(0, now * 1000 - tfSeconds * 1000 * (recentLimit - 1));
    if recentLimit == 0 then Some(Span(since, end))
    else if end < earliest then None
    else Some(Span(Max(since, earliest), end))
  }

  /** Without a recent-candle limit the span reaches back at least to the requested left edge. */
  lemma {:induction false} WindowReachesBack(tfSeconds: int, limit: nat, before: int, after: int, now: nat)
    requires tfSeconds > 0
    ensures var w := Window(tfSeconds, limit, before, Some(after), now, 0);
      w.Some? && w.value.since <= after * 1000 && w.value.end == Min(before, now) * 1000
  {
  }

  /** What `_fetch_ohlcv` returns; `fallback` is what its fallback path would return. */
  function Ohlcv(venue: Venue, late: nat -> bool, fallback: seq<Bar>, span: Option<Span>, tf: int): seq<Bar> {
    if span.None? then []
    else
      var w := WalkFrom(venue, late, span.value.end, tf, 0, span.value.since, 0, []);
      if w.stop.Raised? && w.stop.unknownSymbol then []
      else if w.rows == [] then fallback
      else Latest(w.rows)
  }

  /** The one request made when no right edge is given, or one of 0: the venue's newest candles, untouched. */
  function Newest(newest: nat -> Reply, fallback: seq<Bar>, limit: nat): seq<Bar> {
    match newest(Min(limit, SINGLE_FETCH_HARD_CAP))
    case Page(rows) => rows
    case Refused(unknown) => if unknown then [] else fallback
  }

  method FetchOhlcv(venue: Venue, newest: nat -> Reply, late: nat -> bool, fallback: seq<Bar>, tfSeconds: int,
                    limit: nat, before: Option<int>, after: Option<int>, now: int, recentLimit: nat)
    returns (ohlcv: seq<Bar>)
    ensures before.None? || before.value == 0 ==> ohlcv == Newest(newest, fallback, limit)
    ensures before.Some? && before.value != 0 ==>
              var span := Window(tfSeconds, limit, before.value, after, now, recentLimit);
              ohlcv == Ohlcv(venue, late, fallback, span, tfSeconds * 1000)
  {
    if before.None? || before.value == 0 {
      var reply := newest(Min(limit, SINGLE_FETCH_HARD_CAP));
      if reply.Page? {
        return reply.rows;
      }
      if reply.unknownSymbol {
        return [];
      }
      return fallback;
    }
    var span := Window(tfSeconds, limit, before.value, after, now, recentLimit);
    if span.None? {
      return [];
    }
    var w := Download(venue, late, span.value.since, span.value.end, tfSeconds * 1000);
    if w.stop.Raised? {
      if w.stop.unknownSymbol {
        return [];
      }
      if w.rows != [] {
        return Latest(w.rows);
      }
      return fallback;
    }
    ohlcv := Latest(w.rows);
    if ohlcv == [] {
      ohlcv := fallback;
    }
  }

  /** `int(ms / 1000)`. */
  function ToSecond(ms: int): int {
    if ms >= 0 then ms / 1000 else -(-ms / 1000)
  }

  function ToSeconds(rows: seq<Bar>): seq<Bar> {
    if rows == [] then [] else [rows[0].(time := ToSecond(rows[0].time))] + ToSeconds(rows[1..])
  }

  /** The bars `get_kline` hands on for a window with both edges. */
  function Klines(ohlcv: seq<Bar>, before: int, after: int): seq<Bar> {
    FilterAndLimit(ToSeconds(ohlcv), 0, Some(before), Some(after), false)
  }

  lemma {:induction false} ToSecondsConcat(a: seq<Bar>, b: seq<Bar>)
    ensures ToSeconds(a + b) == ToSeconds(a) + ToSeconds(b)
  {
    if a == [] {
      assert a + b == b;
    } else {
      assert (a + b)[1..] == a[1..] + b;
      ToSecondsConcat(a[1..], b);
    }
  }

  lemma {:induction false} ToSecondsSorted(rows: seq<Bar>)
    requires Sorted(rows) && forall b :: b in rows ==> b.time >= 0
    ensures Sorted(ToSeconds(rows))
    ensures |ToSeconds(rows)| == |rows|
    ensures forall i :: 0 <= i < |rows| ==> ToSeconds(rows)[i] == rows[i].(time := rows[i].time / 1000)
  {
    if rows != [] {
      ToSecondsSorted(rows[1..]);
    }
  }

  /** Rows outside the window, in milliseconds, leave nothing behind in the window. */
  lemma {:induction false} OutsideVanishes(rows: seq<Bar>, before: int, after: int)
    requires before != 0 && forall b :: b in rows ==> b.time >= 0 && !(after * 1000 <= b.time < before * 1000)
    ensures Filter(ToSeconds(rows), Within(Some(before), Some(after))) == []
  {
    if rows != [] {
      assert rows[0] in rows;
      OutsideVanishes(rows[1..], before, after);
    }
  }

  lemma {:induction false} SecondsMembers(rows: seq<Bar>)
    ensures forall b :: b in ToSeconds(rows) <==> exists r :: r in rows && b == r.(time := ToSecond(r.time))
  {
    if rows != [] {
      SecondsMembers(rows[1..]);
      assert rows == [rows[0]] + rows[1..];
    }
  }

  /** The exact answer: every candle of the venue in the window, in order, and nothing else. */
  function Wanted(candles: seq<Bar>, before: int, after: int): seq<Bar> {
    Filter(ToSeconds(candles), Within(Some(before), Some(after)))
  }

  lemma {:induction false} MiddleIsWanted(candles: seq<Bar>, tf: int, lo: nat, hi: nat, before: int, after: int)
    requires History(candles, tf) && (forall b :: b in candles ==> b.time >= 0)
    requires lo <= hi <= |candles| && before != 0
    requires forall b :: b in candles[..lo] || b in candles[hi..] ==> !(after * 1000 <= b.time < before * 1000)
    ensures Klines(candles[lo..hi], before, after) == Wanted(candles, before, after)
  {
    var a, m, z := candles[..lo], candles[lo..hi], candles[hi..];
    assert candles == a + m + z;
    assert forall b :: b in a || b in m || b in z ==> b in candles;
    SliceIncreasing(candles, tf, lo, hi);
    assert Sorted(m);
    hide ToSeconds, Filter, SortByTime, History, Sorted, FilterAndLimit;
    OutsideVanishes(a, before, after);
    OutsideVanishes(z, before, after);
    OnlyMiddle(a, m, z, before, after);
    ToSecondsSorted(m);
    SortOfSorted(ToSeconds(m));
    WindowOf(ToSeconds(m), Some(before), Some(after));
  }

  /** What is left of three stretches when the outer two leave nothing. */
  lemma {:induction false} OnlyMiddle(a: seq<Bar>, m: seq<Bar>, z: seq<Bar>, before: int, after: int)
    requires Filter(ToSeconds(a), Within(Some(before), Some(after))) == []
    requires Filter(ToSeconds(z), Within(Some(before), Some(after))) == []
    ensures Filter(ToSeconds(a + m + z), Within(Some(before), Some(after))) ==
              Filter(ToSeconds(m), Within(Some(before), Some(after)))
  {
    var w := Within(Some(before), Some(after));
    hide ToSeconds, Filter, Within;
    ToSecondsConcat(a + m, z);
    ToSecondsConcat(a, m);
    FilterConcat(ToSeconds(a) + ToSeconds(m), ToSeconds(z), w);
    FilterConcat(ToSeconds(a), ToSeconds(m), w);
  }

  lemma {:induction false} FallbackVanishes(fallback: seq<Bar>, candles: seq<Bar>, before: int, after: int)
    requires before != 0 && (forall b :: b in fallback ==> b in candles)
    requires forall b :: b in candles ==> b.time >= 0 && !(after * 1000 <= b.time < before * 1000)
    ensures Klines(fallback, before, after) == Wanted(candles, before, after) == []
  {
    OutsideVanishes(candles, before, after);
    WindowOf(ToSeconds(fallback), Some(before), Some(after));
    var w := Within(Some(before), Some(after));
    FilterMembers(SortByTime(ToSeconds(fallback)), w);
    SortMeans(ToSeconds(fallback));
    SecondsMembers(fallback);
    var got := Filter(SortByTime(ToSeconds(fallback)), w);
    HasMember(got);
  }

  lemma {:induction false} CollectedIsWanted(candles: seq<Bar>, tf: int, span: Span, rows: seq<Bar>,
          fallback: seq<Bar>, before: int, after: int)
    requires History(candles, tf) && before != 0
    requires (forall b :: b in candles ==> b.time >= 0) && (forall b :: b in fallback ==> b in candles)
    requires Index(candles, span.since) + |rows| <= |candles|
    requires rows == candles[Index(candles, span.since)..Index(candles, span.since) + |rows|]
    requires Complete(candles, span.since, span.end, rows)
    requires span.since <= after * 1000 && before * 1000 <= span.end
    ensures Klines(if rows == [] then fallback else Latest(rows), before, after) == Wanted(candles, before, after)
  {
    hide Klines, Wanted, Latest, Index, Complete, History;
    if rows == [] {
      NothingCollected(candles, tf, span, fallback, before, after);
    } else {
      SomeCollected(candles, tf, span, rows, before, after);
    }
  }

  lemma {:induction false} NothingCollected(candles: seq<Bar>, tf: int, span: Span, fallback: seq<Bar>, before: int,
          after: int)
    requires before != 0 && Complete(candles, span.since, span.end, [])
    requires (forall b :: b in candles ==> b.time >= 0) && (forall b :: b in fallback ==> b in candles)
    requires span.since <= after * 1000 && before * 1000 <= span.end
    ensures Klines(fallback, before, after) == Wanted(candles, before, after)
  {
    hide Klines, Wanted;
    forall b | b in candles
      ensures !(after * 1000 <= b.time < before * 1000)
    {
    }
    FallbackVanishes(fallback, candles, before, after);
  }

  lemma {:induction false} SomeCollected(candles: seq<Bar>, tf: int, span: Span, rows: seq<Bar>, before: int,
          after: int)
    requires History(candles, tf) && before != 0 && (forall b :: b in candles ==> b.time >= 0)
    requires Index(candles, span.since) + |rows| <= |candles|
    requires rows == candles[Index(candles, span.since)..Index(candles, span.since) + |rows|]
    requires Complete(candles, span.since, span.end, rows)
    requires span.since <= after * 1000 && before * 1000 <= span.end
    ensures Klines(Latest(rows), before, after) == Wanted(candles, before, after)
  {
    hide Klines, Wanted, Latest, Index;
    var lo := Index(candles, span.since);
    SliceIncreasing(candles, tf, lo, lo + |rows|);
    LatestOfIncreasing(rows);
    OutsidePrefix(candles, tf, span.since, span.end, rows);
    hide History, Complete, Increasing;
    MiddleIsWanted(candles, tf, lo, lo + |rows|, before, after);
  }

  lemma {:induction false} SliceIncreasing(candles: seq<Bar>, tf: int, lo: nat, hi: nat)
    requires History(candles, tf) && lo <= hi <= |candles|
    ensures Increasing(candles[lo..hi])
  {
  }

  /** Being complete up to `end` is being complete up to a later time when there is nothing in between. */
  lemma {:induction false} CompleteBeyond(candles: seq<Bar>, since: int, end: int, later: int, rows: seq<Bar>)
    requires Complete(candles, since, end, rows) && forall b :: b in candles ==> !(end <= b.time < later)
    ensures Complete(candles, since, later, rows)
  {
    assert forall i :: 0 <= i < |candles| ==> candles[i] in candles;
  }

  /** The download of the span neither fails for good nor runs out of time, and the span has no long gap. */
  ghost predicate Undisturbed(venue: Venue, late: nat -> bool, candles: seq<Bar>, tf: int, span: Span)
    requires tf > 0
  {
    var stop := WalkFrom(venue, late, span.end, tf, 0, span.since, 0, []).stop;
    && span.end - span.since <= 194968 * tf
    && !LongGap(candles, tf, span.since, span.end)
    && !stop.Raised? && !stop.OutOfTime?
  }

  /**
   The window theorem: from an honest venue without a long gap, with both edges given,
   `get_kline` returns exactly the venue's candles with after <= time < before: none missing,
   none repeated, none outside, in time order. A right edge in the future is cut to now, which
   loses nothing as long as the venue has no candle from now to that edge.
   */
  lemma {:induction false} WindowExact(venue: Venue, late: nat -> bool, candles: seq<Bar>, fallback: seq<Bar>,
                    tfSeconds: int, limit: nat, before: int, after: int, now: nat)
    requires tfSeconds > 0 && before != 0
    requires forall b :: b in candles ==> !(now * 1000 <= b.time < before * 1000)
    requires History(candles, tfSeconds * 1000) && Honest(venue, candles, tfSeconds * 1000)
    requires (forall b :: b in candles ==> b.time >= 0) && (forall b :: b in fallback ==> b in candles)
    requires Undisturbed(venue, late, candles, tfSeconds * 1000,
                         Window(tfSeconds, limit, before, Some(after), now, 0).value)
    ensures var span := Window(tfSeconds, limit, before, Some(after), now, 0);
      Klines(Ohlcv(venue, late, fallback, span, tfSeconds * 1000), before, after) == Wanted(candles, before, after)
  {
    hide WalkFrom, Window, Honest, LongGap, Klines, Wanted, NoneIn, Restart, Index, Latest, Complete, History;
    WindowReachesBack(tfSeconds, limit, before, after, now);
    var tf := tfSeconds * 1000;
    var span := Window(tfSeconds, limit, before, Some(after), now, 0).value;
    var w := WalkFrom(venue, late, span.end, tf, 0, span.since, 0, []);
    CompleteExactly(venue, late, candles, tf, span.since, span.end);
    CoveredIsPrefix(venue, late, candles, tf, span.since, span.end);
    if before > now {
      CompleteBeyond(candles, span.since, span.end, before * 1000, w.rows);
      CollectedIsWanted(candles, tf, Span(span.since, before * 1000), w.rows, fallback, before, after);
    } else {
      CollectedIsWanted(candles, tf, span, w.rows, fallback, before, after);
    }
  }

  lemma {:induction false} CoveredIsPrefix(venue: Venue, late: nat -> bool, candles: seq<Bar>, tf: int, since: int,
          end: int)
    requires History(candles, tf) && Honest(venue, candles, tf)
    ensures var rows, lo := WalkFrom(venue, late, end, tf, 0, since, 0, []).rows, Index(candles, since);
      lo + |rows| <= |candles| && rows == candles[lo..lo + |rows|]
  {
    hide WalkFrom, NoneIn, Restart, Honest, Sofar;
    SofarStarts(candles, tf, since);
    WalkCollects(venue, late, candles, tf, since, end, 0, since, 0, []);
  }

  lemma {:induction false} OutsidePrefix(candles: seq<Bar>, tf: int, since: int, end: int, rows: seq<Bar>)
    requires History(candles, tf) && Complete(candles, since, end, rows)
    requires Index(candles, since) + |rows| <= |candles|
    requires rows == candles[Index(candles, since)..Index(candles, since) + |rows|]
    ensures var lo := Index(candles, since);
      forall b :: b in candles[..lo] || b in candles[lo + |rows|..] ==> !(since <= b.time < end)
  {
    var lo := Index(candles, since);
    IndexSplits(candles, tf, since);
    forall i | lo + |rows| <= i < |candles|
      ensures !(since <= candles[i].time < end)
    {
    }
  }

  // ---------------------------------------------------------------- without a left edge

  /** The bars `get_kline` hands on when only the right edge is given. */
  function LatestKlines(ohlcv: seq<Bar>, limit: nat, before: int): seq<Bar> {
    FilterAndLimit(ToSeconds(ohlcv), limit, Some(before), None, true)
  }

  /** The last `limit` bars, or all of them; a limit of 0 keeps everything, as `[-0:]` does. */
  function LastOf(bars: seq<Bar>, limit: nat): seq<Bar> {
    if limit == 0 then bars else bars[|bars| - Min(limit, |bars|)..]
  }

  /** Every candle of the venue before the right edge. */
  function Early(candles: seq<Bar>, before: int): seq<Bar> {
    Filter(ToSeconds(candles), Within(Some(before), None))
  }

  /** Rows that all start at or after a time are cut the same with that time as left edge. */
  lemma {:induction false} LeftEdgeFree(rows: seq<Bar>, limit: nat, before: int, after: int)
    requires forall b :: b in rows ==> b.time >= after
    ensures FilterAndLimit(rows, limit, Some(before), None, true) ==
              LastOf(FilterAndLimit(rows, 0, Some(before), Some(after), false), limit)
  {
    var sorted := SortByTime(rows);
    SortMeans(rows);
    var early := if before != 0 then Filter(sorted, Before(before)) else sorted;
    FilterMembers(sorted, Before(before));
    assert forall i :: 0 <= i < |early| ==> early[i] in early;
    hide SortByTime, Filter, Sorted;
    FilterAll(early, NotBefore(after));
    TailIsLast(early, limit);
    hide Tail, LastOf;
  }

  lemma {:induction false} TailIsLast(bars: seq<Bar>, limit: nat)
    ensures LastOf(bars, limit) == if |bars| > limit then Tail(bars, limit) else bars
  {
  }

  lemma {:induction false} SecondsFrom(rows: seq<Bar>, since: int)
    requires since % 1000 == 0 && forall b :: b in rows ==> b.time >= 0 && b.time >= since
    ensures forall b :: b in ToSeconds(rows) ==> b.time >= since / 1000
  {
    SecondsMembers(rows);
  }

  /** Without a left edge the span starts at a whole second. */
  lemma {:induction false} WindowWhole(tfSeconds: int, limit: nat, before: int, now: nat)
    requires tfSeconds > 0
    ensures var w := Window(tfSeconds, limit, before, None, now, 0);
      w.Some? && w.value.since % 1000 == 0 && w.value.end == Min(before, now) * 1000
  {
  }

  lemma {:induction false} RowsFromSince(candles: seq<Bar>, tf: int, since: int, n: nat)
    requires History(candles, tf) && Index(candles, since) + n <= |candles|
    ensures forall b :: b in candles[Index(candles, since)..Index(candles, since) + n] ==> b.time >= since
  {
    IndexSplits(candles, tf, since);
  }

  /** The candles before the right edge are those left of the span and then those wanted of it. */
  lemma {:induction false} SpanIsSuffix(candles: seq<Bar>, tf: int, since: int, before: int)
    requires History(candles, tf) && since % 1000 == 0 && before != 0 && forall b :: b in candles ==> b.time >= 0
    ensures var (all, w) := (Early(candles, before), Wanted(candles, before, since / 1000));
      |w| <= |all| && all[|all| - |w|..] == w
  {
    hide *;
    var lo := Index(candles, since);
    var a, z := candles[..lo], candles[lo..];
    var free, cut := Within(Some(before), None), Within(Some(before), Some(since / 1000));
    TwoParts(candles, tf, since);
    assert candles == a + z;
    assert since / 1000 * 1000 == since;
    SecondsFrom(z, since);
    OutsideVanishes(a, before, since / 1000);
    SameCut(ToSeconds(z), before, since / 1000);
    ToSecondsConcat(a, z);
    FilterConcat(ToSeconds(a), ToSeconds(z), free);
    FilterConcat(ToSeconds(a), ToSeconds(z), cut);
    WantedFilters(candles, before, since / 1000);
    EarlyFilters(candles, before);
  }

  lemma {:induction false} TwoParts(candles: seq<Bar>, tf: int, since: int)
    requires History(candles, tf) && forall b :: b in candles ==> b.time >= 0
    ensures forall b :: b in candles[..Index(candles, since)] ==> b.time >= 0 && b.time < since
    ensures forall b :: b in candles[Index(candles, since)..] ==> b.time >= 0 && b.time >= since
  {
    IndexSplits(candles, tf, since);
    hide Index;
    assert forall i :: 0 <= i < |candles| ==> candles[i] in candles;
  }

  lemma {:induction false} SameCut(rows: seq<Bar>, before: int, after: int)
    requires forall b :: b in rows ==> b.time >= after
    ensures Filter(rows, Within(Some(before), None)) == Filter(rows, Within(Some(before), Some(after)))
  {
    FilterSame(rows, Within(Some(before), None), Within(Some(before), Some(after)));
  }

  lemma {:induction false} EarlyFilters(candles: seq<Bar>, before: int)
    ensures Early(candles, before) == Filter(ToSeconds(candles), Within(Some(before), None))
  {
  }

  /** Cutting a suffix and cutting the whole agree exactly when the suffix is long enough or is the whole. */
  lemma {:induction false} LastOfSuffix(all: seq<Bar>, w: seq<Bar>, limit: nat)
    requires |w| <= |all| && all[|all| - |w|..] == w
    ensures LastOf(w, limit) == LastOf(all, limit) <==> 1 <= limit <= |w| || |w| == |all|
  {
    if 1 <= limit <= |w| {
      assert w[|w| - limit..] == all[|all| - limit..];
    }
  }

  lemma {:induction false} CutLatest(rows: seq<Bar>, since: int, limit: nat, before: int)
    requires since % 1000 == 0 && forall b :: b in rows ==> b.time >= 0 && b.time >= since
    ensures LatestKlines(rows, limit, before) == LastOf(Klines(rows, before, since / 1000), limit)
  {
    SecondsFrom(rows, since);
    hide ToSeconds, FilterAndLimit, LastOf;
    LeftEdgeFree(ToSeconds(rows), limit, before, since / 1000);
  }

  lemma {:induction false} CollectedLatest(candles: seq<Bar>, tf: int, span: Span, rows: seq<Bar>, limit: nat,
          before: int)
    requires History(candles, tf) && before != 0 && (forall b :: b in candles ==> b.time >= 0)
    requires Index(candles, span.since) + |rows| <= |candles| && span.since % 1000 == 0
    requires rows == candles[Index(candles, span.since)..Index(candles, span.since) + |rows|]
    requires Complete(candles, span.since, span.end, rows) && before * 1000 <= span.end
    ensures LatestKlines(Latest(rows), limit, before) == LastOf(Wanted(candles, before, span.since / 1000), limit)
  {
    hide Klines, LatestKlines, Wanted, Latest, Index, Complete, LastOf;
    assert forall b :: b in rows ==> b in candles;
    SliceIncreasing(candles, tf, Index(candles, span.since), Index(candles, span.since) + |rows|);
    LatestOfIncreasing(rows);
    RowsFromSince(candles, tf, span.since, |rows|);
    SomeCollected(candles, tf, span, rows, before, span.since / 1000);
    hide History, Increasing;
    CutLatest(rows, span.since, limit, before);
  }

  /** A span in which the venue has a candle before the right edge leaves rows to hand on. */
  lemma {:induction false} WantedNeedsRows(candles: seq<Bar>, since: int, end: int, before: int)
    requires before != 0 && since % 1000 == 0 && before * 1000 <= end && Complete(candles, since, end, [])
    requires forall b :: b in candles ==> b.time >= 0
    ensures Wanted(candles, before, since / 1000) == []
  {
    forall b | b in candles
      ensures !(since / 1000 * 1000 <= b.time < before * 1000)
    {
    }
    OutsideVanishes(candles, before, since / 1000);
  }

  /**
   The same without a left edge: `get_kline` returns the latest `limit` of the venue's candles of
   the span before the right edge, or all of them. Only when the span has none may it return
   what the fallback path found.
   */
  lemma {:induction false} LatestExact(venue: Venue, late: nat -> bool, candles: seq<Bar>, fallback: seq<Bar>,
                    tfSeconds: int, limit: nat, before: int, now: nat)
    requires tfSeconds > 0 && before != 0
    requires forall b :: b in candles ==> !(now * 1000 <= b.time < before * 1000)
    requires History(candles, tfSeconds * 1000) && Honest(venue, candles, tfSeconds * 1000)
    requires forall b :: b in candles ==> b.time >= 0
    requires Undisturbed(venue, late, candles, tfSeconds * 1000, Window(tfSeconds, limit, before, None, now, 0).value)
    ensures var span := Window(tfSeconds, limit, before, None, now, 0);
      var got := LatestKlines(Ohlcv(venue, late, fallback, span, tfSeconds * 1000), limit, before);
      var wanted := Wanted(candles, before, span.value.since / 1000);
      && (wanted != [] ==> got == LastOf(wanted, limit))
      && (wanted == [] ==> got == [] || got == LatestKlines(fallback, limit, before))
  {
    hide WalkFrom, Window, Honest, LongGap, LatestKlines, Wanted, NoneIn, Restart, Index, Latest, Complete, History;
    WindowWhole(tfSeconds, limit, before, now);
    var tf := tfSeconds * 1000;
    var span := Window(tfSeconds, limit, before, None, now, 0).value;
    var w := WalkFrom(venue, late, span.end, tf, 0, span.since, 0, []);
    CompleteExactly(venue, late, candles, tf, span.since, span.end);
    CoveredIsPrefix(venue, late, candles, tf, span.since, span.end);
    var end := if before > now then before * 1000 else span.end;
    if before > now {
      CompleteBeyond(candles, span.since, span.end, before * 1000, w.rows);
    }
    CollectedLatest(candles, tf, Span(span.since, end), w.rows, limit, before);
    if w.rows == [] {
      WantedNeedsRows(candles, span.since, end, before);
    }
  }

  /**
   The answer is the venue's latest `limit` candles before the right edge exactly when the span
   holds that many, or everything there is before the edge.
   */
  lemma {:induction false} LatestOfAllExactly(venue: Venue, late: nat -> bool, candles: seq<Bar>, fallback: seq<Bar>,
                    tfSeconds: int, limit: nat, before: int, now: nat)
    requires tfSeconds > 0 && before != 0
    requires forall b :: b in candles ==> !(now * 1000 <= b.time < before * 1000)
    requires History(candles, tfSeconds * 1000) && Honest(venue, candles, tfSeconds * 1000)
    requires forall b :: b in candles ==> b.time >= 0
    requires Undisturbed(venue, late, candles, tfSeconds * 1000, Window(tfSeconds, limit, before, None, now, 0).value)
    requires Wanted(candles, before, Window(tfSeconds, limit, before, None, now, 0).value.since / 1000) != []
    ensures var span := Window(tfSeconds, limit, before, None, now, 0);
      var got := LatestKlines(Ohlcv(venue, late, fallback, span, tfSeconds * 1000), limit, before);
      var wanted := Wanted(candles, before, span.value.since / 1000);
      got == LastOf(Early(candles, before), limit) <==> 1 <= limit <= |wanted| || wanted == Early(candles, before)
  {
    hide *;
    LatestExact(venue, late, candles, fallback, tfSeconds, limit, before, now);
    WindowWhole(tfSeconds, limit, before, now);
    var since := Window(tfSeconds, limit, before, None, now, 0).value.since;
    SpanIsSuffix(candles, tfSeconds * 1000, since, before);
    LastOfSuffix(Early(candles, before), Wanted(candles, before, since / 1000), limit);
    var all, w := Early(candles, before), Wanted(candles, before, since / 1000);
    if |w| == |all| {
      assert all[0..] == all;
    }
  }

  // ---------------------------------------------------------------- the last slots before the edge

  /** Without a left edge and for a positive limit the span starts a fifth more than `limit` bars before its end. */
  lemma {:induction false} SpanReachesLimit(tfSeconds: int, limit: nat, before: int, now: nat)
    requires tfSeconds > 0 && limit >= 1
    ensures var w := Window(tfSeconds, limit, before, None, now, 0);
      && w.Some? && w.value.end == Min(before, now) * 1000
      && w.value.since <= w.value.end - limit * tfSeconds * 1000
      && 5 * (w.value.end - w.value.since) <= 6 * limit * tfSeconds * 1000 < 5 * (w.value.end - w.value.since) + 5000
  {
    var bars := tfSeconds * limit;
    MulMono(1, tfSeconds, limit);
    assert bars >= 1 && bars == limit * tfSeconds;
    assert TimeRange(tfSeconds, limit) == bars * 6 / 5;
  }

  /** There is a candle in the bar slot that ends `k` bars before `end`. */
  ghost predicate SlotFilled(candles: seq<Bar>, tf: int, end: int, k: nat) {
    exists i :: 0 <= i < |candles| && end - (k + 1) * tf <= candles[i].time < end - k * tf
  }

  /** The candles before `end` whose slots are filled: at least one for each slot. */
  lemma {:induction false} SlotsCount(candles: seq<Bar>, tf: int, end: int, n: nat)
    requires History(candles, tf) && forall k: nat :: k < n ==> SlotFilled(candles, tf, end, k)
    ensures Index(candles, end - n * tf) + n <= Index(candles, end)
  {
    if n > 0 {
      SlotsCount(candles, tf, end, n - 1);
      assert SlotFilled(candles, tf, end, n - 1);
      var k := n - 1;
      var i :| 0 <= i < |candles| && end - (k + 1) * tf <= candles[i].time < end - k * tf;
      IndexSplits(candles, tf, end - k * tf);
      IndexSplits(candles, tf, end - n * tf);
    }
  }

  lemma {:induction false} IndexMono(candles: seq<Bar>, tf: int, a: int, b: int)
    requires History(candles, tf) && a <= b
    ensures Index(candles, a) <= Index(candles, b)
  {
    IndexSplits(candles, tf, a);
    IndexSplits(candles, tf, b);
    assert Index(candles, b) < |candles| ==> candles[Index(candles, b)].time >= b;
  }

  lemma {:induction false} SecondsLength(rows: seq<Bar>)
    ensures |ToSeconds(rows)| == |rows|
  {
    if rows != [] {
      SecondsLength(rows[1..]);
    }
  }

  lemma {:induction false} SecondsSlice(rows: seq<Bar>, n: nat)
    requires n <= |rows|
    ensures |ToSeconds(rows)| == |rows| && ToSeconds(rows)[n..] == ToSeconds(rows[n..])
  {
    SecondsLength(rows);
    SecondsLength(rows[..n]);
    ToSecondsConcat(rows[..n], rows[n..]);
    assert rows == rows[..n] + rows[n..];
  }

  /** The candles of a window are a stretch of the venue's candles. */
  lemma {:induction false} WantedIs(candles: seq<Bar>, tf: int, before: int, after: int)
    requires History(candles, tf) && before != 0 && (forall b :: b in candles ==> b.time >= 0)
    requires after <= before
    ensures var (lo, hi) := (Index(candles, after * 1000), Index(candles, before * 1000));
      lo <= hi && Wanted(candles, before, after) == ToSeconds(candles[lo..hi])
  {
    hide *;
    var lo, hi := Index(candles, after * 1000), Index(candles, before * 1000);
    IndexMono(candles, tf, after * 1000, before * 1000);
    ThreeParts(candles, tf, after * 1000, before * 1000);
    var a, m, z := candles[..lo], candles[lo..hi], candles[hi..];
    OutsideVanishes(a, before, after);
    OutsideVanishes(z, before, after);
    InsideStays(m, before, after);
    OnlyMiddle(a, m, z, before, after);
    CutInThree(candles, lo, hi);
    WantedFilters(candles, before, after);
  }

  lemma {:induction false} CutInThree(rows: seq<Bar>, lo: nat, hi: nat)
    requires lo <= hi <= |rows|
    ensures rows[..lo] + rows[lo..hi] + rows[hi..] == rows
  {
  }

  lemma {:induction false} WantedFilters(candles: seq<Bar>, before: int, after: int)
    ensures Wanted(candles, before, after) == Filter(ToSeconds(candles), Within(Some(before), Some(after)))
  {
  }

  lemma {:induction false} ThreeParts(candles: seq<Bar>, tf: int, a: int, b: int)
    requires History(candles, tf) && Index(candles, a) <= Index(candles, b) && forall x :: x in candles ==> x.time >= 0
    ensures forall x :: x in candles[..Index(candles, a)] ==> x.time >= 0 && x.time < a
    ensures forall x :: x in candles[Index(candles, a)..Index(candles, b)] ==> x.time >= 0 && a <= x.time < b
    ensures forall x :: x in candles[Index(candles, b)..] ==> x.time >= 0 && x.time >= b
  {
    IndexSplits(candles, tf, a);
    IndexSplits(candles, tf, b);
    hide Index;
    assert forall i :: 0 <= i < |candles| ==> candles[i] in candles;
  }

  lemma {:induction false} InsideStays(rows: seq<Bar>, before: int, after: int)
    requires before != 0 && forall b :: b in rows ==> b.time >= 0 && after * 1000 <= b.time < before * 1000
    ensures Filter(ToSeconds(rows), Within(Some(before), Some(after))) == ToSeconds(rows)
  {
    SecondsMembers(rows);
    var w := ToSeconds(rows);
    forall i | 0 <= i < |w|
      ensures InWindow(w[i].time, Some(before), Some(after))
    {
      assert w[i] in w;
    }
    FilterAll(w, Within(Some(before), Some(after)));
  }

  lemma {:induction false} EdgeAfterCandle(candles: seq<Bar>, tf: int, before: int, now: int, limit: nat)
    requires limit >= 1 && (forall b :: b in candles ==> b.time >= 0)
    requires forall k: nat :: k < limit ==> SlotFilled(candles, tf, Min(before, now) * 1000, k)
    ensures before > 0
  {
    var end := Min(before, now) * 1000;
    assert SlotFilled(candles, tf, end, 0);
    var i :| 0 <= i < |candles| && end - (0 + 1) * tf <= candles[i].time < end - 0 * tf;
    assert candles[i] in candles;
  }

  /** The right edge, cut to now, does not move the index when there is no candle in between. */
  lemma {:induction false} EdgeIndex(candles: seq<Bar>, tf: int, before: int, now: int)
    requires History(candles, tf) && forall b :: b in candles ==> !(now * 1000 <= b.time < before * 1000)
    ensures Index(candles, Min(before, now) * 1000) == Index(candles, before * 1000)
  {
    var a, b := Min(before, now) * 1000, before * 1000;
    IndexMono(candles, tf, a, b);
    IndexSplits(candles, tf, a);
    IndexSplits(candles, tf, b);
    if Index(candles, a) < Index(candles, b) {
      assert candles[Index(candles, a)] in candles;
    }
  }

  /**
   The limit theorem: without a left edge, from an honest venue with a candle in each of the last
   `limit` bar slots before the right edge (or now), `get_kline` returns exactly the `limit`
   candles before that edge.
   */
  lemma {:induction false} LastSlots(venue: Venue, late: nat -> bool, candles: seq<Bar>, fallback: seq<Bar>,
                    tfSeconds: int, limit: nat, before: int, now: nat)
    requires tfSeconds > 0 && limit >= 1
    requires forall b :: b in candles ==> !(now * 1000 <= b.time < before * 1000)
    requires History(candles, tfSeconds * 1000) && Honest(venue, candles, tfSeconds * 1000)
    requires forall b :: b in candles ==> b.time >= 0
    requires Undisturbed(venue, late, candles, tfSeconds * 1000, Window(tfSeconds, limit, before, None, now, 0).value)
    requires forall k: nat :: k < limit ==> SlotFilled(candles, tfSeconds * 1000, Min(before, now) * 1000, k)
    ensures var span := Window(tfSeconds, limit, before, None, now, 0);
      var got := LatestKlines(Ohlcv(venue, late, fallback, span, tfSeconds * 1000), limit, before);
      var hi := Index(candles, Min(before, now) * 1000);
      hi >= limit && |got| == limit && got == ToSeconds(candles[hi - limit..hi])
  {
    hide *;
    var tf, end := tfSeconds * 1000, Min(before, now) * 1000;
    SpanReachesLimit(tfSeconds, limit, before, now);
    var since := Window(tfSeconds, limit, before, None, now, 0).value.since;
    EdgeAfterCandle(candles, tf, before, now, limit);
    WindowWhole(tfSeconds, limit, before, now);
    StretchLongEnough(candles, tf, since, end, limit, limit * tfSeconds * 1000);
    EdgeIndex(candles, tf, before, now);
    EdgeIsBefore(before, now, since, limit * tfSeconds);
    WantedIs(candles, tf, before, since / 1000);
    LastOfStretch(candles, Index(candles, since), Index(candles, end), limit);
    LatestExact(venue, late, candles, fallback, tfSeconds, limit, before, now);
  }

  lemma {:induction false} EdgeIsBefore(before: int, now: nat, since: int, bars: int)
    requires bars >= 0 && since % 1000 == 0 && since <= Min(before, now) * 1000 - bars * 1000
    ensures since / 1000 * 1000 == since && since / 1000 <= before
  {
  }

  lemma {:induction false} StretchLongEnough(candles: seq<Bar>, tf: int, since: int, end: int, limit: nat, span: int)
    requires History(candles, tf) && since <= end - span && span == limit * tf
    requires forall k: nat :: k < limit ==> SlotFilled(candles, tf, end, k)
    ensures Index(candles, since) + limit <= Index(candles, end)
  {
    SlotsCount(candles, tf, end, limit);
    IndexMono(candles, tf, since, end - span);
  }

  lemma {:induction false} LastOfStretch(candles: seq<Bar>, lo: nat, hi: nat, limit: nat)
    requires 1 <= limit && lo + limit <= hi <= |candles|
    ensures ToSeconds(candles[lo..hi]) != [] && |ToSeconds(candles[hi - limit..hi])| == limit
    ensures LastOf(ToSeconds(candles[lo..hi]), limit) == ToSeconds(candles[hi - limit..hi])
  {
    hide ToSeconds;
    SecondsSlice(candles[lo..hi], hi - limit - lo);
    SecondsLength(candles[hi - limit..hi]);
    assert candles[lo..hi][hi - limit - lo..] == candles[hi - limit..hi];
  }

  // ---------------------------------------------------------------- recent-candle limits, partial downloads

  /** The oldest time, in seconds, that a venue keeping its last `recentLimit` candles still has. */
  function OldestKept(tfSeconds: int, now: nat, recentLimit: nat): int {
    Max(0, now - tfSeconds * (recentLimit - 1))
  }

  lemma {:induction false} RecentWindow(tfSeconds: int, limit: nat, before: int, after: int, now: nat,
          recentLimit: nat)
    requires tfSeconds > 0 && recentLimit >= 1
    ensures var w := Window(tfSeconds, limit, before, Some(after), now, recentLimit);
      var oldest := OldestKept(tfSeconds, now, recentLimit);
      && (w.None? <==> Min(before, now) < oldest)
      && (w.Some? ==>
            && w.value.end == Min(before, now) * 1000 && w.value.since % 1000 == 0
            && oldest * 1000 <= w.value.since <= Max(after, oldest) * 1000)
  {
    WindowParts(tfSeconds, limit, before, after, now, recentLimit);
    WholeSeconds(tfSeconds, now, recentLimit);
    hide Window, TimeRange, OldestKept;
  }

  lemma {:induction false} WindowParts(tfSeconds: int, limit: nat, before: int, after: int, now: nat,
          recentLimit: nat)
    requires tfSeconds > 0 && recentLimit >= 1
    ensures var plain := Window(tfSeconds, limit, before, Some(after), now, 0);
      var w := Window(tfSeconds, limit, before, Some(after), now, recentLimit);
      var earliest := Max(0, now * 1000 - tfSeconds * 1000 * (recentLimit - 1));
      && plain.Some? && plain.value.since % 1000 == 0 && plain.value.since <= after * 1000
      && (w.None? <==> Min(before, now) * 1000 < earliest)
      && (w.Some? ==> w.value == Span(Max(plain.value.since, earliest), Min(before, now) * 1000))
  {
    hide TimeRange;
    assert (now * 1000 - tfSeconds * 1000) % 1000 == 0;
  }

  lemma {:induction false} WholeSeconds(tfSeconds: int, now: nat, recentLimit: nat)
    requires tfSeconds > 0
    ensures Max(0, now * 1000 - tfSeconds * 1000 * (recentLimit - 1)) == OldestKept(tfSeconds, now, recentLimit) * 1000
  {
    var kept := tfSeconds * (recentLimit - 1);
    assert tfSeconds * 1000 * (recentLimit - 1) == kept * 1000;
  }

  /** Rows from a later left edge on are what the earlier one asks of them. */
  lemma {:induction false} LaterEdge(rows: seq<Bar>, before: int, after: int, since: int)
    requires since % 1000 == 0 && after <= since / 1000 && forall b :: b in rows ==> b.time >= 0 && b.time >= since
    ensures Klines(rows, before, after) == Klines(rows, before, since / 1000)
  {
    var secs := ToSeconds(rows);
    SecondsFrom(rows, since);
    WindowOf(secs, Some(before), Some(after));
    WindowOf(secs, Some(before), Some(since / 1000));
    SortMeans(secs);
    hide ToSeconds, FilterAndLimit, SortByTime;
    FilterSame(SortByTime(secs), Within(Some(before), Some(after)), Within(Some(before), Some(since / 1000)));
  }

  lemma {:induction false} CollectedRecent(candles: seq<Bar>, tf: int, span: Span, rows: seq<Bar>, before: int,
          after: int, oldest: int)
    requires History(candles, tf) && before != 0 && (forall b :: b in candles ==> b.time >= 0)
    requires Index(candles, span.since) + |rows| <= |candles| && span.since % 1000 == 0
    requires rows == candles[Index(candles, span.since)..Index(candles, span.since) + |rows|]
    requires Complete(candles, span.since, span.end, rows) && before * 1000 <= span.end
    requires oldest * 1000 <= span.since <= Max(after, oldest) * 1000
    ensures Klines(Latest(rows), before, after) == Wanted(candles, before, Max(after, oldest))
  {
    hide Klines, Wanted, Latest, Index, Complete;
    if span.since <= after * 1000 {
      SomeCollected(candles, tf, span, rows, before, after);
    } else {
      assert span.since / 1000 == oldest;
      assert forall b :: b in rows ==> b in candles;
      SliceIncreasing(candles, tf, Index(candles, span.since), Index(candles, span.since) + |rows|);
      LatestOfIncreasing(rows);
      RowsFromSince(candles, tf, span.since, |rows|);
      SomeCollected(candles, tf, span, rows, before, oldest);
      LaterEdge(rows, before, after, span.since);
    }
  }

  /**
   A venue that keeps only its last candles: a window that ends before them gives nothing, and
   otherwise `get_kline` returns exactly the candles of the window that are not older than the
   oldest one kept; only when there are none may it return what the fallback path found.
   */
  lemma {:induction false} RecentExact(venue: Venue, late: nat -> bool, candles: seq<Bar>, fallback: seq<Bar>,
                    tfSeconds: int, limit: nat, before: int, after: int, now: nat, recentLimit: nat)
    requires tfSeconds > 0 && before != 0 && recentLimit >= 1
    requires forall b :: b in candles ==> !(now * 1000 <= b.time < before * 1000)
    requires History(candles, tfSeconds * 1000) && Honest(venue, candles, tfSeconds * 1000)
    requires forall b :: b in candles ==> b.time >= 0
    requires var span := Window(tfSeconds, limit, before, Some(after), now, recentLimit);
      span.Some? ==> Undisturbed(venue, late, candles, tfSeconds * 1000, span.value)
    ensures var span := Window(tfSeconds, limit, before, Some(after), now, recentLimit);
      var got := Klines(Ohlcv(venue, late, fallback, span, tfSeconds * 1000), before, after);
      var oldest := OldestKept(tfSeconds, now, recentLimit);
      var wanted := Wanted(candles, before, Max(after, oldest));
      && (Min(before, now) < oldest ==> got == [])
      && (Min(before, now) >= oldest && wanted != [] ==> got == wanted)
      && (Min(before, now) >= oldest && wanted == [] ==> got == [] || got == Klines(fallback, before, after))
  {
    RecentWindow(tfSeconds, limit, before, after, now, recentLimit);
    var w := Window(tfSeconds, limit, before, Some(after), now, recentLimit);
    var tf, oldest := tfSeconds * 1000, OldestKept(tfSeconds, now, recentLimit);
    if w.Some? {
      var span := w.value;
      hide WalkFrom, Window, Honest, LongGap, Klines, Wanted, NoneIn, Restart, Index, Latest, Complete, History, OldestKept;
      var rows := WalkFrom(venue, late, span.end, tf, 0, span.since, 0, []).rows;
      CompleteExactly(venue, late, candles, tf, span.since, span.end);
      CoveredIsPrefix(venue, late, candles, tf, span.since, span.end);
      var end := if before > now then before * 1000 else span.end;
      if before > now {
        CompleteBeyond(candles, span.since, span.end, before * 1000, rows);
      }
      CollectedRecent(candles, tf, Span(span.since, end), rows, before, after, oldest);
      if rows == [] {
        NothingOf(before, after);
      }
    } else {
      NothingOf(before, after);
    }
  }

  lemma {:induction false} NothingOf(before: int, after: int)
    ensures Klines([], before, after) == [] && Latest([]) == []
  {
  }

  /**
   Whatever ends a download that has rows, and is not an unknown symbol: what reaches the caller
   are candles of the venue in the window, in time order, and none before the next request is missing.
   */
  lemma {:induction false} PartialWindow(venue: Venue, late: nat -> bool, candles: seq<Bar>, fallback: seq<Bar>,
                    span: Span, tf: int, before: int, after: int)
    requires History(candles, tf) && Honest(venue, candles, tf) && before != 0
    requires forall b :: b in candles ==> b.time >= 0
    ensures var w := WalkFrom(venue, late, span.end, tf, 0, span.since, 0, []);
      var got := Klines(Ohlcv(venue, late, fallback, Some(span), tf), before, after);
      && (w.stop.Raised? && w.stop.unknownSymbol ==> got == [])
      && (!(w.stop.Raised? && w.stop.unknownSymbol) && w.rows == [] ==> got == Klines(fallback, before, after))
      && (!(w.stop.Raised? && w.stop.unknownSymbol) && w.rows != [] ==>
            && Sorted(got)
            && (forall x :: x in got ==>
                  exists b :: b in candles && after * 1000 <= b.time < before * 1000 && x == b.(time := b.time / 1000))
            && (forall b :: b in candles && span.since <= b.time < w.next && after * 1000 <= b.time < before * 1000 ==>
                  b.(time := b.time / 1000) in got))
  {
    var w := WalkFrom(venue, late, span.end, tf, 0, span.since, 0, []);
    CoveredPrefixComplete(venue, late, candles, tf, span.since, span.end);
    LatestOfIncreasing(w.rows);
    NothingOf(before, after);
    hide WalkFrom, Honest, Latest, History, Klines, Complete, Increasing;
    if w.rows != [] {
      CompleteHas(candles, span.since, w.next, w.rows);
      RowsOfWindow(w.rows, before, after);
    }
  }

  lemma {:induction false} CompleteHas(candles: seq<Bar>, since: int, end: int, rows: seq<Bar>)
    requires Complete(candles, since, end, rows)
    ensures forall b :: b in candles && since <= b.time < end ==> b in rows
  {
  }

  lemma {:induction false} RowsOfWindow(rows: seq<Bar>, before: int, after: int)
    requires before != 0 && forall b :: b in rows ==> b.time >= 0
    ensures Sorted(Klines(rows, before, after))
    ensures forall x :: x in Klines(rows, before, after) ==>
              exists b :: b in rows && after * 1000 <= b.time < before * 1000 && x == b.(time := b.time / 1000)
    ensures forall b :: b in rows && after * 1000 <= b.time < before * 1000 ==>
              b.(time := b.time / 1000) in Klines(rows, before, after)
  {
    FilterAndLimitMeans(ToSeconds(rows), 0, Some(before), Some(after));
    SecondsMembers(rows);
    hide FilterAndLimit, ToSeconds;
    forall x | x in Klines(rows, before, after)
      ensures exists b :: b in rows && after * 1000 <= b.time < before * 1000 && x == b.(time := b.time / 1000)
    {
      var b :| b in rows && x == b.(time := ToSecond(b.time));
      assert after * 1000 <= b.time < before * 1000;
    }
    forall b | b in rows && after * 1000 <= b.time < before * 1000
      ensures b.(time := b.time / 1000) in Klines(rows, before, after)
    {
      assert b.(time := ToSecond(b.time)) in ToSeconds(rows);
    }
  }
}
