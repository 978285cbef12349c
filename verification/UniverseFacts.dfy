/**
 What the point-in-time query of backend/app/services/universe.py returns beside the symbols:
 name, weight, rank, metadata and version of the row in force. A snapshot overwrites them on
 the open row, so the answer for a day can change after that day.
 */
module UniverseFacts {
  import opened Basics
  import opened Universe

  /** What the query tells of one member. */
  datatype Told = Told(facts: Facts, version: Day)

  // ---------------------------------------------------------------- one symbol

  function ToldOn(h: seq<Row>, d: Day): set<Told> {
    set r | r in h && InForce(r, d) :: Told(r.facts, r.version)
  }

  function FactsIn(told: set<Told>): set<Facts> {
    set t | t in told :: t.facts
  }

  /** The history ends with an open row that is in force on the day. */
  predicate OpenOver(h: seq<Row>, d: Day) {
    h != [] && h[|h| - 1].to.None? && h[|h| - 1].from <= d
  }

  lemma {:induction false} ToldSnoc(front: seq<Row>, r: Row, d: Day)
    ensures ToldOn(front + [r], d) == ToldOn(front, d) + if InForce(r, d) then {Told(r.facts, r.version)} else {}
  {
    var h := front + [r];
    forall t | t in ToldOn(front, d)
      ensures t in ToldOn(h, d)
    {
      var x :| x in front && InForce(x, d) && Told(x.facts, x.version) == t;
      assert x in h;
    }
    assert r in h;
  }

  /** Rows that have ended tell nothing. */
  lemma {:induction false} EndedTellNothing(h: seq<Row>, day: Day, d: Day)
    requires EndedBy(h, day) && day <= d
    ensures ToldOn(h, d) == {}
  {
  }

  /** A tidy history that ends with an open row in force tells what that row holds. */
  lemma {:induction false} OpenTells(h: seq<Row>, d: Day)
    requires Tidy(h) && OpenOver(h, d)
    ensures var r := h[|h| - 1]; ToldOn(h, d) == {Told(r.facts, r.version)}
  {
    var front, r := h[..|h| - 1], h[|h| - 1];
    assert h == front + [r];
    TidySnoc(front, r);
    EndedTellNothing(front, r.from, d);
    ToldSnoc(front, r, d);
  }

  /** What the day is told after a step. */
  function ToldAfter(h: seq<Row>, item: Option<Item>, asOf: Day, d: Day): set<Told> {
    if asOf <= d || OpenOver(h, d) then
      if item.Some? then {Told(item.value.facts, asOf)} else if asOf <= d then {} else ToldOn(h, d)
    else ToldOn(h, d)
  }

  lemma {:induction false} OpenStep(front: seq<Row>, r: Row, u: nat, item: Option<Item>, asOf: Day, d: Day)
    requires Tidy(front + [r]) && r.to.None? && r.from <= asOf
    ensures var (h, after) := (front + [r], TidyStep(front + [r], u, item, asOf));
      && ToldOn(after, d) == ToldAfter(h, item, asOf, d)
      && (OpenOver(after, d) <==> item.Some? && (asOf <= d || OpenOver(h, d)))
  {
    var h := front + [r];
    assert h[..|h| - 1] == front && h[|h| - 1] == r;
    TidySnoc(front, r);
    ToldSnoc(front, r, d);
    if r.from <= d {
      EndedTellNothing(front, r.from, d);
    }
    hide ToldOn, Tidy, EndedBy;
    match item {
      case Some(i) => ToldSnoc(front, r.(facts := i.facts, version := asOf), d);
      case None =>
        if r.from < asOf {
          ToldSnoc(front, r.(to := Some(asOf)), d);
        }
    }
  }

  /** A step tells the days it covers the snapshot's facts, and every day before it that its open row covers. */
  lemma {:induction false} StepTells(h: seq<Row>, u: nat, item: Option<Item>, asOf: Day, d: Day)
    requires Tidy(h) && NothingAfter(h, asOf)
    ensures var after := TidyStep(h, u, item, asOf);
      && ToldOn(after, d) == ToldAfter(h, item, asOf, d)
      && (OpenOver(after, d) <==> item.Some? && (asOf <= d || OpenOver(h, d)))
  {
    if h != [] && h[|h| - 1].to.None? {
      var front, r := h[..|h| - 1], h[|h| - 1];
      assert h == front + [r] && r in h;
      OpenStep(front, r, u, item, asOf, d);
    } else {
      AllEnded(h, asOf);
      if asOf <= d {
        EndedTellNothing(h, asOf, d);
      }
      if item.Some? {
        ToldSnoc(h, NewRow(u, item.value, asOf), d);
      }
    }
  }

  // ---------------------------------------------------------------- one snapshot

  /** What the query for `d` tells of symbol `s`. */
  function ToldOf(rows: seq<Row>, u: nat, d: Day, s: string): set<Told> {
    set r | r in rows && r.universe == u && r.symbol == s && InForce(r, d) :: Told(r.facts, r.version)
  }

  function FactsOf(rows: seq<Row>, u: nat, d: Day, s: string): set<Facts> {
    FactsIn(ToldOf(rows, u, d, s))
  }

  /** The snapshot's entry for a symbol: the last one, unless the symbol is empty. */
  function Listing(members: seq<Item>, s: string): Option<Item> {
    if s == "" then None else LastNamed(members, s)
  }

  predicate Lists(e: Entry, s: string) {
    Listing(e.members, s).Some?
  }

  function TellsOf(e: Entry, s: string): Told
    requires Lists(e, s)
  {
    Told(Listing(e.members, s).value.facts, e.asOf)
  }

  lemma {:induction false} ToldByHistory(rows: seq<Row>, u: nat, d: Day, s: string)
    ensures ToldOf(rows, u, d, s) == ToldOn(History(rows, u, s), d)
  {
    HistoryRows(rows, u, s);
  }

  lemma {:induction false} LastNamedMeans(members: seq<Item>, s: string)
    ensures LastNamed(members, s).Some? <==> exists i :: i in members && i.symbol == s
  {
    if members != [] {
      LastNamedMeans(members[..|members| - 1], s);
      assert members == members[..|members| - 1] + [members[|members| - 1]];
    }
  }

  lemma {:induction false} ListingIs(members: seq<Item>, s: string)
    ensures Find(Cleaned(members), s) == Listing(members, s)
    ensures Listing(members, s).Some? <==> s in Listed(members)
    ensures Listing(members, s).Some? ==> Listing(members, s).value.symbol == s
  {
    CleanedMeans(members);
    FindMeans(Cleaned(members), s);
    LastNamedMeans(members, s);
    hide Cleaned, LastNamed;
    assert s in Listed(members) <==> s != "" && exists i :: i in members && i.symbol == s;
  }

  function Applied(rows: seq<Row>, e: Entry): seq<Row> {
    Snapshotted(rows, e.universe, Cleaned(e.members), e.asOf)
  }

  /** The symbol's open row is in force on the day. */
  predicate Stays(rows: seq<Row>, u: nat, d: Day, s: string) {
    OpenOver(History(rows, u, s), d)
  }

  /** What a snapshot makes the query tell, for every day and symbol. */
  lemma {:induction false} SnapshotTells(rows: seq<Row>, e: Entry, d: Day, s: string)
    requires TidyTable(rows, e.universe) && Dated(rows, e.universe, e.asOf)
    ensures var (u, after) := (e.universe, Applied(rows, e));
      && (Stays(after, u, d, s) <==> Lists(e, s) && (e.asOf <= d || Stays(rows, u, d, s)))
      && ToldOf(after, u, d, s) ==
           if e.asOf <= d || Stays(rows, u, d, s) then
             if Lists(e, s) then {TellsOf(e, s)} else if e.asOf <= d then {} else ToldOf(rows, u, d, s)
           else ToldOf(rows, u, d, s)
  {
    var u, items := e.universe, Cleaned(e.members);
    var h, after := History(rows, u, s), Snapshotted(rows, u, items, e.asOf);
    SnapshotStep(rows, u, e.members, e.asOf);
    CleanedMeans(e.members);
    ListingIs(e.members, s);
    AfterHistory(rows, u, items, e.asOf, u, s);
    DatedHistory(rows, u, e.asOf, s);
    assert Tidy(h);
    ToldByHistory(rows, u, d, s);
    ToldByHistory(after, u, d, s);
    hide TidyTable, Dated, Cleaned, Listing, Find, After, Accepted, History, ToldOf, ToldOn, SymbolStep, Listed;
    hide OpenOver, Tidy, NothingAfter, OneSymbol, Members;
    StepShape(h, u, s, Find(items, s), e.asOf);
    StepTells(h, u, Find(items, s), e.asOf, d);
    hide TidyStep;
  }

  /** The row that stays in force on the day decides what is told of it. */
  lemma {:induction false} StayingRow(rows: seq<Row>, u: nat, d: Day, s: string) returns (r: Row)
    requires TidyTable(rows, u) && Stays(rows, u, d, s)
    ensures r in rows && IsOpen(r, u) && r.symbol == s && r.from <= d && FactsOf(rows, u, d, s) == {r.facts}
  {
    var h := History(rows, u, s);
    assert Tidy(h);
    HistoryRows(rows, u, s);
    ToldByHistory(rows, u, d, s);
    hide ToldOf, ToldOn, TidyTable, History;
    OpenTells(h, d);
    r := h[|h| - 1];
    assert r in h;
  }

  lemma {:induction false} OpenRowStays(rows: seq<Row>, u: nat, r: Row, d: Day)
    requires TidyTable(rows, u) && r in rows && IsOpen(r, u) && r.from <= d
    ensures Stays(rows, u, d, r.symbol) && FactsOf(rows, u, d, r.symbol) == {r.facts}
  {
    var h := History(rows, u, r.symbol);
    assert Tidy(h);
    HistoryRows(rows, u, r.symbol);
    ToldByHistory(rows, u, d, r.symbol);
    hide ToldOf, ToldOn, TidyTable, History;
    var k: nat :| k < |h| && h[k] == r;
    OpenTells(h, d);
  }

  /** A listed item agrees with its symbol's open row, if that row was there before the snapshot. */
  ghost predicate AgreesWithOpen(rows: seq<Row>, u: nat, members: seq<Item>, asOf: Day) {
    forall i, r :: i in Cleaned(members) && r in rows && IsOpen(r, u) && r.symbol == i.symbol && r.from < asOf ==>
                     r.facts == i.facts
  }

  ghost predicate EarlierFactsKept(rows: seq<Row>, u: nat, members: seq<Item>, asOf: Day) {
    var after := Snapshotted(rows, u, Cleaned(members), asOf);
    forall d, s :: d < asOf ==> FactsOf(after, u, d, s) == FactsOf(rows, u, d, s)
  }

  /**
   A snapshot leaves the facts of every earlier day as they were exactly when every item it lists
   repeats the facts of its symbol's open row, for the rows in force before the snapshot's date.
   */
  lemma {:induction false} EarlierFactsKeptExactly(rows: seq<Row>, u: nat, members: seq<Item>, asOf: Day)
    requires TidyTable(rows, u) && Dated(rows, u, asOf)
    ensures EarlierFactsKept(rows, u, members, asOf) <==> AgreesWithOpen(rows, u, members, asOf)
  {
    if AgreesWithOpen(rows, u, members, asOf) {
      forall d, s | d < asOf
        ensures FactsOf(Snapshotted(rows, u, Cleaned(members), asOf), u, d, s) == FactsOf(rows, u, d, s)
      {
        FactsKept(rows, u, members, asOf, d, s);
      }
    } else {
      var i, r :| i in Cleaned(members) && r in rows && IsOpen(r, u) && r.symbol == i.symbol && r.from < asOf
                  && r.facts != i.facts;
      FactsChanged(rows, u, members, asOf, i, r);
    }
  }

  lemma {:induction false} FactsKept(rows: seq<Row>, u: nat, members: seq<Item>, asOf: Day, d: Day, s: string)
    requires TidyTable(rows, u) && Dated(rows, u, asOf) && AgreesWithOpen(rows, u, members, asOf) && d < asOf
    ensures FactsOf(Snapshotted(rows, u, Cleaned(members), asOf), u, d, s) == FactsOf(rows, u, d, s)
  {
    var e := Entry(u, asOf, members);
    ListingIs(members, s);
    FindMeans(Cleaned(members), s);
    hide TidyTable, Dated, Cleaned, Listing, Snapshotted, ToldOf, Find, Listed, Stays;
    SnapshotTells(rows, e, d, s);
    if Stays(rows, u, d, s) && Lists(e, s) {
      var r := StayingRow(rows, u, d, s);
      assert FactsIn({TellsOf(e, s)}) == {r.facts};
    }
  }

  lemma {:induction false} FactsChanged(rows: seq<Row>, u: nat, members: seq<Item>, asOf: Day, i: Item, r: Row)
    requires TidyTable(rows, u) && Dated(rows, u, asOf) && i in Cleaned(members) && r in rows && IsOpen(r, u)
    requires r.symbol == i.symbol && r.from < asOf && r.facts != i.facts
    ensures !EarlierFactsKept(rows, u, members, asOf)
  {
    var e, d := Entry(u, asOf, members), asOf - 1;
    CleanedMeans(members);
    FindDistinct(Cleaned(members), i);
    ListingIs(members, i.symbol);
    hide TidyTable, Dated, Cleaned, Listing, Snapshotted, ToldOf, Find, Listed, Stays;
    SnapshotTells(rows, e, d, i.symbol);
    OpenRowStays(rows, u, r, d);
    assert i.facts in FactsIn({TellsOf(e, i.symbol)});
    assert FactsOf(Snapshotted(rows, u, Cleaned(members), asOf), u, d, i.symbol) != FactsOf(rows, u, d, i.symbol);
  }

  // ---------------------------------------------------------------- a log of snapshots

  /** The last snapshot of `u` in the run of snapshots, from the log's first on, that all list `s`. */
  function LastOfRun(log: seq<Entry>, u: nat, s: string): (e: Option<Entry>)
    ensures e.Some? ==> e.value in log && e.value.universe == u && Lists(e.value, s)
  {
    if log == [] then None
    else if log[0].universe != u then LastOfRun(log[1..], u, s)
    else if !Lists(log[0], s) then None
    else
      var later := LastOfRun(log[1..], u, s);
      if later.Some? then later else Some(log[0])
  }

  lemma {:induction false} ReplayConcat(rows: seq<Row>, a: seq<Entry>, b: seq<Entry>)
    ensures Replay(rows, a + b) == Replay(Replay(rows, a), b)
    decreases |b|
  {
    hide Snapshotted, Cleaned;
    if b == [] {
      assert a + b == a;
    } else {
      var front, all := b[..|b| - 1], a + b;
      assert all[..|all| - 1] == a + front && all[|all| - 1] == b[|b| - 1];
      ReplayConcat(rows, a, front);
    }
  }

  lemma {:induction false} ReplayOne(rows: seq<Row>, e: Entry)
    ensures Replay(rows, [e]) == Applied(rows, e)
  {
    assert [e][..0] == [];
    assert Replay(rows, [e][..0]) == rows;
  }

  /** A snapshot of another universe changes nothing that is told of `u`. */
  lemma {:induction false} OtherTells(rows: seq<Row>, e: Entry, u: nat, d: Day, s: string)
    requires e.universe != u
    ensures ToldOf(Applied(rows, e), u, d, s) == ToldOf(rows, u, d, s)
    ensures Stays(Applied(rows, e), u, d, s) <==> Stays(rows, u, d, s)
  {
    ToldByHistory(rows, u, d, s);
    ToldByHistory(Applied(rows, e), u, d, s);
    hide ToldOf, ToldOn, History, After, Accepted, Cleaned, OpenOver;
    OtherUnchanged(rows, e.universe, e.members, e.asOf, u, s);
  }

  /** After the first snapshot of an ordered log the rest is ordered too. */
  lemma {:induction false} RestInOrder(rows: seq<Row>, log: seq<Entry>, u: nat)
    requires TidyTable(rows, u) && InOrder(rows, log, u) && log != []
    ensures var now := Applied(rows, log[0]); TidyTable(now, u) && InOrder(now, log[1..], u)
  {
    var e, rest := log[0], log[1..];
    assert InOrder(rows, [e], u);
    PointInTime(rows, [e], u);
    ReplayOne(rows, e);
    hide TidyTable, Dated, Applied, Members, Replay;
    assert forall i :: 0 <= i < |rest| ==> rest[i] == log[i + 1];
  }

  ghost predicate AllAfter(log: seq<Entry>, u: nat, d: Day) {
    forall i :: 0 <= i < |log| && log[i].universe == u ==> d < log[i].asOf
  }

  /** What a log of snapshots after the day lets the query tell of it. */
  function ToldLater(rows: seq<Row>, log: seq<Entry>, u: nat, d: Day, s: string): set<Told> {
    var last := LastOfRun(log, u, s);
    if Stays(rows, u, d, s) && last.Some? then {TellsOf(last.value, s)} else ToldOf(rows, u, d, s)
  }

  lemma {:induction false} LaterByFirst(rows: seq<Row>, log: seq<Entry>, u: nat, d: Day, s: string)
    requires log != [] && TidyTable(rows, u) && InOrder(rows, log, u) && AllAfter(log, u, d)
    ensures ToldLater(Applied(rows, log[0]), log[1..], u, d, s) == ToldLater(rows, log, u, d, s)
  {
    var e := log[0];
    if e.universe == u {
      assert Dated(rows, u, e.asOf) && d < e.asOf;
      SnapshotTells(rows, e, d, s);
    } else {
      OtherTells(rows, e, u, d, s);
    }
    hide TidyTable, Dated, InOrder, Applied, ToldOf, Stays, Lists, TellsOf;
  }

  /** What snapshots after a day make of it: the last of the run that keeps its row open decides. */
  lemma {:induction false} LaterSnapshots(rows: seq<Row>, log: seq<Entry>, u: nat, d: Day, s: string)
    requires TidyTable(rows, u) && InOrder(rows, log, u) && AllAfter(log, u, d)
    ensures ToldOf(Replay(rows, log), u, d, s) == ToldLater(rows, log, u, d, s)
    decreases |log|
  {
    hide TidyTable, InOrder, Stays, ToldOf, Applied, Lists, TellsOf, AllAfter;
    if log != [] {
      var e, rest := log[0], log[1..];
      RestAfter(log, u, d);
      LaterByFirst(rows, log, u, d, s);
      RestInOrder(rows, log, u);
      hide ToldLater, LastOfRun;
      LaterSnapshots(Applied(rows, e), rest, u, d, s);
      ReplayFirst(rows, log);
    }
  }

  lemma {:induction false} RestAfter(log: seq<Entry>, u: nat, d: Day)
    requires log != [] && AllAfter(log, u, d)
    ensures AllAfter(log[1..], u, d)
  {
  }

  lemma {:induction false} ReplayFirst(rows: seq<Row>, log: seq<Entry>)
    requires log != []
    ensures Replay(rows, log) == Replay(Applied(rows, log[0]), log[1..])
  {
    hide Replay, Applied;
    assert log == [log[0]] + log[1..];
    ReplayConcat(rows, [log[0]], log[1..]);
    ReplayOne(rows, log[0]);
  }

  /** The last snapshot of `u` dated on or before `d`. */
  ghost predicate Governs(log: seq<Entry>, u: nat, d: Day, i: nat) {
    && i < |log| && log[i].universe == u && log[i].asOf <= d
    && forall k :: i < k < |log| && log[k].universe == u ==> d < log[k].asOf
  }

  /** Right after the snapshot that governs a day, the day is told that snapshot's facts. */
  lemma {:induction false} GoverningTells(rows: seq<Row>, log: seq<Entry>, u: nat, d: Day, s: string, i: nat)
    requires TidyTable(rows, u) && InOrder(rows, log, u) && Governs(log, u, d, i)
    ensures var now := Replay(rows, log[..i + 1]);
      && TidyTable(now, u) && InOrder(now, log[i + 1..], u) && AllAfter(log[i + 1..], u, d)
      && (Stays(now, u, d, s) <==> Lists(log[i], s))
      && ToldOf(now, u, d, s) == if Lists(log[i], s) then {TellsOf(log[i], s)} else {}
  {
    var before := Replay(rows, log[..i]);
    assert log[..i + 1][..i] == log[..i];
    PointInTime(rows, log[..i], u);
    PointInTime(rows, log[..i + 1], u);
    assert Dated(rows, u, log[i].asOf) && Dated(before, u, log[i].asOf);
    LaterInOrder(rows, log, u, i);
    hide TidyTable, Dated, InOrder, Members, LastSnapshot, ToldOf, Stays, Lists, TellsOf, Cleaned, Snapshotted;
    SnapshotTells(before, log[i], d, s);
  }

  lemma {:induction false} LaterInOrder(rows: seq<Row>, log: seq<Entry>, u: nat, i: nat)
    requires TidyTable(rows, u) && InOrder(rows, log, u) && i < |log| && log[i].universe == u
    ensures InOrder(Replay(rows, log[..i + 1]), log[i + 1..], u)
  {
    var now, later := Replay(rows, log[..i + 1]), log[i + 1..];
    PointInTime(rows, log[..i + 1], u);
    hide Replay, TidyTable, Members, LastSnapshot, Dated;
    assert forall k :: 0 <= k < |later| ==> later[k] == log[k + i + 1];
    forall k | 0 <= k < |later| && later[k].universe == u
      ensures Dated(now, u, later[k].asOf)
    {
      assert log[k + i + 1].universe == u && Dated(rows, u, log[k + i + 1].asOf);
    }
  }

  /**
   Point-in-time facts: over any log in date order the query for day `d` tells of `s` what the
   last snapshot says in the unbroken run of snapshots listing `s` that starts with the one
   governing `d`, and nothing when that one does not list it. So it tells the facts as of `d`
   exactly when that last snapshot repeats them.
   */
  lemma {:induction false} FactsInTime(rows: seq<Row>, log: seq<Entry>, u: nat, d: Day, s: string, i: nat)
    requires TidyTable(rows, u) && InOrder(rows, log, u) && Governs(log, u, d, i)
    ensures !Lists(log[i], s) ==> ToldOf(Replay(rows, log), u, d, s) == {}
    ensures Lists(log[i], s) ==>
              var last := LastOfRun(log[i..], u, s);
              && last.Some? && ToldOf(Replay(rows, log), u, d, s) == {TellsOf(last.value, s)}
              && (FactsOf(Replay(rows, log), u, d, s) == {TellsOf(log[i], s).facts} <==>
                    TellsOf(last.value, s).facts == TellsOf(log[i], s).facts)
  {
    hide *;
    ToldInTime(rows, log, u, d, s, i);
    if Lists(log[i], s) {
      var last := LastOfRun(log[i..], u, s).value;
      OneFact(TellsOf(last, s));
      FactsAre(Replay(rows, log), u, d, s);
      assert TellsOf(last, s).facts in {TellsOf(last, s).facts};
    }
  }

  lemma {:induction false} ToldInTime(rows: seq<Row>, log: seq<Entry>, u: nat, d: Day, s: string, i: nat)
    requires TidyTable(rows, u) && InOrder(rows, log, u) && Governs(log, u, d, i)
    ensures i < |log|
    ensures Lists(log[i], s) ==> LastOfRun(log[i..], u, s).Some?
    ensures ToldOf(Replay(rows, log), u, d, s) ==
              if Lists(log[i], s) then {TellsOf(LastOfRun(log[i..], u, s).value, s)} else {}
  {
    assert i < |log| && log[i].universe == u;
    hide TidyTable, InOrder, AllAfter, Replay, ToldOf, Stays, Lists, TellsOf, LastOfRun, Governs;
    GoverningTells(rows, log, u, d, s, i);
    ReplayParts(rows, log, i + 1);
    LaterSnapshots(Replay(rows, log[..i + 1]), log[i + 1..], u, d, s);
    if Lists(log[i], s) {
      RunFrom(log, u, s, i);
    }
  }

  lemma {:induction false} ReplayParts(rows: seq<Row>, log: seq<Entry>, n: nat)
    requires n <= |log|
    ensures Replay(rows, log) == Replay(Replay(rows, log[..n]), log[n..])
  {
    hide Replay;
    assert log[..n] + log[n..] == log;
    ReplayConcat(rows, log[..n], log[n..]);
  }

  /** The run that starts with a listing snapshot. */
  lemma {:induction false} RunFrom(log: seq<Entry>, u: nat, s: string, i: nat)
    requires i < |log| && log[i].universe == u && Lists(log[i], s)
    ensures var later := LastOfRun(log[i + 1..], u, s);
      LastOfRun(log[i..], u, s) == if later.Some? then later else Some(log[i])
  {
    hide Lists;
    assert log[i..][1..] == log[i + 1..] && log[i..][0] == log[i];
  }

  lemma {:induction false} OneFact(t: Told)
    ensures FactsIn({t}) == {t.facts}
  {
  }

  lemma {:induction false} FactsAre(rows: seq<Row>, u: nat, d: Day, s: string)
    ensures FactsOf(rows, u, d, s) == FactsIn(ToldOf(rows, u, d, s))
  {
  }

  /** Before the first snapshot, the table's own rows are told, overwritten by a run that starts the log. */
  lemma {:induction false} FactsBeforeLog(rows: seq<Row>, log: seq<Entry>, u: nat, d: Day, s: string)
    requires TidyTable(rows, u) && InOrder(rows, log, u) && AllAfter(log, u, d)
    ensures LastOfRun(log, u, s).None? ==> ToldOf(Replay(rows, log), u, d, s) == ToldOf(rows, u, d, s)
    ensures LastOfRun(log, u, s).Some? ==>
              ToldOf(Replay(rows, log), u, d, s) ==
                if Stays(rows, u, d, s) then {TellsOf(LastOfRun(log, u, s).value, s)} else ToldOf(rows, u, d, s)
  {
    hide TidyTable, InOrder, AllAfter, Replay, ToldOf, Stays, TellsOf;
    LaterSnapshots(rows, log, u, d, s);
  }

  // ---------------------------------------------------------------- facts that never change

  /** Snapshot `k` is in the unbroken run of snapshots of `u` listing `s` from the i-th on. */
  ghost predicate InRun(log: seq<Entry>, u: nat, s: string, i: nat, k: nat) {
    && i <= k < |log| && log[k].universe == u
    && forall m :: i <= m <= k && log[m].universe == u ==> Lists(log[m], s)
  }

  /** The last of the run is in it, with nothing of the run behind it. */
  lemma {:induction false} LastIsInRun(log: seq<Entry>, u: nat, s: string) returns (k: nat)
    requires LastOfRun(log, u, s).Some?
    ensures InRun(log, u, s, 0, k) && log[k] == LastOfRun(log, u, s).value
    ensures forall j: nat :: InRun(log, u, s, 0, j) ==> j <= k
  {
    var rest := log[1..];
    assert forall m :: 0 <= m < |rest| ==> rest[m] == log[m + 1];
    hide Lists;
    if LastOfRun(rest, u, s).Some? {
      var k' := LastIsInRun(rest, u, s);
      k := k' + 1;
      RunShifts(log, u, s, k');
      forall j: nat | InRun(log, u, s, 0, j)
        ensures j <= k
      {
        if j > 0 {
          RunShifts(log, u, s, j - 1);
        }
      }
    } else {
      k := 0;
      forall j: nat | InRun(log, u, s, 0, j)
        ensures j <= k
      {
        if j > 0 {
          RunShifts(log, u, s, j - 1);
          RunHasLast(rest, u, s, j - 1);
        }
      }
    }
  }

  lemma {:induction false} RunShifts(log: seq<Entry>, u: nat, s: string, k: nat)
    requires log != []
    ensures InRun(log, u, s, 0, k + 1) <==>
              InRun(log[1..], u, s, 0, k) && (log[0].universe == u ==> Lists(log[0], s))
  {
    var rest := log[1..];
    hide Lists;
    assert forall m :: 0 <= m < |rest| ==> rest[m] == log[m + 1];
    if InRun(rest, u, s, 0, k) && (log[0].universe == u ==> Lists(log[0], s)) {
      forall m | 0 <= m <= k + 1 && log[m].universe == u
        ensures Lists(log[m], s)
      {
        assert m > 0 ==> log[m] == rest[m - 1];
      }
    }
  }

  lemma {:induction false} RunHasLast(log: seq<Entry>, u: nat, s: string, k: nat)
    requires InRun(log, u, s, 0, k)
    ensures LastOfRun(log, u, s).Some?
  {
    hide Lists;
    if k > 0 && log[0].universe != u {
      RunShifts(log, u, s, k - 1);
      RunHasLast(log[1..], u, s, k - 1);
    }
  }

  lemma {:induction false} RunOfPart(log: seq<Entry>, u: nat, s: string, i: nat, n: nat, k: nat)
    requires i <= n <= |log|
    ensures InRun(log[i..n], u, s, 0, k) <==> i + k < n && InRun(log, u, s, i, i + k)
  {
    var part := log[i..n];
    hide Lists;
    assert forall m :: 0 <= m < |part| ==> part[m] == log[i + m];
    if i + k < n && InRun(part, u, s, 0, k) {
      forall m | i <= m <= i + k && log[m].universe == u
        ensures Lists(log[m], s)
      {
        assert log[m] == part[m - i];
      }
    }
  }

  /** From the snapshot that governs a day on, the query for it has always told the facts as of the day. */
  ghost predicate AlwaysAsOf(rows: seq<Row>, log: seq<Entry>, u: nat, d: Day, s: string, i: nat)
    requires i < |log| && Lists(log[i], s)
  {
    forall n: nat :: i < n <= |log| ==> FactsOf(Replay(rows, log[..n]), u, d, s) == {TellsOf(log[i], s).facts}
  }

  ghost predicate RunRepeats(log: seq<Entry>, u: nat, s: string, i: nat)
    requires i < |log| && Lists(log[i], s)
  {
    forall k: nat :: InRun(log, u, s, i, k) ==> TellsOf(log[k], s).facts == TellsOf(log[i], s).facts
  }

  lemma {:induction false} PartOfLog(rows: seq<Row>, log: seq<Entry>, u: nat, d: Day, i: nat, n: nat)
    requires InOrder(rows, log, u) && Governs(log, u, d, i) && i < n <= |log|
    ensures InOrder(rows, log[..n], u) && Governs(log[..n], u, d, i) && log[..n][i] == log[i]
    ensures log[..n][i..] == log[i..n]
  {
  }

  /** The last of the run among the first `n` snapshots. */
  lemma {:induction false} LastBefore(log: seq<Entry>, u: nat, s: string, i: nat, n: nat) returns (k: nat)
    requires i < n <= |log| && LastOfRun(log[i..n], u, s).Some?
    ensures InRun(log, u, s, i, k) && k < n && log[k] == LastOfRun(log[i..n], u, s).value
    ensures forall j: nat :: InRun(log, u, s, i, j) && j < n ==> j <= k
  {
    var k' := LastIsInRun(log[i..n], u, s);
    k := i + k';
    RunOfPart(log, u, s, i, n, k');
    hide LastOfRun, Lists;
    forall j: nat | InRun(log, u, s, i, j) && j < n
      ensures j <= k
    {
      RunOfPart(log, u, s, i, n, j - i);
    }
  }

  lemma {:induction false} AtMoment(rows: seq<Row>, log: seq<Entry>, u: nat, d: Day, s: string, i: nat, n: nat)
    returns (k: nat)
    requires TidyTable(rows, u) && InOrder(rows, log, u) && Governs(log, u, d, i) && Lists(log[i], s)
    requires i < n <= |log|
    ensures InRun(log, u, s, i, k) && k < n && FactsOf(Replay(rows, log[..n]), u, d, s) == {TellsOf(log[k], s).facts}
    ensures forall j: nat :: InRun(log, u, s, i, j) && j < n ==> j <= k
  {
    PartOfLog(rows, log, u, d, i, n);
    hide *;
    FactsInTime(rows, log[..n], u, d, s, i);
    k := LastBefore(log, u, s, i, n);
    OneFact(TellsOf(log[k], s));
    FactsAre(Replay(rows, log[..n]), u, d, s);
  }

  /** That is so exactly when no snapshot of the run changes the facts. */
  lemma {:induction false} AlwaysAsOfExactly(rows: seq<Row>, log: seq<Entry>, u: nat, d: Day, s: string, i: nat)
    requires TidyTable(rows, u) && InOrder(rows, log, u) && Governs(log, u, d, i) && Lists(log[i], s)
    ensures AlwaysAsOf(rows, log, u, d, s, i) <==> RunRepeats(log, u, s, i)
  {
    assert i < |log|;
    hide TidyTable, InOrder, Replay, FactsOf, Lists, TellsOf, Governs;
    if AlwaysAsOf(rows, log, u, d, s, i) {
      forall k: nat | InRun(log, u, s, i, k)
        ensures TellsOf(log[k], s).facts == TellsOf(log[i], s).facts
      {
        var j := AtMoment(rows, log, u, d, s, i, k + 1);
        assert j == k;
        assert TellsOf(log[k], s).facts in {TellsOf(log[i], s).facts};
      }
    } else {
      var n: nat :| i < n <= |log| && FactsOf(Replay(rows, log[..n]), u, d, s) != {TellsOf(log[i], s).facts};
      var k := AtMoment(rows, log, u, d, s, i, n);
    }
  }

  /** An example: two snapshots list the same symbol, and the second one's facts are told of days before it. */
  lemma {:induction false} LaterFactsToldEarlier(u: nat, item: Item, facts: Facts, a: Day, d: Day, b: Day)
    requires item.symbol != "" && a <= d < b && facts != item.facts
    ensures var log := [Entry(u, a, [item]), Entry(u, b, [item.(facts := facts)])];
      && FactsOf(Replay([], log[..1]), u, d, item.symbol) == {item.facts}
      && FactsOf(Replay([], log), u, d, item.symbol) == {facts}
  {
    var s, first, second := item.symbol, Entry(u, a, [item]), Entry(u, b, [item.(facts := facts)]);
    var log := [first, second];
    assert Lists(first, s) && Lists(second, s);
    assert TellsOf(first, s) == Told(item.facts, a) && TellsOf(second, s) == Told(facts, b);
    assert TidyTable([], u) && InOrder([], log, u) && Governs(log, u, d, 0);
    hide TidyTable, InOrder, Replay, FactsOf, Lists, TellsOf, Governs;
    var k := AtMoment([], log, u, d, s, 0, 1);
    var k' := AtMoment([], log, u, d, s, 0, 2);
    assert log[..2] == log;
    assert InRun(log, u, s, 0, 1);
  }
}
