/**
 The temporal membership table of backend/scripts/refresh_public_universe_snapshots.py:
 `apply_snapshot` keeps rows in force over [valid_from, valid_to), so that the point-in-time
 query of backend/app/services/universe.py replays the log of snapshots. Each SQL statement
 is its effect on the sequence of rows.
 */
module Universe {
  import opened Basics

  type Day = int

  datatype Facts = Facts(name: string, weight: Option<real>, rank: Option<int>, metadata: string)

  datatype Item = Item(symbol: string, market: string, facts: Facts)

  datatype Row = Row(universe: nat, market: string, symbol: string, from: Day, to: Option<Day>,
                     facts: Facts, version: Day)

  datatype Outcome =
    | Unknown
    | DryRun(members: nat)
    | Applied(members: nat, added: nat, removed: nat)
    | ConstraintViolation

  // ---------------------------------------------------------------- the snapshot's members

  /** A dictionary assignment: an existing key keeps its place and takes the new value. */
  function Put(items: seq<Item>, item: Item): seq<Item> {
    if items == [] then [item]
    else if items[0].symbol == item.symbol then [item] + items[1..]
    else [items[0]] + Put(items[1..], item)
  }

  function Cleaned(members: seq<Item>): seq<Item> {
    if members == [] then []
    else
      var front, last := members[..|members| - 1], members[|members| - 1];
      if last.symbol == "" then Cleaned(front) else Put(Cleaned(front), last)
  }

  function Symbols(items: seq<Item>): set<string> {
    set i | i in items :: i.symbol
  }

  predicate Distinct(items: seq<Item>) {
    forall i, j :: 0 <= i < j < |items| ==> items[i].symbol != items[j].symbol
  }

  /** The symbols a snapshot lists; an entry without a symbol lists nothing. */
  function Listed(members: seq<Item>): set<string> {
    set i | i in members && i.symbol != "" :: i.symbol
  }

  /** The last entry of `members` for symbol `s`. */
  function LastNamed(members: seq<Item>, s: string): Option<Item> {
    if members == [] then None
    else if members[|members| - 1].symbol == s then Some(members[|members| - 1])
    else LastNamed(members[..|members| - 1], s)
  }

  lemma {:induction false} PutMeans(items: seq<Item>, item: Item)
    requires Distinct(items)
    ensures var r := Put(items, item);
      && Distinct(r) && item in r
      && (forall i :: i in r <==> i == item || (i in items && i.symbol != item.symbol))
  {
    if items != [] && items[0].symbol == item.symbol {
      var r := [item] + items[1..];
      assert forall i :: i in items[1..] ==> i in items;
      assert items == [items[0]] + items[1..];
    } else if items != [] {
      PutMeans(items[1..], item);
      var rest := Put(items[1..], item);
      assert items == [items[0]] + items[1..];
      forall j | 0 <= j < |rest|
        ensures rest[j].symbol != items[0].symbol
      {
        assert rest[j] in rest;
      }
    }
  }

  /** Cleaning keeps one entry for every listed symbol: the last one. */
  lemma {:induction false} CleanedMeans(members: seq<Item>)
    ensures Distinct(Cleaned(members))
    ensures Symbols(Cleaned(members)) == Listed(members)
    ensures forall i :: i in Cleaned(members) ==> LastNamed(members, i.symbol) == Some(i)
  {
    if members != [] {
      var front, last := members[..|members| - 1], members[|members| - 1];
      CleanedMeans(front);
      assert members == front + [last];
      var before, now := Cleaned(front), Cleaned(members);
      if last.symbol == "" {
        forall i | i in now
          ensures i.symbol != ""
        {
          assert i.symbol in Symbols(before);
        }
      } else {
        PutMeans(before, last);
        forall s
          ensures s in Symbols(now) <==> s == last.symbol || s in Symbols(before)
        {
          if s in Symbols(now) {
            var i :| i in now && i.symbol == s;
          }
          if s in Symbols(before) && s != last.symbol {
            var i :| i in before && i.symbol == s;
            assert i in now;
          }
        }
      }
      assert Listed(members) == if last.symbol == "" then Listed(front) else Listed(front) + {last.symbol};
    }
  }

  // ---------------------------------------------------------------- statements

  /** A statement that treats every row on its own: delete it, change it or keep it. */
  function Each(rows: seq<Row>, f: Row -> seq<Row>): seq<Row> {
    if rows == [] then [] else Each(rows[..|rows| - 1], f) + f(rows[|rows| - 1])
  }

  predicate IsOpen(r: Row, u: nat) {
    r.universe == u && r.to.None?
  }

  function Deleting(u: nat, syms: set<string>): Row -> seq<Row> {
    (r: Row) => if IsOpen(r, u) && r.symbol in syms then [] else [r]
  }

  function Closing(u: nat, syms: set<string>, asOf: Day): Row -> seq<Row> {
    (r: Row) => if IsOpen(r, u) && r.symbol in syms then [r.(to := Some(asOf))] else [r]
  }

  function Refreshing(u: nat, item: Item, asOf: Day): Row -> seq<Row> {
    (r: Row) => if IsOpen(r, u) && r.symbol == item.symbol then [r.(facts := item.facts, version := asOf)] else [r]
  }

  function NewRow(u: nat, item: Item, asOf: Day): Row {
    Row(u, item.market, item.symbol, asOf, None, item.facts, asOf)
  }

  /** The open rows of universe `u`, by symbol, with the day each came into force. */
  function ActiveFrom(rows: seq<Row>, u: nat): map<string, Day> {
    if rows == [] then map[]
    else
      var r, before := rows[|rows| - 1], ActiveFrom(rows[..|rows| - 1], u);
      if IsOpen(r, u) then before[r.symbol := r.from] else before
  }

  function Upserted(rows: seq<Row>, u: nat, active: set<string>, items: seq<Item>, asOf: Day): seq<Row> {
    if items == [] then rows
    else
      var before := Upserted(rows, u, active, items[..|items| - 1], asOf);
      var item := items[|items| - 1];
      if item.symbol in active then Each(before, Refreshing(u, item, asOf)) else before + [NewRow(u, item, asOf)]
  }

  function SameDay(active: map<string, Day>, items: seq<Item>, asOf: Day): set<string> {
    set s | s in active && s !in Symbols(items) && active[s] >= asOf
  }

  function Historical(active: map<string, Day>, items: seq<Item>, asOf: Day): set<string> {
    set s | s in active && s !in Symbols(items) && active[s] < asOf
  }

  function Pruned(rows: seq<Row>, u: nat, items: seq<Item>, asOf: Day): seq<Row> {
    var active := ActiveFrom(rows, u);
    Each(Each(rows, Deleting(u, SameDay(active, items, asOf))), Closing(u, Historical(active, items, asOf), asOf))
  }

  function After(rows: seq<Row>, u: nat, items: seq<Item>, asOf: Day): seq<Row> {
    Upserted(Pruned(rows, u, items, asOf), u, ActiveFrom(rows, u).Keys, items, asOf)
  }

  // ---------------------------------------------------------------- constraints of the table

  /** A row already has the market, the symbol and the first day of the row to insert. */
  predicate Taken(rows: seq<Row>, u: nat, item: Item, asOf: Day) {
    exists r :: r in rows && r.universe == u && r.market == item.market && r.symbol == item.symbol && r.from == asOf
  }

  /** Closing the symbols would leave a row that ends no later than it starts. */
  predicate Empties(rows: seq<Row>, u: nat, syms: set<string>, asOf: Day) {
    exists r :: r in rows && IsOpen(r, u) && r.symbol in syms && r.from >= asOf
  }

  /** The database accepts every statement of the snapshot. */
  predicate Accepted(rows: seq<Row>, u: nat, items: seq<Item>, asOf: Day) {
    var active := ActiveFrom(rows, u);
    && !Empties(rows, u, Historical(active, items, asOf), asOf)
    && forall i :: i in items && i.symbol !in active ==> !Taken(rows, u, i, asOf)
  }

  /** A snapshot that breaks a constraint is rolled back as a whole. */
  function Snapshotted(rows: seq<Row>, u: nat, items: seq<Item>, asOf: Day): seq<Row> {
    if Accepted(rows, u, items, asOf) then After(rows, u, items, asOf) else rows
  }

  lemma {:induction false} UpsertedOneMore(rows: seq<Row>, u: nat, active: set<string>, items: seq<Item>, i: nat,
          asOf: Day)
    requires i < |items|
    ensures Upserted(rows, u, active, items[..i + 1], asOf) ==
              var before := Upserted(rows, u, active, items[..i], asOf);
              if items[i].symbol in active then Each(before, Refreshing(u, items[i], asOf))
              else before + [NewRow(u, items[i], asOf)]
  {
    assert items[..i + 1][..i] == items[..i];
  }

  lemma {:induction false} EachKeeps(rows: seq<Row>, f: Row -> seq<Row>)
    requires forall r :: r in rows ==> f(r) == [r]
    ensures Each(rows, f) == rows
  {
    if rows != [] {
      EachKeeps(rows[..|rows| - 1], f);
    }
  }

  class UniverseTable {
    var systemIds: map<string, nat>
    var rows: seq<Row>
    var snapshotOf: map<nat, Day>

    /** `apply_snapshot`, in the source's order of statements. */
    method ApplySnapshot(code: string, members: seq<Item>, asOf: Day, dryRun: bool) returns (r: Outcome)
      modifies this`rows, this`snapshotOf
      ensures dryRun ==> r == DryRun(|Cleaned(members)|) && rows == old(rows) && snapshotOf == old(snapshotOf)
      ensures !dryRun && (code !in systemIds || systemIds[code] == 0) ==>
                r == Unknown && rows == old(rows) && snapshotOf == old(snapshotOf)
      ensures !dryRun && code in systemIds && systemIds[code] != 0 ==>
                var u, active, now := systemIds[code], ActiveFrom(old(rows), systemIds[code]).Keys, Listed(members);
                && rows == Snapshotted(old(rows), u, Cleaned(members), asOf)
                && if Accepted(old(rows), u, Cleaned(members), asOf) then
                     snapshotOf == old(snapshotOf)[u := asOf]
                     && r == Applied(|Cleaned(members)|, |now - active|, |active - now|)
                   else snapshotOf == old(snapshotOf) && r == ConstraintViolation
    {
      var clean := Clean(members);
      CleanedMeans(members);
      hide Cleaned, Listed, Symbols, ActiveFrom, Pruned, Each, Historical, Empties, Taken;
      if dryRun {
        return DryRun(|clean|);
      }
      if code !in systemIds || systemIds[code] == 0 {
        return Unknown;
      }
      var u, before := systemIds[code], rows;
      var active := ActiveRows(u);
      var pruned, removed := Prune(u, active, clean, asOf);
      if !pruned {
        return ConstraintViolation;
      }
      var upserted := Upsert(u, active, clean, asOf, before);
      if !upserted {
        rows := before;
        return ConstraintViolation;
      }
      snapshotOf := snapshotOf[u := asOf];
      r := Applied(|clean|, |Symbols(clean) - active.Keys|, |removed|);
    }

    /** The loop over the snapshot's members; `before` are the rows before the pruning. */
    method Upsert(u: nat, active: map<string, Day>, clean: seq<Item>, asOf: Day, ghost before: seq<Row>)
      returns (ok: bool)
      requires rows == Pruned(before, u, clean, asOf) && active == ActiveFrom(before, u) && Distinct(clean)
      modifies this`rows
      ensures ok <==> forall i :: i in clean && i.symbol !in active ==> !Taken(before, u, i, asOf)
      ensures ok ==> rows == After(before, u, clean, asOf)
    {
      hide Symbols, ActiveFrom, Pruned, Each, Refreshing, NewRow, Taken;
      ghost var pruned := rows;
      assert Upserted(pruned, u, active.Keys, [], asOf) == pruned && clean[..0] == [];
      hide Upserted;
      for i := 0 to |clean|
        invariant rows == Upserted(pruned, u, active.Keys, clean[..i], asOf)
        invariant forall k :: 0 <= k < i && clean[k].symbol !in active ==> !Taken(before, u, clean[k], asOf)
      {
        UpsertedOneMore(pruned, u, active.Keys, clean, i, asOf);
        if clean[i].symbol in active {
          rows := Each(rows, Refreshing(u, clean[i], asOf));
        } else {
          TakenAtTurn(before, u, clean, i, asOf);
          if Taken(rows, u, clean[i], asOf) {
            return false;
          }
          rows := rows + [NewRow(u, clean[i], asOf)];
        }
      }
      assert clean[..|clean|] == clean;
      ok := true;
    }

    /** The query for the open rows, and the two look-ups built from it. */
    method ActiveRows(u: nat) returns (active: map<string, Day>)
      ensures active == ActiveFrom(rows, u)
    {
      active := map[];
      for i := 0 to |rows|
        invariant active == ActiveFrom(rows[..i], u)
      {
        assert rows[..i + 1][..i] == rows[..i];
        if IsOpen(rows[i], u) {
          active := active[rows[i].symbol := rows[i].from];
        }
      }
      assert rows[..|rows|] == rows;
    }

    /** Take the symbols that are missing from the snapshot out of force. */
    method Prune(u: nat, active: map<string, Day>, clean: seq<Item>, asOf: Day)
      returns (ok: bool, removed: set<string>)
      requires active == ActiveFrom(rows, u)
      modifies this`rows
      ensures ok <==> !Empties(old(rows), u, Historical(active, clean, asOf), asOf)
      ensures rows == if ok then Pruned(old(rows), u, clean, asOf) else old(rows)
      ensures removed == active.Keys - Symbols(clean)
    {
      ok, removed := true, active.Keys - Symbols(clean);
      var sameDay := set s | s in removed && active[s] >= asOf;
      var historical := removed - sameDay;
      SplitRemoved(active, clean, asOf, sameDay, historical);
      if removed != {} {
        var before := rows;
        if sameDay != {} {
          rows := Each(rows, Deleting(u, sameDay));
        } else {
          EachKeeps(rows, Deleting(u, sameDay));
        }
        EmptiesAtTurn(before, u, sameDay, historical, asOf);
        if historical != {} {
          if Empties(rows, u, historical, asOf) {
            rows := before;
            return false, removed;
          }
          rows := Each(rows, Closing(u, historical, asOf));
        } else {
          EachKeeps(rows, Closing(u, historical, asOf));
        }
      } else {
        EachKeeps(rows, Deleting(u, sameDay));
        EachKeeps(rows, Closing(u, historical, asOf));
      }
    }

    lemma {:induction false} SplitRemoved(active: map<string, Day>, clean: seq<Item>, asOf: Day,
            sameDay: set<string>, past: set<string>)
      requires var removed := active.Keys - Symbols(clean);
        sameDay == (set s | s in removed && active[s] >= asOf) && past == removed - sameDay
      ensures sameDay == SameDay(active, clean, asOf) && past == Historical(active, clean, asOf)
    {
    }
  }

  /** The dictionary comprehension over the members that carry a symbol. */
  method Clean(members: seq<Item>) returns (clean: seq<Item>)
    ensures clean == Cleaned(members)
  {
    clean := [];
    for i := 0 to |members|
      invariant clean == Cleaned(members[..i])
    {
      assert members[..i + 1][..i] == members[..i];
      if members[i].symbol != "" {
        clean := Put(clean, members[i]);
      }
    }
    assert members[..|members|] == members;
  }

  // ---------------------------------------------------------------- one symbol at a time

  function Keeping(u: nat, s: string): Row -> seq<Row> {
    (r: Row) => if r.universe == u && r.symbol == s then [r] else []
  }

  /** The rows of one symbol of one universe, oldest first. */
  function History(rows: seq<Row>, u: nat, s: string): seq<Row> {
    Each(rows, Keeping(u, s))
  }

  /** The statement leaves the row's universe and symbol alone. */
  ghost predicate Local(f: Row -> seq<Row>) {
    forall r, x :: x in f(r) ==> x.universe == r.universe && x.symbol == r.symbol
  }

  lemma {:induction false} EachConcat(a: seq<Row>, b: seq<Row>, f: Row -> seq<Row>)
    ensures Each(a + b, f) == Each(a, f) + Each(b, f)
  {
    if b == [] {
      assert a + b == a;
    } else {
      assert (a + b)[..|a + b| - 1] == a + b[..|b| - 1];
      EachConcat(a, b[..|b| - 1], f);
    }
  }

  lemma {:induction false} EachNone(rows: seq<Row>, f: Row -> seq<Row>)
    requires forall r :: r in rows ==> f(r) == []
    ensures Each(rows, f) == []
  {
    if rows != [] {
      EachNone(rows[..|rows| - 1], f);
    }
  }

  /** A statement acts on every symbol's history separately. */
  lemma {:induction false} HistoryOfEach(rows: seq<Row>, f: Row -> seq<Row>, u: nat, s: string)
    requires Local(f)
    ensures History(Each(rows, f), u, s) == Each(History(rows, u, s), f)
  {
    if rows != [] {
      var front, r := rows[..|rows| - 1], rows[|rows| - 1];
      HistoryOfEach(front, f, u, s);
      EachConcat(Each(front, f), f(r), Keeping(u, s));
      if r.universe == u && r.symbol == s {
        EachKeeps(f(r), Keeping(u, s));
        assert History(rows, u, s) == History(front, u, s) + [r];
      } else {
        EachNone(f(r), Keeping(u, s));
        assert History(rows, u, s) == History(front, u, s);
      }
    }
  }

  lemma {:induction false} HistoryRows(rows: seq<Row>, u: nat, s: string)
    ensures forall r :: r in History(rows, u, s) <==> r in rows && r.universe == u && r.symbol == s
  {
    if rows != [] {
      HistoryRows(rows[..|rows| - 1], u, s);
      assert rows == rows[..|rows| - 1] + [rows[|rows| - 1]];
    }
  }

  /** When the last open row of a history came into force. */
  function OpenFrom(h: seq<Row>): Option<Day> {
    if h == [] then None
    else if h[|h| - 1].to.None? then Some(h[|h| - 1].from)
    else OpenFrom(h[..|h| - 1])
  }

  lemma {:induction false} ActiveByHistory(rows: seq<Row>, u: nat, s: string)
    ensures OpenFrom(History(rows, u, s)) == if s in ActiveFrom(rows, u) then Some(ActiveFrom(rows, u)[s]) else None
  {
    if rows != [] {
      var front, r := rows[..|rows| - 1], rows[|rows| - 1];
      ActiveByHistory(front, u, s);
      if r.universe == u && r.symbol == s {
        assert History(rows, u, s) == History(front, u, s) + [r];
      } else {
        assert History(rows, u, s) == History(front, u, s);
      }
    }
  }

  /** What one snapshot does to one symbol. */
  function SymbolStep(h: seq<Row>, u: nat, s: string, item: Option<Item>, asOf: Day): seq<Row> {
    match (item, OpenFrom(h))
    case (Some(i), Some(_)) => Each(h, Refreshing(u, i, asOf))
    case (Some(i), None) => h + [NewRow(u, i, asOf)]
    case (None, None) => h
    case (None, Some(from)) =>
      if from >= asOf then Each(h, Deleting(u, {s})) else Each(h, Closing(u, {s}, asOf))
  }

  function Find(items: seq<Item>, s: string): Option<Item> {
    LastNamed(items, s)
  }

  lemma {:induction false} FindMeans(items: seq<Item>, s: string)
    ensures Find(items, s).Some? <==> s in Symbols(items)
    ensures Find(items, s).Some? ==> Find(items, s).value in items && Find(items, s).value.symbol == s
  {
    if items != [] && items[|items| - 1].symbol != s {
      FindMeans(items[..|items| - 1], s);
      assert items == items[..|items| - 1] + [items[|items| - 1]];
    }
  }

  /** Two statements that treat the rows of a history alike give the same result. */
  lemma {:induction false} EachAgrees(h: seq<Row>, f: Row -> seq<Row>, g: Row -> seq<Row>)
    requires forall r :: r in h ==> f(r) == g(r)
    ensures Each(h, f) == Each(h, g)
  {
    if h != [] {
      EachAgrees(h[..|h| - 1], f, g);
    }
  }

  lemma {:induction false} UpsertedHistory(rows: seq<Row>, u: nat, active: set<string>, items: seq<Item>, asOf: Day,
                                           v: nat, s: string)
    requires Distinct(items)
    ensures var h := History(rows, v, s);
      History(Upserted(rows, u, active, items, asOf), v, s) ==
        if v != u then h
        else match Find(items, s)
          case None => h
          case Some(i) => if s in active then Each(h, Refreshing(u, i, asOf)) else h + [NewRow(u, i, asOf)]
  {
    if items != [] {
      var front, item := items[..|items| - 1], items[|items| - 1];
      UpsertedHistory(rows, u, active, front, asOf, v, s);
      assert Find(items, s) == if item.symbol == s then Some(item) else Find(front, s);
      if item.symbol == s {
        NotFound(front, item, s);
      }
      hide Find, Each, History, Refreshing, NewRow, Distinct;
      UpsertHistory(Upserted(rows, u, active, front, asOf), u, active, item, asOf, v, s);
    }
  }

  /** One upsert changes the history of its symbol only. */
  lemma {:induction false} UpsertHistory(before: seq<Row>, u: nat, active: set<string>, item: Item, asOf: Day, v: nat,
          s: string)
    ensures var h := History(before, v, s);
      History(if item.symbol in active then Each(before, Refreshing(u, item, asOf)) else before + [NewRow(u, item, asOf)], v, s)
      == if v != u || item.symbol != s then h
         else if item.symbol in active then Each(h, Refreshing(u, item, asOf)) else h + [NewRow(u, item, asOf)]
  {
    if item.symbol in active {
      HistoryOfEach(before, Refreshing(u, item, asOf), v, s);
      if v != u || item.symbol != s {
        HistoryRows(before, v, s);
        EachKeeps(History(before, v, s), Refreshing(u, item, asOf));
      }
    } else {
      HistoryOfNew(before, NewRow(u, item, asOf), v, s);
    }
  }

  lemma {:induction false} NotFound(front: seq<Item>, item: Item, s: string)
    requires Distinct(front + [item]) && item.symbol == s
    ensures Find(front, s) == None
  {
    FindMeans(front, s);
    var all := front + [item];
    assert forall k :: 0 <= k < |front| ==> front[k] == all[k] && all[k].symbol != all[|front|].symbol;
  }

  lemma {:induction false} HistoryOfNew(rows: seq<Row>, r: Row, v: nat, s: string)
    ensures History(rows + [r], v, s) ==
              if r.universe == v && r.symbol == s then History(rows, v, s) + [r] else History(rows, v, s)
  {
    assert (rows + [r])[..|rows|] == rows;
  }

  /** Deleting and closing with sets that hold `s` or not is what one symbol sees. */
  lemma {:induction false} PrunedOne(h: seq<Row>, u: nat, s: string, same: set<string>, past: set<string>, asOf: Day)
    requires same !! past && forall r :: r in h ==> r.universe == u && r.symbol == s
    ensures Each(Each(h, Deleting(u, same)), Closing(u, past, asOf)) ==
              if s in same then Each(h, Deleting(u, {s}))
              else if s in past then Each(h, Closing(u, {s}, asOf))
              else h
  {
    if s in same {
      EachAgrees(h, Deleting(u, same), Deleting(u, {s}));
      LeftOver(h, u, same);
      EachKeeps(Each(h, Deleting(u, same)), Closing(u, past, asOf));
    } else {
      EachKeeps(h, Deleting(u, same));
      if s in past {
        EachAgrees(h, Closing(u, past, asOf), Closing(u, {s}, asOf));
      } else {
        EachKeeps(h, Closing(u, past, asOf));
      }
    }
  }

  lemma {:induction false} OtherUniverse(h: seq<Row>, u: nat, v: nat, same: set<string>, past: set<string>, asOf: Day)
    requires u != v && forall r :: r in h ==> r.universe == v
    ensures Each(Each(h, Deleting(u, same)), Closing(u, past, asOf)) == h
  {
    EachKeeps(h, Deleting(u, same));
    EachKeeps(h, Closing(u, past, asOf));
  }

  lemma {:induction false} PruneCommutes(rows: seq<Row>, u: nat, same: set<string>, past: set<string>, asOf: Day,
          v: nat, s: string)
    ensures History(Each(Each(rows, Deleting(u, same)), Closing(u, past, asOf)), v, s)
         == Each(Each(History(rows, v, s), Deleting(u, same)), Closing(u, past, asOf))
  {
    HistoryOfEach(rows, Deleting(u, same), v, s);
    HistoryOfEach(Each(rows, Deleting(u, same)), Closing(u, past, asOf), v, s);
  }

  lemma {:induction false} PrunedHistory(rows: seq<Row>, u: nat, items: seq<Item>, asOf: Day, v: nat, s: string)
    ensures var h := History(rows, v, s);
      History(Pruned(rows, u, items, asOf), v, s) ==
        if v != u || s in Symbols(items) then h else SymbolStep(h, u, s, None, asOf)
  {
    var h, active := History(rows, v, s), ActiveFrom(rows, u);
    var same, past := SameDay(active, items, asOf), Historical(active, items, asOf);
    PruneCommutes(rows, u, same, past, asOf, v, s);
    HistoryRows(rows, v, s);
    if v != u {
      hide Each, History, Deleting, Closing, SymbolStep, ActiveFrom, Symbols, SameDay, Historical;
      OtherUniverse(h, u, v, same, past, asOf);
    } else {
      ActiveByHistory(rows, u, s);
      hide Each, History, Deleting, Closing, OpenFrom, ActiveFrom, Symbols;
      PrunedOne(h, u, s, same, past, asOf);
    }
  }

  /** After the delete, no open row of a deleted symbol is left. */
  lemma {:induction false} LeftOver(h: seq<Row>, u: nat, syms: set<string>)
    ensures forall r :: r in Each(h, Deleting(u, syms)) ==> r in h && !(IsOpen(r, u) && r.symbol in syms)
  {
    if h != [] {
      LeftOver(h[..|h| - 1], u, syms);
    }
  }

  /** Deleting other symbols does not decide whether a symbol can be closed. */
  lemma {:induction false} EmptiesAtTurn(rows: seq<Row>, u: nat, same: set<string>, past: set<string>, asOf: Day)
    requires same !! past
    ensures Empties(Each(rows, Deleting(u, same)), u, past, asOf) <==> Empties(rows, u, past, asOf)
  {
    var f := Deleting(u, same);
    hide Each;
    if Empties(rows, u, past, asOf) {
      var r :| r in rows && IsOpen(r, u) && r.symbol in past && r.from >= asOf;
      EachHas(rows, f, r);
    }
    if Empties(Each(rows, f), u, past, asOf) {
      var x :| x in Each(rows, f) && IsOpen(x, u) && x.symbol in past && x.from >= asOf;
      var r := EachRows(rows, f, x);
    }
  }

  lemma {:induction false} TakenByHistory(rows: seq<Row>, u: nat, item: Item, asOf: Day)
    ensures Taken(rows, u, item, asOf) <==>
              exists r :: r in History(rows, u, item.symbol) && r.market == item.market && r.from == asOf
  {
    HistoryRows(rows, u, item.symbol);
  }

  /** When an insert's turn comes, its symbol's rows are those from before the snapshot. */
  lemma {:induction false} TakenAtTurn(rows: seq<Row>, u: nat, items: seq<Item>, i: nat, asOf: Day)
    requires Distinct(items) && i < |items|
    ensures var now := Upserted(Pruned(rows, u, items, asOf), u, ActiveFrom(rows, u).Keys, items[..i], asOf);
      Taken(now, u, items[i], asOf) <==> Taken(rows, u, items[i], asOf)
  {
    var s, pruned, active := items[i].symbol, Pruned(rows, u, items, asOf), ActiveFrom(rows, u).Keys;
    var now := Upserted(pruned, u, active, items[..i], asOf);
    assert Distinct(items[..i] + [items[i]]);
    NotFound(items[..i], items[i], s);
    assert s in Symbols(items);
    PrunedHistory(rows, u, items, asOf, u, s);
    UpsertedHistory(pruned, u, active, items[..i], asOf, u, s);
    hide Pruned, Upserted, History, Symbols, ActiveFrom, Find, Taken, SymbolStep;
    assert History(now, u, s) == History(rows, u, s);
    TakenByHistory(now, u, items[i], asOf);
    TakenByHistory(rows, u, items[i], asOf);
  }

  /** A snapshot of `u` steps every symbol of `u` by itself and leaves other universes alone. */
  lemma {:induction false} AfterHistory(rows: seq<Row>, u: nat, items: seq<Item>, asOf: Day, v: nat, s: string)
    requires Distinct(items)
    ensures History(After(rows, u, items, asOf), v, s) ==
              if v != u then History(rows, v, s) else SymbolStep(History(rows, u, s), u, s, Find(items, s), asOf)
  {
    FindMeans(items, s);
    PrunedHistory(rows, u, items, asOf, v, s);
    UpsertedHistory(Pruned(rows, u, items, asOf), u, ActiveFrom(rows, u).Keys, items, asOf, v, s);
    ActiveByHistory(rows, u, s);
  }

  // ---------------------------------------------------------------- tidy histories

  predicate InForce(r: Row, d: Day) {
    r.from <= d && (r.to.None? || d < r.to.value)
  }

  ghost predicate Covers(h: seq<Row>, d: Day) {
    exists r :: r in h && InForce(r, d)
  }

  /** Closed rows are non-empty, rows do not overlap and only the last may be open. */
  ghost predicate Tidy(h: seq<Row>) {
    && (forall i :: 0 <= i < |h| && h[i].to.Some? ==> h[i].from < h[i].to.value)
    && (forall i, j :: 0 <= i < j < |h| ==> h[i].to.Some? && h[i].to.value <= h[j].from)
  }

  /** No row starts or ends after day `asOf`. */
  ghost predicate NothingAfter(h: seq<Row>, asOf: Day) {
    forall r :: r in h ==> r.from <= asOf && (r.to.Some? ==> r.to.value <= asOf)
  }

  ghost predicate OneSymbol(h: seq<Row>, u: nat, s: string) {
    forall r :: r in h ==> r.universe == u && r.symbol == s
  }

  lemma {:induction false} OpenIsLast(h: seq<Row>)
    requires Tidy(h)
    ensures OpenFrom(h) == if h != [] && h[|h| - 1].to.None? then Some(h[|h| - 1].from) else None
  {
    if h != [] && h[|h| - 1].to.Some? {
      OpenIsLast(h[..|h| - 1]);
    }
  }

  /** What a snapshot does to a tidy history: it changes, drops or adds at most the last row. */
  function TidyStep(h: seq<Row>, u: nat, item: Option<Item>, asOf: Day): seq<Row> {
    if h != [] && h[|h| - 1].to.None? then
      var front, r := h[..|h| - 1], h[|h| - 1];
      match item
      case Some(i) => front + [r.(facts := i.facts, version := asOf)]
      case None => if r.from >= asOf then front else front + [r.(to := Some(asOf))]
    else if item.Some? then h + [NewRow(u, item.value, asOf)]
    else h
  }

  lemma {:induction false} EachLast(h: seq<Row>, f: Row -> seq<Row>)
    requires h != [] && forall i :: 0 <= i < |h| - 1 ==> f(h[i]) == [h[i]]
    ensures Each(h, f) == h[..|h| - 1] + f(h[|h| - 1])
  {
    EachKeeps(h[..|h| - 1], f);
  }

  lemma {:induction false} StepShape(h: seq<Row>, u: nat, s: string, item: Option<Item>, asOf: Day)
    requires Tidy(h) && OneSymbol(h, u, s) && (item.Some? ==> item.value.symbol == s)
    ensures SymbolStep(h, u, s, item, asOf) == TidyStep(h, u, item, asOf)
  {
    OpenIsLast(h);
    if h != [] && h[|h| - 1].to.None? {
      assert h[|h| - 1] in h;
      if item.Some? {
        EachLast(h, Refreshing(u, item.value, asOf));
      } else {
        EachLast(h, Deleting(u, {s}));
        EachLast(h, Closing(u, {s}, asOf));
      }
      hide Each, Tidy, OneSymbol, OpenFrom;
    }
  }

  /** What the step does to the days a history covers, whatever the date. */
  ghost predicate StepIsRight(h: seq<Row>, u: nat, s: string, item: Option<Item>, asOf: Day) {
    forall d :: Covers(SymbolStep(h, u, s, item, asOf), d) <==> if d < asOf then Covers(h, d) else item.Some?
  }

  lemma {:induction false} CoversOf(front: seq<Row>, r: Row, d: Day)
    ensures Covers(front + [r], d) <==> Covers(front, d) || InForce(r, d)
  {
    if Covers(front, d) {
      var x :| x in front && InForce(x, d);
      assert x in front + [r];
    }
    assert r in front + [r];
  }

  ghost predicate EndedBy(h: seq<Row>, day: Day) {
    forall r :: r in h ==> r.to.Some? && r.to.value <= day
  }

  lemma {:induction false} TidySnoc(front: seq<Row>, r: Row)
    ensures Tidy(front + [r]) <==> Tidy(front) && EndedBy(front, r.from) && (r.to.Some? ==> r.from < r.to.value)
  {
    var h := front + [r];
    if Tidy(h) {
      forall x | x in front
        ensures x.to.Some? && x.to.value <= r.from
      {
        var i: nat :| i < |front| && front[i] == x;
        assert h[i] == x && h[|front|] == r;
      }
      assert forall i :: 0 <= i < |front| ==> front[i] == h[i];
    }
  }

  lemma {:induction false} NothingAfterSnoc(front: seq<Row>, r: Row, day: Day)
    ensures NothingAfter(front + [r], day) <==> NothingAfter(front, day) && NothingAfter([r], day)
  {
  }

  /** A tidy history without an open row has ended. */
  lemma {:induction false} AllEnded(h: seq<Row>, asOf: Day)
    requires Tidy(h) && NothingAfter(h, asOf) && (h != [] ==> h[|h| - 1].to.Some?)
    ensures EndedBy(h, asOf)
  {
    assert forall i :: 0 <= i < |h| ==> h[i].to.Some?;
  }

  lemma {:induction false} TidyStepTidy(h: seq<Row>, u: nat, item: Option<Item>, asOf: Day)
    requires Tidy(h) && NothingAfter(h, asOf)
    ensures Tidy(TidyStep(h, u, item, asOf)) && NothingAfter(TidyStep(h, u, item, asOf), asOf)
  {
    if h != [] && h[|h| - 1].to.None? {
      var front, r := h[..|h| - 1], h[|h| - 1];
      assert h == front + [r];
      hide Tidy, EndedBy;
      TidySnoc(front, r);
      NothingAfterSnoc(front, r, asOf);
      assert NothingAfter([r], asOf) ==> r in [r] && r.from <= asOf;
      var x := if item.Some? then r.(facts := item.value.facts, version := asOf) else r.(to := Some(asOf));
      TidySnoc(front, x);
      NothingAfterSnoc(front, x, asOf);
      assert NothingAfter([x], asOf);
      hide NothingAfter;
    } else if item.Some? {
      AllEnded(h, asOf);
      TidySnoc(h, NewRow(u, item.value, asOf));
      NothingAfterSnoc(h, NewRow(u, item.value, asOf), asOf);
      assert NothingAfter([NewRow(u, item.value, asOf)], asOf);
      hide Tidy, NothingAfter, EndedBy;
    }
  }

  /** A snapshot not older than any date in a tidy history leaves it tidy and gets its days right. */
  lemma {:induction false} StepKeepsTidy(h: seq<Row>, u: nat, s: string, item: Option<Item>, asOf: Day)
    requires Tidy(h) && OneSymbol(h, u, s) && NothingAfter(h, asOf) && (item.Some? ==> item.value.symbol == s)
    ensures var after := SymbolStep(h, u, s, item, asOf); Tidy(after) && NothingAfter(after, asOf)
  {
    StepShape(h, u, s, item, asOf);
    hide *;
    TidyStepTidy(h, u, item, asOf);
  }

  lemma {:induction false} TidyStepCovers(h: seq<Row>, u: nat, item: Option<Item>, asOf: Day, d: Day)
    requires Tidy(h) && NothingAfter(h, asOf) && forall r :: r in h ==> r.universe == u
    ensures Covers(TidyStep(h, u, item, asOf), d) <==> if d < asOf then Covers(h, d) else item.Some?
  {
    if h != [] && h[|h| - 1].to.None? {
      var front, r := h[..|h| - 1], h[|h| - 1];
      assert h == front + [r] && r in h;
      TidySnoc(front, r);
      ClosedBy(front, r.from, d);
      CoversOf(front, r, d);
      CoversTidyStep(front, r, item, asOf, d);
      hide Covers, TidyStep, Tidy, EndedBy;
    } else {
      AllEnded(h, asOf);
      ClosedBy(h, asOf, d);
      if item.Some? {
        CoversOf(h, NewRow(u, item.value, asOf), d);
        hide Covers, Tidy, EndedBy;
      }
    }
  }

  lemma {:induction false} StepCovers(h: seq<Row>, u: nat, s: string, item: Option<Item>, asOf: Day)
    requires Tidy(h) && OneSymbol(h, u, s) && NothingAfter(h, asOf) && (item.Some? ==> item.value.symbol == s)
    ensures StepIsRight(h, u, s, item, asOf)
  {
    StepShape(h, u, s, item, asOf);
    assert forall r :: r in h ==> r.universe == u;
    hide Covers, TidyStep, SymbolStep, Tidy, NothingAfter, OneSymbol;
    forall d
      ensures Covers(TidyStep(h, u, item, asOf), d) <==> if d < asOf then Covers(h, d) else item.Some?
    {
      TidyStepCovers(h, u, item, asOf, d);
    }
  }

  /** Rows that have ended by `asOf` cover no day from then on. */
  lemma {:induction false} ClosedBy(h: seq<Row>, asOf: Day, d: Day)
    requires EndedBy(h, asOf)
    ensures d >= asOf ==> !Covers(h, d)
  {
  }

  lemma {:induction false} CoversTidyStep(front: seq<Row>, r: Row, item: Option<Item>, asOf: Day, d: Day)
    requires r.to.None? && r.from <= asOf
    ensures Covers(TidyStep(front + [r], r.universe, item, asOf), d) <==>
              Covers(front, d) || (r.from <= d && (item.Some? || d < asOf))
  {
    var h := front + [r];
    assert h[..|h| - 1] == front;
    hide Covers;
    if item.Some? {
      CoversOf(front, r.(facts := item.value.facts, version := asOf), d);
    } else if r.from < asOf {
      CoversOf(front, r.(to := Some(asOf)), d);
    }
  }

  /**
   The step gets the days right for a snapshot with the symbol and for one without it exactly
   when no row of the symbol starts or ends after the snapshot's date.
   */
  lemma {:induction false} DateRuleExact(h: seq<Row>, u: nat, s: string, item: Item, asOf: Day)
    requires Tidy(h) && OneSymbol(h, u, s) && item.symbol == s
    ensures StepIsRight(h, u, s, None, asOf) && StepIsRight(h, u, s, Some(item), asOf) <==> NothingAfter(h, asOf)
  {
    if NothingAfter(h, asOf) {
      StepCovers(h, u, s, None, asOf);
      StepCovers(h, u, s, Some(item), asOf);
    } else {
      var r :| r in h && !(r.from <= asOf && (r.to.Some? ==> r.to.value <= asOf));
      var k: nat :| k < |h| && h[k] == r;
      StepShape(h, u, s, None, asOf);
      StepShape(h, u, s, Some(item), asOf);
      if r.to.Some? {
        StaysCovered(h, u, s, item, asOf, k);
      } else {
        OpensLate(h, u, s, item, asOf);
      }
    }
  }

  /** A row that ends after the date keeps a day covered that a snapshot without the symbol should clear. */
  lemma {:induction false} StaysCovered(h: seq<Row>, u: nat, s: string, item: Item, asOf: Day, k: nat)
    requires Tidy(h) && OneSymbol(h, u, s) && k < |h| && h[k].to.Some? && h[k].to.value > asOf
    ensures !StepIsRight(h, u, s, None, asOf)
  {
    StepShape(h, u, s, None, asOf);
    var d, after := h[k].to.value - 1, SymbolStep(h, u, s, None, asOf);
    assert after[k] == h[k] && InForce(h[k], d);
    assert Covers(after, d);
  }

  /** With an open row from a later day, one of the two snapshots gets a day wrong. */
  lemma {:induction false} OpensLate(h: seq<Row>, u: nat, s: string, item: Item, asOf: Day)
    requires Tidy(h) && OneSymbol(h, u, s) && item.symbol == s
    requires h != [] && h[|h| - 1].to.None? && h[|h| - 1].from > asOf
    ensures !(StepIsRight(h, u, s, None, asOf) && StepIsRight(h, u, s, Some(item), asOf))
  {
    StepShape(h, u, s, None, asOf);
    StepShape(h, u, s, Some(item), asOf);
    var front, r := h[..|h| - 1], h[|h| - 1];
    var with, without := SymbolStep(h, u, s, Some(item), asOf), SymbolStep(h, u, s, None, asOf);
    CoversOf(front, r.(facts := item.facts, version := asOf), asOf);
    assert Covers(with, asOf) <==> Covers(without, asOf);
  }

  // ---------------------------------------------------------------- a log of snapshots

  datatype Entry = Entry(universe: nat, asOf: Day, members: seq<Item>)

  function Replay(rows: seq<Row>, log: seq<Entry>): seq<Row> {
    if log == [] then rows
    else
      var e := log[|log| - 1];
      Snapshotted(Replay(rows, log[..|log| - 1]), e.universe, Cleaned(e.members), e.asOf)
  }

  /** The point-in-time query: the symbols of `u` with a row in force on day `d`. */
  function Members(rows: seq<Row>, u: nat, d: Day): set<string> {
    set r | r in rows && r.universe == u && InForce(r, d) :: r.symbol
  }

  /** What the query should return: the last snapshot of `u` dated on or before `d` decides. */
  function LastSnapshot(rows: seq<Row>, log: seq<Entry>, u: nat, d: Day): set<string> {
    if log == [] then Members(rows, u, d)
    else
      var e := log[|log| - 1];
      if e.universe == u && e.asOf <= d then Listed(e.members)
      else LastSnapshot(rows, log[..|log| - 1], u, d)
  }

  ghost predicate TidyTable(rows: seq<Row>, u: nat) {
    forall s :: Tidy(History(rows, u, s))
  }

  ghost predicate Dated(rows: seq<Row>, u: nat, asOf: Day) {
    forall r :: r in rows && r.universe == u ==> r.from <= asOf && (r.to.Some? ==> r.to.value <= asOf)
  }

  /** The snapshots of `u` come in date order, none before a date already in the table. */
  ghost predicate InOrder(rows: seq<Row>, log: seq<Entry>, u: nat) {
    && (forall i :: 0 <= i < |log| && log[i].universe == u ==> Dated(rows, u, log[i].asOf))
    && (forall i, j :: 0 <= i < j < |log| && log[i].universe == u == log[j].universe ==> log[i].asOf <= log[j].asOf)
  }

  lemma {:induction false} MembersByHistory(rows: seq<Row>, u: nat, d: Day, s: string)
    ensures s in Members(rows, u, d) <==> Covers(History(rows, u, s), d)
  {
    HistoryRows(rows, u, s);
  }

  lemma {:induction false} DatedHistory(rows: seq<Row>, u: nat, asOf: Day, s: string)
    requires Dated(rows, u, asOf)
    ensures NothingAfter(History(rows, u, s), asOf) && OneSymbol(History(rows, u, s), u, s)
  {
    HistoryRows(rows, u, s);
  }

  lemma {:induction false} AfterStep(rows: seq<Row>, u: nat, members: seq<Item>, asOf: Day)
    requires TidyTable(rows, u) && Dated(rows, u, asOf)
    ensures var after := After(rows, u, Cleaned(members), asOf);
      && TidyTable(after, u) && Dated(after, u, asOf)
      && (forall d :: Members(after, u, d) == if d < asOf then Members(rows, u, d) else Listed(members))
  {
    var items, after := Cleaned(members), After(rows, u, Cleaned(members), asOf);
    CleanedMeans(members);
    hide Cleaned, Listed, After, Symbols;
    forall s
      ensures Tidy(History(after, u, s)) && NothingAfter(History(after, u, s), asOf)
      ensures forall d :: Covers(History(after, u, s), d) <==>
                if d < asOf then Covers(History(rows, u, s), d) else s in Symbols(items)
    {
      SnapshotStepOne(rows, u, items, asOf, s);
    }
    forall r | r in after && r.universe == u
      ensures r.from <= asOf && (r.to.Some? ==> r.to.value <= asOf)
    {
      HistoryRows(after, u, r.symbol);
      assert r in History(after, u, r.symbol);
    }
    forall d
      ensures Members(after, u, d) == if d < asOf then Members(rows, u, d) else Listed(members)
    {
      forall s
        ensures s in Members(after, u, d) <==> if d < asOf then s in Members(rows, u, d) else s in Listed(members)
      {
        MembersByHistory(after, u, d, s);
        MembersByHistory(rows, u, d, s);
      }
    }
  }

  /** The last open row of a tidy history is its only one. */
  lemma {:induction false} OpenRowIsActive(rows: seq<Row>, u: nat, r: Row)
    requires TidyTable(rows, u) && r in rows && IsOpen(r, u)
    ensures r.symbol in ActiveFrom(rows, u) && ActiveFrom(rows, u)[r.symbol] == r.from
  {
    var h := History(rows, u, r.symbol);
    HistoryRows(rows, u, r.symbol);
    ActiveByHistory(rows, u, r.symbol);
    assert Tidy(h) && r in h;
    OpenIsLast(h);
    hide History, ActiveFrom, OpenFrom;
    var k: nat :| k < |h| && h[k] == r;
  }

  /** On a tidy table no close is refused. */
  lemma {:induction false} ClosesAccepted(rows: seq<Row>, u: nat, items: seq<Item>, asOf: Day)
    requires TidyTable(rows, u)
    ensures !Empties(rows, u, Historical(ActiveFrom(rows, u), items, asOf), asOf)
  {
    forall r | r in rows && IsOpen(r, u)
      ensures r.symbol in ActiveFrom(rows, u) && ActiveFrom(rows, u)[r.symbol] == r.from
    {
      OpenRowIsActive(rows, u, r);
    }
    hide TidyTable, ActiveFrom;
  }

  lemma {:induction false} NotTaken(rows: seq<Row>, u: nat, i: Item, asOf: Day)
    requires TidyTable(rows, u) && Dated(rows, u, asOf) && i.symbol !in ActiveFrom(rows, u)
    ensures !Taken(rows, u, i, asOf)
  {
    var h := History(rows, u, i.symbol);
    assert Tidy(h);
    DatedHistory(rows, u, asOf, i.symbol);
    ActiveByHistory(rows, u, i.symbol);
    OpenIsLast(h);
    AllEnded(h, asOf);
    TakenByHistory(rows, u, i, asOf);
    hide History, ActiveFrom, OpenFrom, Taken, TidyTable, Dated;
    assert forall k :: 0 <= k < |h| ==> h[k] in h && h[k].from < h[k].to.value;
  }

  /**
   On a tidy table a snapshot is refused exactly when it lists a symbol that is not active and
   has a row, of the same market, that started on the snapshot's date and has ended since.
   */
  lemma {:induction false} RefusedExactly(rows: seq<Row>, u: nat, members: seq<Item>, asOf: Day)
    requires TidyTable(rows, u)
    ensures Accepted(rows, u, Cleaned(members), asOf) <==>
              !exists i, r :: i in Cleaned(members) && r in rows && r.universe == u && r.market == i.market &&
                              r.symbol == i.symbol && r.from == asOf && r.to.Some? && i.symbol !in ActiveFrom(rows, u)
  {
    var items := Cleaned(members);
    ClosesAccepted(rows, u, items, asOf);
    ActiveHas(rows, u);
    hide ActiveFrom, Historical, Cleaned, Empties;
    if !Accepted(rows, u, items, asOf) {
      var i :| i in items && i.symbol !in ActiveFrom(rows, u) && Taken(rows, u, i, asOf);
      var r :| r in rows && r.universe == u && r.market == i.market && r.symbol == i.symbol && r.from == asOf;
      assert !IsOpen(r, u);
    }
  }

  /** One snapshot, on the whole table: the database accepts it, and the days come out right. */
  lemma {:induction false} SnapshotStep(rows: seq<Row>, u: nat, members: seq<Item>, asOf: Day)
    requires TidyTable(rows, u) && Dated(rows, u, asOf)
    ensures var after := Snapshotted(rows, u, Cleaned(members), asOf);
      && Accepted(rows, u, Cleaned(members), asOf)
      && TidyTable(after, u) && Dated(after, u, asOf)
      && (forall d :: Members(after, u, d) == if d < asOf then Members(rows, u, d) else Listed(members))
  {
    var items := Cleaned(members);
    AfterStep(rows, u, members, asOf);
    ClosesAccepted(rows, u, items, asOf);
    hide Cleaned, Listed, After, Members, TidyTable, Dated, Taken, Empties, ActiveFrom, Historical;
    forall i | i in items && i.symbol !in ActiveFrom(rows, u)
      ensures !Taken(rows, u, i, asOf)
    {
      NotTaken(rows, u, i, asOf);
    }
  }

  lemma {:induction false} SnapshotStepOne(rows: seq<Row>, u: nat, items: seq<Item>, asOf: Day, s: string)
    requires TidyTable(rows, u) && Dated(rows, u, asOf) && Distinct(items)
    ensures var h := History(After(rows, u, items, asOf), u, s);
      && Tidy(h) && NothingAfter(h, asOf)
      && forall d :: Covers(h, d) <==> if d < asOf then Covers(History(rows, u, s), d) else s in Symbols(items)
  {
    AfterHistory(rows, u, items, asOf, u, s);
    DatedHistory(rows, u, asOf, s);
    FindMeans(items, s);
    StepKeepsTidy(History(rows, u, s), u, s, Find(items, s), asOf);
    StepCovers(History(rows, u, s), u, s, Find(items, s), asOf);
  }

  /** A snapshot of another universe does not touch `u`. */
  lemma {:induction false} OtherUnchanged(rows: seq<Row>, v: nat, members: seq<Item>, asOf: Day, u: nat, s: string)
    requires u != v
    ensures var after := After(rows, v, Cleaned(members), asOf);
      && History(after, u, s) == History(rows, u, s)
      && (forall r: Row :: r.universe == u && r.symbol == s ==> (r in after <==> r in rows))
  {
    CleanedMeans(members);
    AfterHistory(rows, v, Cleaned(members), asOf, u, s);
    HistoryRows(rows, u, s);
    HistoryRows(After(rows, v, Cleaned(members), asOf), u, s);
  }

  lemma {:induction false} OtherSnapshot(rows: seq<Row>, v: nat, members: seq<Item>, asOf: Day, u: nat)
    requires u != v && TidyTable(rows, u)
    ensures var after := Snapshotted(rows, v, Cleaned(members), asOf);
      && TidyTable(after, u)
      && (forall day :: Dated(rows, u, day) ==> Dated(after, u, day))
      && (forall d :: Members(after, u, d) == Members(rows, u, d))
  {
    var after := After(rows, v, Cleaned(members), asOf);
    hide After, Cleaned, History, Accepted;
    forall s
      ensures History(after, u, s) == History(rows, u, s)
    {
      OtherUnchanged(rows, v, members, asOf, u, s);
    }
    forall r: Row | r.universe == u
      ensures r in after <==> r in rows
    {
      OtherUnchanged(rows, v, members, asOf, u, r.symbol);
    }
  }

  /**
   Point-in-time refinement: over any log of snapshots of any universes, each universe's in
   date order, the symbols in force on a day are those of the last snapshot dated on or before
   it (or, before the first, those the table started with), and the table stays tidy.
   */
  lemma {:induction false} PointInTime(rows: seq<Row>, log: seq<Entry>, u: nat)
    requires TidyTable(rows, u) && InOrder(rows, log, u)
    ensures var now := Replay(rows, log);
      && TidyTable(now, u)
      && (forall day :: Dated(rows, u, day) ==>
            (forall i :: 0 <= i < |log| && log[i].universe == u ==> log[i].asOf <= day) ==> Dated(now, u, day))
      && (forall d :: Members(now, u, d) == LastSnapshot(rows, log, u, d))
  {
    if log != [] {
      var front, e := log[..|log| - 1], log[|log| - 1];
      assert log == front + [e];
      PointInTime(rows, front, u);
      var before := Replay(rows, front);
      if e.universe == u {
        assert Dated(rows, u, e.asOf) && Dated(before, u, e.asOf);
        SnapshotStep(before, u, e.members, e.asOf);
      } else {
        OtherSnapshot(before, e.universe, e.members, e.asOf, u);
      }
    }
  }

  /** The table's two constraints hold of a tidy table, and the query returns no symbol twice. */
  lemma {:induction false} ConstraintsHold(rows: seq<Row>, u: nat, s: string)
    requires TidyTable(rows, u)
    ensures var h := History(rows, u, s);
      && (forall r :: r in h && r.to.Some? ==> r.to.value > r.from)
      && (forall i, j :: 0 <= i < j < |h| ==> h[i].from < h[j].from)
      && (forall i, j, d :: 0 <= i < j < |h| ==> !(InForce(h[i], d) && InForce(h[j], d)))
      && (forall i, j :: 0 <= i < j < |h| ==> !(h[i].to.None? && h[j].to.None?))
  {
    var h := History(rows, u, s);
    assert Tidy(h);
    hide Tidy, History;
    forall i, j | 0 <= i < j < |h|
      ensures h[i].from < h[j].from && h[i].to.Some?
      ensures forall d :: !(InForce(h[i], d) && InForce(h[j], d))
    {
      TidyPair(h, i, j);
    }
    forall r | r in h && r.to.Some?
      ensures r.to.value > r.from
    {
      var i: nat :| i < |h| && h[i] == r;
      TidyRow(h, i);
    }
  }

  lemma {:induction false} TidyRow(h: seq<Row>, i: nat)
    requires Tidy(h) && i < |h| && h[i].to.Some?
    ensures h[i].from < h[i].to.value
  {
  }

  lemma {:induction false} TidyPair(h: seq<Row>, i: nat, j: nat)
    requires Tidy(h) && i < j < |h|
    ensures h[i].to.Some? && h[i].from < h[i].to.value <= h[j].from
  {
  }

  /** The snapshot is on record: its symbols from its date on, and what was there before it. */
  ghost predicate RecordsRight(rows: seq<Row>, u: nat, members: seq<Item>, asOf: Day) {
    forall d :: Members(Snapshotted(rows, u, Cleaned(members), asOf), u, d)
             == if d < asOf then Members(rows, u, d) else Listed(members)
  }

  /**
   On a tidy table every snapshot dated `asOf` is recorded right, whatever it lists, exactly
   when no row of the universe starts or ends after that day.
   */
  lemma {:induction false} SnapshotDateRule(rows: seq<Row>, u: nat, asOf: Day)
    requires TidyTable(rows, u) && forall r :: r in rows && r.universe == u ==> r.symbol != ""
    ensures (forall members :: RecordsRight(rows, u, members, asOf)) <==> Dated(rows, u, asOf)
  {
    if Dated(rows, u, asOf) {
      forall members: seq<Item>
        ensures RecordsRight(rows, u, members, asOf)
      {
        SnapshotStep(rows, u, members, asOf);
        hide Snapshotted, Cleaned, Listed, Members;
      }
    } else {
      var r :| r in rows && r.universe == u && !(r.from <= asOf && (r.to.Some? ==> r.to.value <= asOf));
      BackdatedGoesWrong(rows, u, r, asOf);
    }
  }

  lemma {:induction false} BackdatedGoesWrong(rows: seq<Row>, u: nat, r: Row, asOf: Day)
    requires TidyTable(rows, u) && r in rows && r.universe == u && r.symbol != ""
    requires !(r.from <= asOf && (r.to.Some? ==> r.to.value <= asOf))
    ensures !RecordsRight(rows, u, [], asOf) || !RecordsRight(rows, u, [Item(r.symbol, r.market, r.facts)], asOf)
  {
    var s, item := r.symbol, Item(r.symbol, r.market, r.facts);
    HistoryRows(rows, u, s);
    var h := History(rows, u, s);
    assert r in h && Tidy(h);
    CleanedSmall([], s);
    CleanedSmall([item], s);
    EmptyAccepted(rows, u, asOf);
    hide RecordsRight, History, Tidy, StepIsRight, Accepted, TidyTable;
    DateRuleExact(h, u, s, item, asOf);
    if RecordsRight(rows, u, [], asOf) {
      RecordedRight(rows, u, [], asOf, s);
      if RecordsRight(rows, u, [item], asOf) && Accepted(rows, u, Cleaned([item]), asOf) {
        RecordedRight(rows, u, [item], asOf, s);
      } else if RecordsRight(rows, u, [item], asOf) {
        RefusedOverlap(rows, u, item, asOf);
      }
    }
  }

  lemma {:induction false} CleanedSmall(members: seq<Item>, s: string)
    ensures members == [] ==> Find(Cleaned(members), s) == None
    ensures |members| == 1 && members[0].symbol == s && s != "" ==> Find(Cleaned(members), s) == Some(members[0])
  {
    if |members| == 1 {
      assert members[..0] == [];
      assert Cleaned(members[..0]) == [];
    }
  }

  lemma {:induction false} EmptyAccepted(rows: seq<Row>, u: nat, asOf: Day)
    requires TidyTable(rows, u)
    ensures Accepted(rows, u, Cleaned([]), asOf)
  {
    ClosesAccepted(rows, u, Cleaned([]), asOf);
  }

  /** A snapshot of one symbol that is refused finds a row that a snapshot without it would not end. */
  lemma {:induction false} RefusedOverlap(rows: seq<Row>, u: nat, item: Item, asOf: Day)
    requires TidyTable(rows, u) && !Accepted(rows, u, Cleaned([item]), asOf) && item.symbol != ""
    ensures !StepIsRight(History(rows, u, item.symbol), u, item.symbol, None, asOf)
  {
    var s := item.symbol;
    var h := History(rows, u, s);
    assert [item][..0] == [] && Cleaned([item]) == [item];
    ClosesAccepted(rows, u, [item], asOf);
    TakenByHistory(rows, u, item, asOf);
    HistoryRows(rows, u, s);
    ActiveByHistory(rows, u, s);
    assert Tidy(h);
    OpenIsLast(h);
    hide History, ActiveFrom, OpenFrom, Taken, TidyTable, Cleaned, Historical, Empties, StepIsRight;
    var r :| r in h && r.market == item.market && r.from == asOf;
    var k: nat :| k < |h| && h[k] == r;
    StaysCovered(h, u, s, item, asOf, k);
  }

  lemma {:induction false} RecordedRight(rows: seq<Row>, u: nat, members: seq<Item>, asOf: Day, s: string)
    requires RecordsRight(rows, u, members, asOf) && Accepted(rows, u, Cleaned(members), asOf)
    ensures StepIsRight(History(rows, u, s), u, s, Find(Cleaned(members), s), asOf)
    ensures members == [] ==> Find(Cleaned(members), s) == None
    ensures |members| == 1 && members[0].symbol == s && s != "" ==> Find(Cleaned(members), s) == Some(members[0])
  {
    var items := Cleaned(members);
    CleanedMeans(members);
    CleanedSmall(members, s);
    AfterHistory(rows, u, items, asOf, u, s);
    FindMeans(items, s);
    hide SymbolStep, After, Cleaned, Listed, Find, History, Covers, Members, Symbols;
    var step := SymbolStep(History(rows, u, s), u, s, Find(items, s), asOf);
    forall d
      ensures Covers(step, d) <==> if d < asOf then Covers(History(rows, u, s), d) else Find(items, s).Some?
    {
      MembersByHistory(rows, u, d, s);
      MembersByHistory(After(rows, u, items, asOf), u, d, s);
    }
  }

  // ---------------------------------------------------------------- repeating a snapshot

  lemma {:induction false} EachRows(rows: seq<Row>, f: Row -> seq<Row>, x: Row) returns (r: Row)
    requires x in Each(rows, f)
    ensures r in rows && x in f(r)
  {
    var front, last := rows[..|rows| - 1], rows[|rows| - 1];
    if x in f(last) {
      r := last;
    } else {
      r := EachRows(front, f, x);
    }
  }

  lemma {:induction false} EachHas(rows: seq<Row>, f: Row -> seq<Row>, r: Row)
    requires r in rows && f(r) == [r]
    ensures r in Each(rows, f)
  {
    if r != rows[|rows| - 1] {
      EachHas(rows[..|rows| - 1], f, r);
    }
  }

  lemma {:induction false} ActiveHas(rows: seq<Row>, u: nat)
    ensures forall r :: r in rows && IsOpen(r, u) ==> r.symbol in ActiveFrom(rows, u)
    ensures forall s :: s in ActiveFrom(rows, u) ==> exists r :: r in rows && IsOpen(r, u) && r.symbol == s
  {
    if rows != [] {
      var front, last := rows[..|rows| - 1], rows[|rows| - 1];
      ActiveHas(front, u);
      assert rows == front + [last];
      forall s | s in ActiveFrom(rows, u)
        ensures exists r :: r in rows && IsOpen(r, u) && r.symbol == s
      {
        if s in ActiveFrom(front, u) {
          var r :| r in front && IsOpen(r, u) && r.symbol == s;
          assert r in rows;
        } else {
          assert last in rows;
        }
      }
    }
  }

  /** Pruning leaves open exactly the open rows of the listed symbols. */
  lemma {:induction false} PrunedOpen(rows: seq<Row>, u: nat, items: seq<Item>, asOf: Day, r: Row)
    requires IsOpen(r, u)
    ensures r in Pruned(rows, u, items, asOf) <==> r in rows && r.symbol in Symbols(items)
  {
    var active := ActiveFrom(rows, u);
    var same, past := SameDay(active, items, asOf), Historical(active, items, asOf);
    var del, close := Deleting(u, same), Closing(u, past, asOf);
    ActiveHas(rows, u);
    assert r in rows ==> (r.symbol in Symbols(items) <==> r.symbol !in same && r.symbol !in past);
    hide Each, ActiveFrom, Symbols, SameDay, Historical;
    if r in Pruned(rows, u, items, asOf) {
      var x := EachRows(Each(rows, del), close, r);
      var y := EachRows(rows, del, x);
    } else if r in rows && r.symbol in Symbols(items) {
      EachHas(rows, del, r);
      EachHas(Each(rows, del), close, r);
    }
  }

  lemma {:induction false} PrunedActive(rows: seq<Row>, u: nat, items: seq<Item>, asOf: Day)
    ensures ActiveFrom(Pruned(rows, u, items, asOf), u).Keys == ActiveFrom(rows, u).Keys * Symbols(items)
  {
    var pruned := Pruned(rows, u, items, asOf);
    ActiveHas(rows, u);
    ActiveHas(pruned, u);
    hide Pruned, ActiveFrom, Symbols;
    forall r | IsOpen(r, u)
      ensures r in pruned <==> r in rows && r.symbol in Symbols(items)
    {
      PrunedOpen(rows, u, items, asOf, r);
    }
  }

  lemma {:induction false} ActiveSnoc(rows: seq<Row>, r: Row, u: nat)
    ensures ActiveFrom(rows + [r], u) ==
              if IsOpen(r, u) then ActiveFrom(rows, u)[r.symbol := r.from] else ActiveFrom(rows, u)
  {
    assert (rows + [r])[..|rows|] == rows;
  }

  lemma {:induction false} RefreshKeepsActive(rows: seq<Row>, u: nat, item: Item, asOf: Day)
    ensures ActiveFrom(Each(rows, Refreshing(u, item, asOf)), u) == ActiveFrom(rows, u)
  {
    if rows != [] {
      var front, r := rows[..|rows| - 1], rows[|rows| - 1];
      var f := Refreshing(u, item, asOf);
      RefreshKeepsActive(front, u, item, asOf);
      RefreshedRow(r, u, item, asOf);
      hide Refreshing;
      var x := f(r)[0];
      assert rows == front + [r] && Each(rows, f) == Each(front, f) + [x];
      hide Each, ActiveFrom, IsOpen;
      ActiveSnoc(front, r, u);
      ActiveSnoc(Each(front, f), x, u);
    }
  }

  lemma {:induction false} RefreshedRow(r: Row, u: nat, item: Item, asOf: Day)
    ensures var x := Refreshing(u, item, asOf)(r);
      |x| == 1 && x[0].symbol == r.symbol && x[0].from == r.from && (IsOpen(x[0], u) <==> IsOpen(r, u))
  {
  }

  lemma {:induction false} UpsertActive(before: seq<Row>, u: nat, active: set<string>, item: Item, asOf: Day)
    ensures item.symbol in active ==>
              ActiveFrom(Each(before, Refreshing(u, item, asOf)), u).Keys == ActiveFrom(before, u).Keys
    ensures item.symbol !in active ==>
              ActiveFrom(before + [NewRow(u, item, asOf)], u).Keys == ActiveFrom(before, u).Keys + {item.symbol}
  {
    RefreshKeepsActive(before, u, item, asOf);
    ActiveSnoc(before, NewRow(u, item, asOf), u);
    hide Each, ActiveFrom;
  }

  lemma {:induction false} UpsertedActive(rows: seq<Row>, u: nat, active: set<string>, items: seq<Item>, asOf: Day)
    ensures ActiveFrom(Upserted(rows, u, active, items, asOf), u).Keys ==
              ActiveFrom(rows, u).Keys + (Symbols(items) - active)
  {
    hide ActiveFrom, Each, Refreshing, NewRow;
    if items == [] {
      assert Symbols(items) == {};
    } else {
      var front, item := items[..|items| - 1], items[|items| - 1];
      hide Symbols;
      UpsertedActive(rows, u, active, front, asOf);
      SymbolsSnoc(front, item);
      assert items == front + [item];
      UpsertActive(Upserted(rows, u, active, front, asOf), u, active, item, asOf);
      hide Upserted;
      OneMore(ActiveFrom(rows, u).Keys, Symbols(front), active, item.symbol);
    }
  }

  lemma {:induction false} SymbolsSnoc(front: seq<Item>, item: Item)
    ensures Symbols(front + [item]) == Symbols(front) + {item.symbol}
  {
  }

  lemma {:induction false} OneMore(keys: set<string>, symbols: set<string>, active: set<string>, s: string)
    ensures keys + (symbols + {s} - active) == keys + (symbols - active) + if s in active then {} else {s}
  {
  }

  /** After a snapshot, exactly its symbols are open. */
  lemma {:induction false} ActiveAfter(rows: seq<Row>, u: nat, items: seq<Item>, asOf: Day)
    ensures ActiveFrom(After(rows, u, items, asOf), u).Keys == Symbols(items)
  {
    PrunedActive(rows, u, items, asOf);
    UpsertedActive(Pruned(rows, u, items, asOf), u, ActiveFrom(rows, u).Keys, items, asOf);
  }

  ghost predicate Matches(r: Row, items: seq<Item>, asOf: Day) {
    Find(items, r.symbol).Some? && r.facts == Find(items, r.symbol).value.facts && r.version == asOf
  }

  /** After the upserts, every open row of a listed symbol carries the snapshot's facts. */
  lemma {:induction false} UpsertedMatches(rows: seq<Row>, u: nat, active: set<string>, items: seq<Item>, asOf: Day,
          r: Row)
    requires Distinct(items) && ActiveFrom(rows, u).Keys <= active
    requires r in Upserted(rows, u, active, items, asOf) && IsOpen(r, u) && r.symbol in Symbols(items)
    ensures Matches(r, items, asOf)
  {
    var front, item := items[..|items| - 1], items[|items| - 1];
    var before := Upserted(rows, u, active, front, asOf);
    assert items == front + [item];
    if item.symbol in active {
      var x := EachRows(before, Refreshing(u, item, asOf), r);
      if r.symbol != item.symbol {
        UpsertedMatches(rows, u, active, front, asOf, r);
      }
    } else if r != NewRow(u, item, asOf) {
      UpsertedActive(rows, u, active, front, asOf);
      ActiveHas(before, u);
      NotFound(front, item, item.symbol);
      FindMeans(front, item.symbol);
      UpsertedMatches(rows, u, active, front, asOf, r);
    }
  }

  lemma {:induction false} FindDistinct(items: seq<Item>, i: Item)
    requires Distinct(items) && i in items
    ensures Find(items, i.symbol) == Some(i)
  {
    if i != items[|items| - 1] {
      assert items == items[..|items| - 1] + [items[|items| - 1]];
      FindDistinct(items[..|items| - 1], i);
    }
  }

  lemma {:induction false} UpsertedAgain(rows: seq<Row>, u: nat, active: set<string>, all: seq<Item>,
          items: seq<Item>, asOf: Day)
    requires items <= all && Distinct(all) && Symbols(all) <= active
    requires forall r :: r in rows && IsOpen(r, u) ==> Matches(r, all, asOf)
    ensures Upserted(rows, u, active, items, asOf) == rows
  {
    if items != [] {
      var item := items[|items| - 1];
      UpsertedAgain(rows, u, active, all, items[..|items| - 1], asOf);
      assert item in all;
      FindDistinct(all, item);
      EachKeeps(rows, Refreshing(u, item, asOf));
    }
  }

  lemma {:induction false} ReapplyAfter(rows: seq<Row>, u: nat, members: seq<Item>, asOf: Day)
    ensures var once := After(rows, u, Cleaned(members), asOf);
      && After(once, u, Cleaned(members), asOf) == once && Accepted(once, u, Cleaned(members), asOf)
      && ActiveFrom(once, u).Keys == Listed(members)
  {
    var items := Cleaned(members);
    CleanedMeans(members);
    hide Cleaned, Listed;
    var once := After(rows, u, items, asOf);
    ActiveAfter(rows, u, items, asOf);
    PrunedActive(rows, u, items, asOf);
    forall r | r in once && IsOpen(r, u)
      ensures Matches(r, items, asOf)
    {
      ActiveHas(once, u);
      UpsertedMatches(Pruned(rows, u, items, asOf), u, ActiveFrom(rows, u).Keys, items, asOf, r);
    }
    ReapplyFrom(once, u, items, asOf);
  }

  /**
   Applying the same snapshot a second time changes no row, on any table; and when the first
   was accepted so is the second, with exactly the listed symbols active.
   */
  lemma {:induction false} ReapplyChangesNothing(rows: seq<Row>, u: nat, members: seq<Item>, asOf: Day)
    ensures var once := Snapshotted(rows, u, Cleaned(members), asOf);
      && Snapshotted(once, u, Cleaned(members), asOf) == once
      && (Accepted(rows, u, Cleaned(members), asOf) ==>
            Accepted(once, u, Cleaned(members), asOf) && ActiveFrom(once, u).Keys == Listed(members))
  {
    ReapplyAfter(rows, u, members, asOf);
    hide After, Cleaned, Listed, ActiveFrom, Accepted;
  }

  lemma {:induction false} ReapplyFrom(once: seq<Row>, u: nat, items: seq<Item>, asOf: Day)
    requires Distinct(items) && ActiveFrom(once, u).Keys == Symbols(items)
    requires forall r :: r in once && IsOpen(r, u) ==> Matches(r, items, asOf)
    ensures After(once, u, items, asOf) == once && Accepted(once, u, items, asOf)
  {
    var active := ActiveFrom(once, u);
    assert SameDay(active, items, asOf) == {} && Historical(active, items, asOf) == {};
    EachKeeps(once, Deleting(u, {}));
    EachKeeps(once, Closing(u, {}, asOf));
    UpsertedAgain(once, u, active.Keys, items, items, asOf);
  }

  // ---------------------------------------------------------------- counting the active members

  function OpenCount(rows: seq<Row>, u: nat): nat {
    if rows == [] then 0
    else OpenCount(rows[..|rows| - 1], u) + if IsOpen(rows[|rows| - 1], u) then 1 else 0
  }

  lemma {:induction false} OneOpenRowEach(rows: seq<Row>, u: nat)
    requires TidyTable(rows, u)
    ensures OpenCount(rows, u) == |ActiveFrom(rows, u)|
  {
    if rows != [] {
      var front, r := rows[..|rows| - 1], rows[|rows| - 1];
      forall s
        ensures Tidy(History(front, u, s))
      {
        if r.universe == u && r.symbol == s {
          TidySnoc(History(front, u, s), r);
          assert Tidy(History(rows, u, s));
        } else {
          assert History(rows, u, s) == History(front, u, s);
        }
      }
      OneOpenRowEach(front, u);
      if IsOpen(r, u) {
        assert Tidy(History(rows, u, r.symbol));
        NotOpenBefore(front, r, u);
        var before := ActiveFrom(front, u);
        assert ActiveFrom(rows, u).Keys == before.Keys + {r.symbol};
        assert |before| == |before.Keys| && |ActiveFrom(rows, u)| == |ActiveFrom(rows, u).Keys|;
      }
    }
  }

  lemma {:induction false} NotOpenBefore(front: seq<Row>, r: Row, u: nat)
    requires IsOpen(r, u) && Tidy(History(front, u, r.symbol) + [r])
    ensures r.symbol !in ActiveFrom(front, u)
  {
    var h := History(front, u, r.symbol);
    TidySnoc(h, r);
    ActiveByHistory(front, u, r.symbol);
    OpenIsLast(h);
  }

  /** The number of active members moves by what the summary reports: added minus removed. */
  lemma {:induction false} ActiveCountMoves(rows: seq<Row>, u: nat, members: seq<Item>, asOf: Day)
    requires TidyTable(rows, u) && Dated(rows, u, asOf)
    ensures var (active, now) := (ActiveFrom(rows, u).Keys, Listed(members));
      var after := Snapshotted(rows, u, Cleaned(members), asOf);
      && OpenCount(after, u) == OpenCount(rows, u) + |now - active| - |active - now|
      && OpenCount(after, u) == |Cleaned(members)|
  {
    var items, after := Cleaned(members), Snapshotted(rows, u, Cleaned(members), asOf);
    SnapshotStep(rows, u, members, asOf);
    CleanedMeans(members);
    OneOpenRowEach(rows, u);
    OneOpenRowEach(after, u);
    ActiveAfter(rows, u, items, asOf);
    SymbolCount(items);
    var active, now := ActiveFrom(rows, u).Keys, Listed(members);
    hide After, Accepted, ActiveFrom, Cleaned, Listed, TidyTable, Dated, OpenCount, Symbols;
    assert |ActiveFrom(rows, u)| == |active| && |ActiveFrom(after, u)| == |ActiveFrom(after, u).Keys|;
    CountsMove(active, now);
  }

  lemma {:induction false} CountsMove(a: set<string>, b: set<string>)
    ensures |b| == |a| + |b - a| - |a - b|
  {
    assert a == (a - b) + (a * b) && b == (b - a) + (a * b);
  }

  lemma {:induction false} SymbolCount(items: seq<Item>)
    requires Distinct(items)
    ensures |Symbols(items)| == |items|
  {
    if items != [] {
      var front, item := items[..|items| - 1], items[|items| - 1];
      assert items == front + [item];
      SymbolCount(front);
      NotFound(front, item, item.symbol);
      FindMeans(front, item.symbol);
      assert Symbols(items) == Symbols(front) + {item.symbol};
    }
  }

  // ---------------------------------------------------------------- rows by their columns

  /**
   What an accepted snapshot writes: a listed symbol that was not active gets an open row from the
   snapshot's date with its market and facts; an active one's open rows keep market and first day
   and take the facts.
   */
  lemma {:induction false} RowsWritten(rows: seq<Row>, u: nat, members: seq<Item>, asOf: Day, i: Item)
    requires Accepted(rows, u, Cleaned(members), asOf) && i in Cleaned(members)
    ensures var after := Snapshotted(rows, u, Cleaned(members), asOf);
      && (i.symbol !in ActiveFrom(rows, u) ==>
            Row(u, i.market, i.symbol, asOf, None, i.facts, asOf) in after)
      && (forall r :: r in rows && r.universe == u && r.symbol == i.symbol && r.to.None? ==>
            Row(u, r.market, r.symbol, r.from, None, i.facts, asOf) in after)
  {
    var items, s := Cleaned(members), i.symbol;
    CleanedMeans(members);
    FindDistinct(items, i);
    var h, after := History(rows, u, s), After(rows, u, items, asOf);
    AfterHistory(rows, u, items, asOf, u, s);
    ActiveByHistory(rows, u, s);
    ActiveHas(rows, u);
    HistoryRows(rows, u, s);
    HistoryRows(after, u, s);
    hide Cleaned, History, Accepted, After, ActiveFrom;
    if i.symbol !in ActiveFrom(rows, u) {
      assert History(after, u, s) == h + [NewRow(u, i, asOf)];
    } else {
      forall r | r in rows && IsOpen(r, u) && r.symbol == s
        ensures Row(u, r.market, r.symbol, r.from, None, i.facts, asOf) in after
      {
        EachGives(h, Refreshing(u, i, asOf), r);
      }
    }
  }

  lemma {:induction false} EachGives(rows: seq<Row>, f: Row -> seq<Row>, r: Row)
    requires r in rows
    ensures forall x :: x in f(r) ==> x in Each(rows, f)
  {
    if r != rows[|rows| - 1] {
      EachGives(rows[..|rows| - 1], f, r);
    }
  }
}
