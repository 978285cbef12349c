/**
 Merging duplicate position rows: `merge_duplicate_legs` of
 backend/scripts/migrate_canonical_symbols.py. The table is the sequence of its rows in the
 order of the query, by strategy and then by id. The schema allows no two rows with the same
 strategy, symbol and side, and the script renames the kept row before it deletes the others:
 an update that would break the constraint raises, and the whole run is rolled back.
 */
module MergeLegs {
  import opened Basics

  datatype Position = Position(id: int, strategyId: int, marketType: string, side: string, symbol: string,
                               canonical: string, size: real, entry: real)

  /** What the script does to names: `symbol_canonical` or the symbol's canonical form, in upper case. */
  datatype Naming = Naming(canon: string -> string, upper: string -> string, market: string -> string,
                           side: string -> string)

  datatype Key = Key(strategyId: int, market: string, side: string, symbol: string)

  function KeyOf(names: Naming, r: Position): Key {
    Key(r.strategyId, names.market(r.marketType), names.side(r.side),
        names.upper(if r.canonical != "" then r.canonical else names.canon(r.symbol)))
  }

  /** Upper case is final, and the canonical form of nothing is nothing. */
  ghost predicate Settled(names: Naming) {
    && (forall s :: names.upper(names.upper(s)) == names.upper(s))
    && names.upper("") == "" && names.canon("") == ""
  }

  predicate UniqueIds(rows: seq<Position>) {
    forall i, j :: 0 <= i < j < |rows| ==> rows[i].id != rows[j].id
  }

  predicate Clash(a: Position, b: Position) {
    a.strategyId == b.strategyId && a.symbol == b.symbol && a.side == b.side
  }

  /** The constraint UNIQUE(strategy_id, symbol, side). */
  predicate UniqueLegs(rows: seq<Position>) {
    forall i, j :: 0 <= i < j < |rows| ==> !Clash(rows[i], rows[j])
  }

  /** What the table's constraints allow: the primary key and the unique constraint. */
  predicate Legal(rows: seq<Position>) {
    UniqueIds(rows) && UniqueLegs(rows)
  }

  // ---------------------------------------------------------------- groups

  /** The rows of one key, in order. */
  function Legs(rows: seq<Position>, names: Naming, k: Key): seq<Position> {
    if rows == [] then []
    else
      var front, r := Legs(rows[..|rows| - 1], names, k), rows[|rows| - 1];
      if KeyOf(names, r) == k then front + [r] else front
  }

  function TotalSize(legs: seq<Position>): real {
    if legs == [] then 0.0 else TotalSize(legs[..|legs| - 1]) + legs[|legs| - 1].size
  }

  function Worth(r: Position): real {
    r.size * r.entry
  }

  function Notional(legs: seq<Position>): real {
    if legs == [] then 0.0 else Notional(legs[..|legs| - 1]) + Worth(legs[|legs| - 1])
  }

  function MinId(legs: seq<Position>): int
    requires legs != []
  {
    if |legs| == 1 then legs[0].id else Min(MinId(legs[..|legs| - 1]), legs[|legs| - 1].id)
  }

  function MergedEntry(legs: seq<Position>): real
    requires legs != []
  {
    if TotalSize(legs) > 0.0 then Notional(legs) / TotalSize(legs) else legs[0].entry
  }

  /** What becomes of a row: kept, merged into, or dropped. */
  function Fate(legs: seq<Position>, k: Key, r: Position): seq<Position>
    requires legs != []
  {
    if |legs| <= 1 then [r]
    else if r.id == MinId(legs) then
      [r.(symbol := k.symbol, canonical := k.symbol, size := TotalSize(legs), entry := MergedEntry(legs))]
    else []
  }

  /** The table once the groups with keys in `done` have been merged; `all` is the table before. */
  function MergedUpTo(rows: seq<Position>, all: seq<Position>, names: Naming, done: set<Key>): seq<Position>
    requires forall r :: r in rows ==> r in all
  {
    if rows == [] then []
    else
      var r := rows[|rows| - 1];
      MergedUpTo(rows[..|rows| - 1], all, names, done) + Piece(all, names, done, r)
  }

  /** What the row has become by then. */
  function Piece(all: seq<Position>, names: Naming, done: set<Key>, r: Position): seq<Position>
    requires r in all
  {
    var k := KeyOf(names, r);
    LegsMean(all, names, k);
    if k in done then Fate(Legs(all, names, k), k, r) else [r]
  }

  function Keys(rows: seq<Position>, names: Naming): set<Key> {
    set r | r in rows :: KeyOf(names, r)
  }

  function Merged(rows: seq<Position>, names: Naming): seq<Position> {
    MergedUpTo(rows, rows, names, Keys(rows, names))
  }

  lemma {:induction false} LegsMean(rows: seq<Position>, names: Naming, k: Key)
    ensures forall r :: r in Legs(rows, names, k) <==> r in rows && KeyOf(names, r) == k
    ensures UniqueIds(rows) ==> UniqueIds(Legs(rows, names, k))
    ensures Legs(rows, names, k) != [] <==> k in Keys(rows, names)
  {
    if rows != [] {
      var front, r := rows[..|rows| - 1], rows[|rows| - 1];
      assert rows == front + [r];
      LegsMean(front, names, k);
      if UniqueIds(rows) {
        var legs := Legs(front, names, k);
        forall i | 0 <= i < |legs|
          ensures legs[i].id != r.id
        {
          assert legs[i] in front;
        }
      }
    }
  }

  function Crowded(rows: seq<Position>, names: Naming): set<Key> {
    set k | k in Keys(rows, names) && |Legs(rows, names, k)| > 1
  }

  /** Where the key first appears, or the length when it does not: groups take their turns in this order. */
  function FirstAt(rows: seq<Position>, names: Naming, k: Key): nat {
    if rows == [] then 0
    else
      var n := FirstAt(rows[..|rows| - 1], names, k);
      if n < |rows| - 1 || KeyOf(names, rows[|rows| - 1]) == k then n else |rows|
  }

  lemma {:induction false} FirstAtMeans(rows: seq<Position>, names: Naming, k: Key)
    ensures FirstAt(rows, names, k) <= |rows|
    ensures FirstAt(rows, names, k) < |rows| <==> k in Keys(rows, names)
    ensures FirstAt(rows, names, k) < |rows| ==> KeyOf(names, rows[FirstAt(rows, names, k)]) == k
  {
    if rows != [] {
      FirstAtMeans(rows[..|rows| - 1], names, k);
      assert rows == rows[..|rows| - 1] + [rows[|rows| - 1]];
    }
  }

  /** The leg with the smallest id. */
  function Kept(legs: seq<Position>): Position
    requires legs != []
  {
    if |legs| == 1 then legs[0]
    else
      var best, last := Kept(legs[..|legs| - 1]), legs[|legs| - 1];
      if best.id <= last.id then best else last
  }

  lemma {:induction false} KeptMeans(legs: seq<Position>)
    requires legs != []
    ensures Kept(legs) in legs && Kept(legs).id == MinId(legs)
  {
    if |legs| > 1 {
      KeptMeans(legs[..|legs| - 1]);
      assert legs == legs[..|legs| - 1] + [legs[|legs| - 1]];
    }
  }

  // ---------------------------------------------------------------- the two statements

  function Renamed(r: Position, id: int, symbol: string, size: real, entry: real): Position {
    if r.id == id then r.(symbol := symbol, canonical := symbol, size := size, entry := entry) else r
  }

  function Update(rows: seq<Position>, id: int, symbol: string, size: real, entry: real): seq<Position> {
    if rows == [] then []
    else
      var r := rows[|rows| - 1];
      Update(rows[..|rows| - 1], id, symbol, size, entry) + [Renamed(r, id, symbol, size, entry)]
  }

  function Delete(rows: seq<Position>, ids: set<int>): seq<Position> {
    if rows == [] then []
    else
      var r := rows[|rows| - 1];
      Delete(rows[..|rows| - 1], ids) + if r.id in ids then [] else [r]
  }

  lemma {:induction false} DeleteMore(rows: seq<Position>, ids: set<int>, id: int)
    ensures Delete(Delete(rows, ids), {id}) == Delete(rows, ids + {id})
  {
    if rows != [] {
      var front, r := rows[..|rows| - 1], rows[|rows| - 1];
      DeleteMore(front, ids, id);
      var less := Delete(front, ids);
      if r.id in ids {
        assert Delete(rows, ids) == less;
      } else {
        assert Delete(rows, ids) == less + [r] && (less + [r])[..|less|] == less;
      }
    }
  }

  lemma {:induction false} DeleteNone(rows: seq<Position>)
    ensures Delete(rows, {}) == rows
  {
    if rows != [] {
      DeleteNone(rows[..|rows| - 1]);
    }
  }

  lemma {:induction false} StatementsSnoc(rows: seq<Position>, r: Position, id: int, symbol: string, size: real,
          entry: real, ids: set<int>)
    ensures Update(rows + [r], id, symbol, size, entry) ==
              Update(rows, id, symbol, size, entry) + [Renamed(r, id, symbol, size, entry)]
    ensures Delete(rows + [r], ids) == Delete(rows, ids) + if r.id in ids then [] else [r]
  {
    assert (rows + [r])[..|rows|] == rows;
  }

  /** Some other row already has the new symbol, with the strategy and the side of the updated row. */
  predicate Blocked(rows: seq<Position>, id: int, symbol: string) {
    exists x, y :: x in rows && y in rows && x.id == id && y.id != id
                   && y.strategyId == x.strategyId && y.side == x.side && y.symbol == symbol
  }

  lemma {:induction false} UniqueSnoc(rows: seq<Position>, r: Position)
    ensures UniqueLegs(rows + [r]) <==> UniqueLegs(rows) && forall x :: x in rows ==> !Clash(x, r)
    ensures UniqueIds(rows + [r]) <==> UniqueIds(rows) && forall x :: x in rows ==> x.id != r.id
  {
    var all := rows + [r];
    assert forall i :: 0 <= i < |rows| ==> rows[i] == all[i];
    forall x | x in rows
      ensures UniqueLegs(all) ==> !Clash(x, r)
      ensures UniqueIds(all) ==> x.id != r.id
    {
      var i: nat :| i < |rows| && rows[i] == x;
      assert all[i] == x && all[|rows|] == r;
    }
    assert forall i :: 0 <= i < |rows| ==> rows[i] in rows;
  }

  lemma {:induction false} UpdateMeans(rows: seq<Position>, id: int, symbol: string, size: real, entry: real)
    ensures var after := Update(rows, id, symbol, size, entry);
      |after| == |rows| && forall i :: 0 <= i < |rows| ==> after[i] == Renamed(rows[i], id, symbol, size, entry)
  {
    if rows != [] {
      UpdateMeans(rows[..|rows| - 1], id, symbol, size, entry);
    }
  }

  /** The update breaks the constraint exactly when it is blocked. */
  lemma {:induction false} UpdateLegal(rows: seq<Position>, id: int, symbol: string, size: real, entry: real)
    requires Legal(rows)
    ensures UniqueLegs(Update(rows, id, symbol, size, entry)) <==> !Blocked(rows, id, symbol)
    ensures UniqueIds(Update(rows, id, symbol, size, entry))
  {
    var after := Update(rows, id, symbol, size, entry);
    UpdateMeans(rows, id, symbol, size, entry);
    hide Update;
    if Blocked(rows, id, symbol) {
      var x, y :| x in rows && y in rows && x.id == id && y.id != id
                  && y.strategyId == x.strategyId && y.side == x.side && y.symbol == symbol;
      var i: nat :| i < |rows| && rows[i] == x;
      var j: nat :| j < |rows| && rows[j] == y;
      assert Clash(after[i], after[j]) && Clash(after[j], after[i]);
    } else {
      forall i, j | 0 <= i < j < |rows|
        ensures !Clash(after[i], after[j])
      {
        assert rows[i] in rows && rows[j] in rows && !Clash(rows[i], rows[j]);
      }
    }
  }

  lemma {:induction false} DeleteLegal(rows: seq<Position>, ids: set<int>)
    ensures forall x :: x in Delete(rows, ids) ==> x in rows
    ensures UniqueLegs(rows) ==> UniqueLegs(Delete(rows, ids))
    ensures UniqueIds(rows) ==> UniqueIds(Delete(rows, ids))
    ensures Legal(rows) ==> Legal(Delete(rows, ids))
  {
    if rows != [] {
      var front, r := rows[..|rows| - 1], rows[|rows| - 1];
      assert rows == front + [r];
      DeleteLegal(front, ids);
      UniqueSnoc(front, r);
      UniqueSnoc(Delete(front, ids), r);
      hide UniqueLegs, UniqueIds, Clash;
      if r.id in ids {
        assert Delete(rows, ids) == Delete(front, ids);
      }
    }
  }

  /** The statements for one group. */
  function Statements(rows: seq<Position>, legs: seq<Position>, k: Key): seq<Position>
    requires legs != []
  {
    Delete(Update(rows, MinId(legs), k.symbol, TotalSize(legs), MergedEntry(legs)), Dropped(legs))
  }

  function Dropped(legs: seq<Position>): set<int>
    requires legs != []
  {
    set r | r in legs && r.id != MinId(legs) :: r.id
  }

  /** On one row that is in the group, the statements do what its fate says; on others, nothing. */
  lemma {:induction false} StatementsOn(rows: seq<Position>, r: Position, legs: seq<Position>, k: Key)
    requires |legs| > 1
    ensures r in legs ==> Statements(rows + [r], legs, k) == Statements(rows, legs, k) + Fate(legs, k, r)
    ensures (forall x :: x in legs ==> x.id != r.id) ==>
              Statements(rows + [r], legs, k) == Statements(rows, legs, k) + [r]
  {
    var keep := MinId(legs);
    MinIdMeans(legs);
    StatementsSnoc(rows, r, keep, k.symbol, TotalSize(legs), MergedEntry(legs), Dropped(legs));
    var after := Update(rows, keep, k.symbol, TotalSize(legs), MergedEntry(legs));
    var x := Renamed(r, keep, k.symbol, TotalSize(legs), MergedEntry(legs));
    StatementsSnoc(after, x, keep, k.symbol, TotalSize(legs), MergedEntry(legs), Dropped(legs));
    hide Update, Delete, TotalSize, MergedEntry, MinId;
  }

  lemma {:induction false} MinIdMeans(legs: seq<Position>)
    requires legs != []
    ensures forall r :: r in legs ==> MinId(legs) <= r.id
    ensures exists r :: r in legs && r.id == MinId(legs)
  {
    if |legs| == 1 {
      assert legs[0] in legs;
    } else {
      var front, last := legs[..|legs| - 1], legs[|legs| - 1];
      assert legs == front + [last];
      MinIdMeans(front);
      var r :| r in front && r.id == MinId(front);
      assert r in legs && last in legs;
    }
  }

  lemma {:induction false} SameId(rows: seq<Position>, a: Position, b: Position)
    requires UniqueIds(rows) && a in rows && b in rows && a.id == b.id
    ensures a == b
  {
    var i: nat :| i < |rows| && rows[i] == a;
    var j: nat :| j < |rows| && rows[j] == b;
  }

  /** The statements for group `k` merge that group and touch no other. */
  lemma {:induction false} MergeOneGroup(rows: seq<Position>, all: seq<Position>, names: Naming, done: set<Key>, k: Key)
    requires UniqueIds(all) && (forall r :: r in rows ==> r in all) && k !in done && |Legs(all, names, k)| > 1
    ensures Statements(MergedUpTo(rows, all, names, done), Legs(all, names, k), k) ==
              MergedUpTo(rows, all, names, done + {k})
  {
    var legs := Legs(all, names, k);
    if rows != [] {
      var front, r := rows[..|rows| - 1], rows[|rows| - 1];
      MergeOneGroup(front, all, names, done, k);
      var before, k' := MergedUpTo(front, all, names, done), KeyOf(names, r);
      LegsMean(all, names, k);
      LegsMean(all, names, k');
      if k' == k {
        StatementsOn(before, r, legs, k);
      } else {
        forall x | x in legs
          ensures x.id != r.id
        {
          if x.id == r.id {
            SameId(all, x, r);
          }
        }
        if k' in done {
          var fate := Fate(Legs(all, names, k'), k', r);
          hide Statements;
          if fate != [] {
            assert fate == [fate[0]] && fate[0].id == r.id;
            StatementsOn(before, fate[0], legs, k);
          } else {
            assert before + fate == before;
          }
        } else {
          StatementsOn(before, r, legs, k);
        }
      }
    }
  }

  /** A group of one row is merged as it stands. */
  lemma {:induction false} MergeSmallGroup(rows: seq<Position>, all: seq<Position>, names: Naming, done: set<Key>,
          k: Key)
    requires (forall r :: r in rows ==> r in all) && |Legs(all, names, k)| <= 1
    ensures MergedUpTo(rows, all, names, done + {k}) == MergedUpTo(rows, all, names, done)
  {
    if rows != [] {
      MergeSmallGroup(rows[..|rows| - 1], all, names, done, k);
      LegsMean(all, names, KeyOf(names, rows[|rows| - 1]));
    }
  }

  lemma {:induction false} NothingMerged(rows: seq<Position>, all: seq<Position>, names: Naming)
    requires forall r :: r in rows ==> r in all
    ensures MergedUpTo(rows, all, names, {}) == rows
  {
    if rows != [] {
      NothingMerged(rows[..|rows| - 1], all, names);
    }
  }

  function AllOf(keys: seq<Key>): set<Key> {
    set k | k in keys
  }

  /** The groups hold exactly the legs of every key; the order lists every key once. */
  ghost predicate GroupsOf(groups: map<Key, seq<Position>>, order: seq<Key>, rows: seq<Position>, names: Naming) {
    && AllOf(order) == Keys(rows, names) == groups.Keys && ByFirst(order, rows, names)
    && forall k :: k in groups ==> groups[k] == Legs(rows, names, k)
  }

  ghost predicate ByFirst(order: seq<Key>, rows: seq<Position>, names: Naming) {
    forall i, j :: 0 <= i < j < |order| ==> FirstAt(rows, names, order[i]) < FirstAt(rows, names, order[j])
  }

  lemma {:induction false} FirstAtSnoc(rows: seq<Position>, r: Position, names: Naming, k: Key)
    ensures FirstAt(rows + [r], names, k) ==
              if k in Keys(rows, names) || k == KeyOf(names, r) then FirstAt(rows, names, k) else |rows| + 1
    ensures k !in Keys(rows, names) ==> FirstAt(rows, names, k) == |rows|
  {
    assert (rows + [r])[..|rows|] == rows;
    FirstAtMeans(rows, names, k);
  }

  /** One more row leaves the order of the keys seen before, and a new key comes last. */
  lemma {:induction false} ByFirstGrows(order: seq<Key>, rows: seq<Position>, r: Position, names: Naming)
    requires AllOf(order) == Keys(rows, names) && ByFirst(order, rows, names)
    ensures ByFirst(order, rows + [r], names)
    ensures KeyOf(names, r) !in Keys(rows, names) ==> ByFirst(order + [KeyOf(names, r)], rows + [r], names)
  {
    hide Keys, KeyOf, FirstAt;
    forall i | 0 <= i < |order|
      ensures FirstAt(rows + [r], names, order[i]) == FirstAt(rows, names, order[i]) < |rows|
    {
      assert order[i] in AllOf(order);
      FirstAtSnoc(rows, r, names, order[i]);
      FirstAtMeans(rows, names, order[i]);
    }
    FirstAtSnoc(rows, r, names, KeyOf(names, r));
  }

  lemma {:induction false} GroupsGrow(groups: map<Key, seq<Position>>, order: seq<Key>, rows: seq<Position>,
          r: Position, names: Naming)
    requires GroupsOf(groups, order, rows, names)
    ensures var k := KeyOf(names, r);
      if k !in groups then GroupsOf(groups[k := [r]], order + [k], rows + [r], names)
      else GroupsOf(groups[k := groups[k] + [r]], order, rows + [r], names)
  {
    var k := KeyOf(names, r);
    LegsMean(rows, names, k);
    hide Legs, Keys, KeyOf;
    forall x
      ensures Legs(rows + [r], names, x) ==
              if x == k then Legs(rows, names, x) + [r] else Legs(rows, names, x)
    {
      LegsSnoc(rows, r, names, x);
    }
    KeysSnoc(rows, r, names);
    ByFirstGrows(order, rows, r, names);
    hide ByFirst;
    if k !in groups {
      assert AllOf(order + [k]) == AllOf(order) + {k};
    }
  }

  lemma {:induction false} GroupsKeys(groups: map<Key, seq<Position>>, order: seq<Key>, rows: seq<Position>,
          names: Naming)
    requires GroupsOf(groups, order, rows, names)
    ensures groups.Keys == Keys(rows, names)
  {
  }

  lemma {:induction false} LegsSnoc(rows: seq<Position>, r: Position, names: Naming, x: Key)
    ensures Legs(rows + [r], names, x) ==
              if x == KeyOf(names, r) then Legs(rows, names, x) + [r] else Legs(rows, names, x)
  {
    assert (rows + [r])[..|rows|] == rows;
  }

  lemma {:induction false} KeysSnoc(rows: seq<Position>, r: Position, names: Naming)
    ensures Keys(rows + [r], names) == Keys(rows, names) + {KeyOf(names, r)}
  {
  }

  // ---------------------------------------------------------------- when a run succeeds

  /** The group of `k'` has more than one row and takes its turn before that of `k`. */
  ghost predicate Turned(rows: seq<Position>, names: Naming, k': Key, k: Key) {
    k' in Crowded(rows, names) && FirstAt(rows, names, k') < FirstAt(rows, names, k)
  }

  /**
   Row `r` stands in the way of the group of `k` at its turn: it is not the kept row, has the
   kept row's strategy and side, and by then has the canonical symbol. It has it by then if it
   has it from the start and its own group has not been merged before, or if it is the row
   kept by a group merged before under the same symbol, which can only differ in market type.
   */
  ghost predicate InTheWay(rows: seq<Position>, names: Naming, k: Key, r: Position)
    requires Legs(rows, names, k) != []
  {
    && r.id != MinId(Legs(rows, names, k))
    && r.strategyId == k.strategyId && r.side == Kept(Legs(rows, names, k)).side
    && var own := KeyOf(names, r);
      if Turned(rows, names, own, k) then r == Kept(Legs(rows, names, own)) && own.symbol == k.symbol
      else r.symbol == k.symbol
  }

  /** No row of the table stands in the way of a group to be merged. */
  ghost predicate Succeeds(rows: seq<Position>, names: Naming) {
    forall k, r :: k in Crowded(rows, names) && r in rows ==> !InTheWay(rows, names, k, r)
  }

  /** The table after a run: merged, or as it was. */
  ghost function AfterRun(rows: seq<Position>, names: Naming): seq<Position> {
    if Succeeds(rows, names) then Merged(rows, names) else rows
  }

  /** The rows of the table at some point of the run. */
  lemma {:induction false} MembersThen(rows: seq<Position>, all: seq<Position>, names: Naming, done: set<Key>,
          x: Position)
    requires forall r :: r in rows ==> r in all
    ensures x in MergedUpTo(rows, all, names, done) <==> exists r :: r in rows && x in Piece(all, names, done, r)
  {
    if rows != [] {
      var front, last := rows[..|rows| - 1], rows[|rows| - 1];
      assert rows == front + [last];
      MembersThen(front, all, names, done, x);
      hide Piece;
    }
  }

  /** Which rows clash with the new name of the kept row of `k`, in terms of the table before the run. */
  lemma {:induction false} PieceInTheWay(all: seq<Position>, names: Naming, done: set<Key>, k: Key, r: Position)
    requires UniqueIds(all) && r in all && k in Crowded(all, names)
    requires forall k' :: k' in Keys(all, names) ==> (k' in done <==> FirstAt(all, names, k') < FirstAt(all, names, k))
    ensures Legs(all, names, k) != []
    ensures InTheWay(all, names, k, r) <==>
              exists x :: x in Piece(all, names, done, r) && x.id != MinId(Legs(all, names, k))
                          && x.strategyId == k.strategyId && x.side == Kept(Legs(all, names, k)).side
                          && x.symbol == k.symbol
  {
    var own := KeyOf(names, r);
    LegsMean(all, names, own);
    KeptMeans(Legs(all, names, own));
    hide Kept, MinId, FirstAt, Legs, KeyOf, TotalSize, MergedEntry;
    if Turned(all, names, own, k) && r.id == Kept(Legs(all, names, own)).id {
      SameId(all, r, Kept(Legs(all, names, own)));
    }
    var piece := Piece(all, names, done, r);
    if piece != [] {
      assert piece == [piece[0]] && piece[0] in piece;
    }
  }

  lemma {:induction false} KeptStands(all: seq<Position>, names: Naming, done: set<Key>, k: Key)
    requires k in Keys(all, names) && k !in done
    ensures var legs := Legs(all, names, k);
      && legs != [] && Kept(legs) in MergedUpTo(all, all, names, done) && KeyOf(names, Kept(legs)) == k
      && Kept(legs).id == MinId(legs)
  {
    LegsMean(all, names, k);
    var kept := Kept(Legs(all, names, k));
    KeptMeans(Legs(all, names, k));
    MembersThen(all, all, names, done, kept);
    assert kept in Piece(all, names, done, kept);
  }

  /** Every row of the table at some point of the run stems from the row that had its id. */
  lemma {:induction false} StemsFrom(all: seq<Position>, names: Naming, done: set<Key>, x: Position)
    returns (r: Position)
    requires x in MergedUpTo(all, all, names, done)
    ensures r in all && x in Piece(all, names, done, r) && x.id == r.id && x.strategyId == r.strategyId
            && x.side == r.side
  {
    MembersThen(all, all, names, done, x);
    r :| r in all && x in Piece(all, names, done, r);
    LegsMean(all, names, KeyOf(names, r));
  }

  /** At its turn the update for `k` is blocked exactly when some row stands in the way. */
  lemma {:induction false} BlockedAtTurn(all: seq<Position>, names: Naming, done: set<Key>, k: Key)
    requires UniqueIds(all) && k in Crowded(all, names)
    requires forall k' :: k' in Keys(all, names) ==> (k' in done <==> FirstAt(all, names, k') < FirstAt(all, names, k))
    ensures Legs(all, names, k) != []
    ensures Blocked(MergedUpTo(all, all, names, done), MinId(Legs(all, names, k)), k.symbol) <==>
              exists r :: r in all && InTheWay(all, names, k, r)
  {
    var now := MergedUpTo(all, all, names, done);
    KeptStands(all, names, done, k);
    var kept := Kept(Legs(all, names, k));
    assert kept.strategyId == k.strategyId;
    hide Kept, MinId, FirstAt, Legs, Piece, MergedUpTo, InTheWay, KeyOf, Crowded;
    if Blocked(now, kept.id, k.symbol) {
      var x, y :| x in now && y in now && x.id == kept.id && y.id != kept.id
                  && y.strategyId == x.strategyId && y.side == x.side && y.symbol == k.symbol;
      var r0 := StemsFrom(all, names, done, x);
      var k0 := StemsFrom(all, names, done, kept);
      SameId(all, r0, k0);
      var r := StemsFrom(all, names, done, y);
      PieceInTheWay(all, names, done, k, r);
    }
    if r :| r in all && InTheWay(all, names, k, r) {
      PieceInTheWay(all, names, done, k, r);
      var y :| y in Piece(all, names, done, r) && y.id != kept.id
               && y.strategyId == k.strategyId && y.side == kept.side && y.symbol == k.symbol;
      MembersThen(all, all, names, done, y);
    }
  }

  datatype Outcome = Finished(merged: nat) | UniqueViolation

  class PositionTable {
    var rows: seq<Position>

    /** `defaultdict(list)`: the groups, and their keys in the order of first appearance. */
    method Group(names: Naming) returns (groups: map<Key, seq<Position>>, order: seq<Key>)
      ensures GroupsOf(groups, order, rows, names)
    {
      groups, order := map[], [];
      for n := 0 to |rows|
        invariant GroupsOf(groups, order, rows[..n], names)
      {
        var k := KeyOf(names, rows[n]);
        assert rows[..n + 1] == rows[..n] + [rows[n]];
        GroupsGrow(groups, order, rows[..n], rows[n], names);
        GroupsKeys(groups, order, rows[..n], names);
        hide GroupsOf, KeyOf;
        if k !in groups {
          order := order + [k];
          groups := groups[k := [rows[n]]];
        } else {
          groups := groups[k := groups[k] + [rows[n]]];
        }
      }
      assert rows[..|rows|] == rows;
    }

    /** The whole run is one transaction: a violation raises, and the table is as it was. */
    method MergeDuplicateLegs(names: Naming, dryRun: bool) returns (r: Outcome)
      requires Legal(rows)
      modifies this
      ensures Legal(rows)
      ensures rows == if dryRun then old(rows) else AfterRun(old(rows), names)
      ensures r == if dryRun || Succeeds(old(rows), names) then Finished(|Crowded(old(rows), names)|)
                   else UniqueViolation
    {
      var all := rows;
      var groups, order := Group(names);
      hide *;
      var ok, merged := TakeTurns(groups, order, names, dryRun);
      if !ok {
        rows := all;
        RunFails(all, names);
        return UniqueViolation;
      }
      EndIs(groups, order, all, names, dryRun);
      r := Finished(merged);
    }

    /** The loop over the groups; it stops where an update raises. */
    method TakeTurns(groups: map<Key, seq<Position>>, order: seq<Key>, names: Naming, dryRun: bool)
      returns (ok: bool, merged: nat)
      requires Legal(rows) && GroupsOf(groups, order, rows, names)
      modifies this
      ensures Legal(rows)
      ensures ok ==> rows == Then(order, old(rows), names, dryRun) && Sofar(order, old(rows), names, dryRun)
      ensures ok ==> merged == CrowdedAmong(order, old(rows), names)
      ensures !ok ==> !dryRun && !Succeeds(old(rows), names)
    {
      ghost var all := rows;
      LegalIs(all);
      hide *;
      StartIs(order, all, names, dryRun);
      merged := 0;
      for n := 0 to |order|
        invariant Legal(rows) && rows == Then(order[..n], all, names, dryRun) && Sofar(order[..n], all, names, dryRun)
        invariant merged == CrowdedAmong(order[..n], all, names)
      {
        MergeNext(groups, order, n, all, names, dryRun);
        var items := groups[order[n]];
        if |items| > 1 {
          merged := merged + 1;
          if !dryRun {
            ok := Apply(items, order[n]);
            if !ok {
              return;
            }
          }
        }
      }
      assert order[..|order|] == order;
      ok := true;
    }

    /** The update of the kept row and the deletes of the others; nothing is deleted when the update raises. */
    method Apply(items: seq<Position>, k: Key) returns (ok: bool)
      requires Legal(rows) && |items| > 1
      modifies this
      ensures Legal(rows)
      ensures ok <==> !Blocked(old(rows), MinId(items), k.symbol)
      ensures rows == if ok then Statements(old(rows), items, k) else old(rows)
    {
      var entry := if TotalSize(items) > 0.0 then Notional(items) / TotalSize(items) else items[0].entry;
      var keepId := MinId(items);
      assert entry == MergedEntry(items);
      hide Update, Delete, TotalSize, MergedEntry, MinId, Blocked, UniqueLegs, UniqueIds;
      UpdateLegal(rows, keepId, k.symbol, TotalSize(items), entry);
      if Blocked(rows, keepId, k.symbol) {
        return false;
      }
      rows := Update(rows, keepId, k.symbol, TotalSize(items), entry);
      DropsAre(items);
      DeleteEach(DropList(items, keepId));
      return true;
    }

    method DeleteEach(dropIds: seq<int>)
      requires Legal(rows)
      modifies this
      ensures Legal(rows) && rows == Delete(old(rows), Elements(dropIds))
    {
      hide Delete, Legal;
      ghost var was := rows;
      DeleteNone(was);
      assert Elements(dropIds[..0]) == {};
      for i := 0 to |dropIds|
        invariant Legal(rows) && rows == Delete(was, Elements(dropIds[..i]))
      {
        DeleteMore(was, Elements(dropIds[..i]), dropIds[i]);
        assert dropIds[..i + 1] == dropIds[..i] + [dropIds[i]];
        assert Elements(dropIds[..i + 1]) == Elements(dropIds[..i]) + {dropIds[i]};
        DeleteLegal(rows, {dropIds[i]});
        rows := Delete(rows, {dropIds[i]});
      }
      assert dropIds[..|dropIds|] == dropIds;
    }
  }

  // ---------------------------------------------------------------- the steps of a run

  /** The table after the groups of the listed keys. */
  ghost function AfterKeys(keys: seq<Key>, all: seq<Position>, names: Naming): seq<Position> {
    MergedUpTo(all, all, names, AllOf(keys))
  }

  ghost function CrowdedAmong(keys: seq<Key>, all: seq<Position>, names: Naming): nat {
    |AllOf(keys) * Crowded(all, names)|
  }

  /** Nothing stands in the way of the group of `k`, if it has to be merged. */
  ghost predicate Free(k: Key, all: seq<Position>, names: Naming) {
    k in Crowded(all, names) ==> forall r :: r in all ==> !InTheWay(all, names, k, r)
  }

  ghost predicate FreeUpTo(keys: seq<Key>, all: seq<Position>, names: Naming) {
    forall k :: k in keys ==> Free(k, all, names)
  }

  /** The table at some point of a run, dry or not. */
  ghost function Then(keys: seq<Key>, all: seq<Position>, names: Naming, dryRun: bool): seq<Position> {
    if dryRun then all else AfterKeys(keys, all, names)
  }

  /** Nothing has gone wrong so far. */
  ghost predicate Sofar(keys: seq<Key>, all: seq<Position>, names: Naming, dryRun: bool) {
    dryRun || FreeUpTo(keys, all, names)
  }

  lemma {:induction false} LegalIs(rows: seq<Position>)
    ensures Legal(rows) <==> UniqueIds(rows) && UniqueLegs(rows)
  {
  }

  lemma {:induction false} StartIs(order: seq<Key>, all: seq<Position>, names: Naming, dryRun: bool)
    ensures Then(order[..0], all, names, dryRun) == all && Sofar(order[..0], all, names, dryRun)
    ensures CrowdedAmong(order[..0], all, names) == 0
  {
    assert AllOf(order[..0]) == {};
    assert AllOf(order[..0]) * Crowded(all, names) == {};
    NothingMerged(all, all, names);
  }

  lemma {:induction false} EndIs(groups: map<Key, seq<Position>>, order: seq<Key>, all: seq<Position>, names: Naming,
          dryRun: bool)
    requires GroupsOf(groups, order, all, names) && Sofar(order, all, names, dryRun)
    ensures Then(order, all, names, dryRun) == if dryRun then all else AfterRun(all, names)
    ensures CrowdedAmong(order, all, names) == |Crowded(all, names)|
    ensures dryRun || Succeeds(all, names)
  {
    assert AllOf(order) * Crowded(all, names) == Crowded(all, names);
    hide InTheWay, Legs, Keys, MergedUpTo;
    forall k | k in Crowded(all, names)
      ensures k in order
    {
      CrowdedKeys(all, names, k);
      assert k in AllOf(order);
    }
  }

  lemma {:induction false} CrowdedKeys(all: seq<Position>, names: Naming, k: Key)
    requires k in Crowded(all, names)
    ensures k in Keys(all, names)
  {
  }

  lemma {:induction false} NotFree(k: Key, all: seq<Position>, names: Naming)
    requires !Free(k, all, names)
    ensures !Succeeds(all, names)
  {
    hide InTheWay, Crowded;
  }

  lemma {:induction false} RunFails(all: seq<Position>, names: Naming)
    requires !Succeeds(all, names)
    ensures AfterRun(all, names) == all
  {
    hide Succeeds;
  }

  /** The step from the first n keys to one more. */
  lemma {:induction false} MergeNext(groups: map<Key, seq<Position>>, order: seq<Key>, n: nat, all: seq<Position>,
          names: Naming, dryRun: bool)
    requires UniqueIds(all) && GroupsOf(groups, order, all, names) && n < |order|
             && Sofar(order[..n], all, names, dryRun)
    ensures order[n] in groups && groups[order[n]] != []
    ensures var (was, now) := (Then(order[..n], all, names, dryRun), Then(order[..n + 1], all, names, dryRun));
      var legs := groups[order[n]];
      && CrowdedAmong(order[..n + 1], all, names) ==
           CrowdedAmong(order[..n], all, names) + (if |legs| > 1 then 1 else 0)
      && now == (if |legs| > 1 && !dryRun then Statements(was, legs, order[n]) else was)
      && (if |legs| > 1 && !dryRun && Blocked(was, MinId(legs), order[n].symbol) then
            !Succeeds(all, names)
          else
            Sofar(order[..n + 1], all, names, dryRun))
  {
    ThenIs(order[..n], all, names, dryRun);
    ThenIs(order[..n + 1], all, names, dryRun);
    hide *;
    var k, done := order[n], AllOf(order[..n]);
    EarlierKeys(groups, order, n, all, names);
    AfterKeysIs(order[..n], all, names);
    AfterKeysIs(order[..n + 1], all, names);
    MergeStep(all, names, done, k);
    CrowdStep(all, names, done, k);
    FreeSnoc(order, n, all, names);
    FreeIs(k, all, names);
    if |groups[k]| > 1 {
      BlockedAtTurn(all, names, done, k);
    }
    if !Free(k, all, names) {
      NotFree(k, all, names);
    }
  }

  lemma {:induction false} ThenIs(keys: seq<Key>, all: seq<Position>, names: Naming, dryRun: bool)
    ensures Then(keys, all, names, dryRun) == (if dryRun then all else AfterKeys(keys, all, names))
    ensures Sofar(keys, all, names, dryRun) <==> dryRun || FreeUpTo(keys, all, names)
  {
  }

  lemma {:induction false} AfterKeysIs(keys: seq<Key>, all: seq<Position>, names: Naming)
    ensures AfterKeys(keys, all, names) == MergedUpTo(all, all, names, AllOf(keys))
    ensures CrowdedAmong(keys, all, names) == |AllOf(keys) * Crowded(all, names)|
  {
  }

  lemma {:induction false} FreeSnoc(order: seq<Key>, n: nat, all: seq<Position>, names: Naming)
    requires n < |order|
    ensures FreeUpTo(order[..n], all, names) && Free(order[n], all, names) ==> FreeUpTo(order[..n + 1], all, names)
  {
    hide Free;
    assert order[..n + 1] == order[..n] + [order[n]];
  }

  lemma {:induction false} FreeIs(k: Key, all: seq<Position>, names: Naming)
    ensures k in Crowded(all, names) ==> Legs(all, names, k) != []
    ensures Free(k, all, names) <==> (k in Crowded(all, names) ==> !exists r :: r in all && InTheWay(all, names, k, r))
  {
    hide InTheWay;
  }

  /** The keys before the n-th are those that appear before it in the table. */
  lemma {:induction false} EarlierKeys(groups: map<Key, seq<Position>>, order: seq<Key>, n: nat, all: seq<Position>,
          names: Naming)
    requires GroupsOf(groups, order, all, names) && n < |order|
    ensures var (k, done) := (order[n], AllOf(order[..n]));
      && k in groups && k in Keys(all, names) && groups[k] == Legs(all, names, k)
      && k !in done && AllOf(order[..n + 1]) == done + {k}
      && (k in Crowded(all, names) <==> |Legs(all, names, k)| > 1)
      && forall k' :: k' in Keys(all, names) ==> (k' in done <==> FirstAt(all, names, k') < FirstAt(all, names, k))
  {
    var k, done := order[n], AllOf(order[..n]);
    assert order[..n + 1] == order[..n] + [k];
    assert k in AllOf(order) && AllOf(order) == Keys(all, names);
    assert k in Crowded(all, names) <==> |Legs(all, names, k)| > 1;
    hide Legs, FirstAt, Keys, Crowded;
    forall k' | k' in Keys(all, names)
      ensures k' in done <==> FirstAt(all, names, k') < FirstAt(all, names, k)
    {
      assert k' in AllOf(order);
      var i: nat :| i < |order| && order[i] == k';
      if i < n {
        assert order[..n][i] == k';
      }
      if k' in done {
        var j: nat :| j < n && order[..n][j] == k';
        assert order[j] == k';
      }
    }
  }

  lemma {:induction false} MergeStep(all: seq<Position>, names: Naming, done: set<Key>, k: Key)
    requires UniqueIds(all) && k !in done && k in Keys(all, names)
    ensures var legs := Legs(all, names, k);
      && legs != []
      && MergedUpTo(all, all, names, done + {k}) ==
           if |legs| > 1 then Statements(MergedUpTo(all, all, names, done), legs, k)
           else MergedUpTo(all, all, names, done)
  {
    LegsMean(all, names, k);
    hide MergedUpTo, Legs, Keys, Statements, UniqueIds;
    if |Legs(all, names, k)| > 1 {
      MergeOneGroup(all, all, names, done, k);
    } else {
      MergeSmallGroup(all, all, names, done, k);
    }
  }

  lemma {:induction false} CrowdStep(all: seq<Position>, names: Naming, done: set<Key>, k: Key)
    requires k !in done && k in Keys(all, names)
    ensures |(done + {k}) * Crowded(all, names)| ==
              |done * Crowded(all, names)| + if |Legs(all, names, k)| > 1 then 1 else 0
  {
    assert k in Crowded(all, names) <==> |Legs(all, names, k)| > 1;
    hide Crowded, Legs, Keys;
    var some := done * Crowded(all, names);
    if k in Crowded(all, names) {
      assert (done + {k}) * Crowded(all, names) == some + {k} && k !in some;
    } else {
      assert (done + {k}) * Crowded(all, names) == some;
    }
  }

  function Elements(ids: seq<int>): set<int> {
    set i | i in ids
  }

  function DropList(legs: seq<Position>, keep: int): seq<int> {
    if legs == [] then []
    else DropList(legs[..|legs| - 1], keep) + if legs[|legs| - 1].id != keep then [legs[|legs| - 1].id] else []
  }

  lemma {:induction false} DropListMeans(legs: seq<Position>, keep: int)
    ensures forall i :: i in DropList(legs, keep) <==> exists r :: r in legs && r.id == i && i != keep
  {
    if legs != [] {
      var front, last := legs[..|legs| - 1], legs[|legs| - 1];
      assert legs == front + [last];
      DropListMeans(front, keep);
      forall i
        ensures i in DropList(legs, keep) <==> exists r :: r in legs && r.id == i && i != keep
      {
        if i in DropList(front, keep) {
          var r :| r in front && r.id == i && i != keep;
          assert r in legs;
        }
        if last.id == i && i != keep {
          assert last in legs;
        }
        if exists r :: r in legs && r.id == i && i != keep {
          var r :| r in legs && r.id == i && i != keep;
          assert r in front || r == last;
        }
      }
    }
  }

  lemma {:induction false} DropsAre(legs: seq<Position>)
    requires legs != []
    ensures Elements(DropList(legs, MinId(legs))) == Dropped(legs)
  {
    DropListMeans(legs, MinId(legs));
    hide DropList, MinId;
    forall i
      ensures i in Elements(DropList(legs, MinId(legs))) <==> i in Dropped(legs)
    {
    }
  }

  // ---------------------------------------------------------------- what a merge conserves

  function Fates(part: seq<Position>, legs: seq<Position>, k: Key): seq<Position>
    requires legs != []
  {
    if part == [] then [] else Fates(part[..|part| - 1], legs, k) + Fate(legs, k, part[|part| - 1])
  }

  lemma {:induction false} LegsConcat(a: seq<Position>, b: seq<Position>, names: Naming, k: Key)
    ensures Legs(a + b, names, k) == Legs(a, names, k) + Legs(b, names, k)
  {
    if b == [] {
      assert a + b == a;
    } else {
      assert (a + b)[..|a + b| - 1] == a + b[..|b| - 1];
      LegsConcat(a, b[..|b| - 1], names, k);
    }
  }

  /** A merged row keeps its key. */
  lemma {:induction false} FateKey(names: Naming, legs: seq<Position>, r: Position, k: Key)
    requires Settled(names) && legs != []
    ensures |Fate(legs, KeyOf(names, r), r)| <= 1
    ensures forall x :: x in Fate(legs, KeyOf(names, r), r) ==> KeyOf(names, x) == KeyOf(names, r)
    ensures Legs(Fate(legs, KeyOf(names, r), r), names, k) == if KeyOf(names, r) == k then Fate(legs, k, r) else []
  {
    var fate := Fate(legs, KeyOf(names, r), r);
    if fate != [] {
      assert fate == [fate[0]] && [fate[0]][..0] == [];
      assert Legs([], names, k) == [];
    }
  }

  lemma {:induction false} LegsOfMerged(rows: seq<Position>, all: seq<Position>, names: Naming, done: set<Key>, k: Key)
    requires Settled(names) && (forall r :: r in rows ==> r in all) && Legs(all, names, k) != []
    ensures Legs(MergedUpTo(rows, all, names, done), names, k) ==
              if k in done then Fates(Legs(rows, names, k), Legs(all, names, k), k) else Legs(rows, names, k)
  {
    if rows != [] {
      var front, r := rows[..|rows| - 1], rows[|rows| - 1];
      var k' := KeyOf(names, r);
      LegsOfMerged(front, all, names, done, k);
      LegsMean(all, names, k');
      var piece := if k' in done then Fate(Legs(all, names, k'), k', r) else [r];
      assert MergedUpTo(rows, all, names, done) == MergedUpTo(front, all, names, done) + piece;
      hide MergedUpTo, Settled;
      LegsConcat(MergedUpTo(front, all, names, done), piece, names, k);
      FateKey(names, Legs(all, names, k'), r, k);
      hide Fate;
      if k' !in done {
        assert [r][..0] == [] && Legs([], names, k) == [];
      }
      if k' == k {
        var legs := Legs(front, names, k);
        assert (legs + [r])[..|legs|] == legs;
      }
    }
  }

  lemma {:induction false} OneFate(part: seq<Position>, legs: seq<Position>, k: Key)
    requires |legs| > 1 && UniqueIds(part)
    ensures |Fates(part, legs, k)| == if exists r :: r in part && r.id == MinId(legs) then 1 else 0
    ensures forall x :: x in Fates(part, legs, k) ==>
              x.id == MinId(legs) && x.size == TotalSize(legs) && x.entry == MergedEntry(legs)
  {
    if part != [] {
      var front, last := part[..|part| - 1], part[|part| - 1];
      assert part == front + [last];
      OneFate(front, legs, k);
      LastAlone(front, last);
      hide TotalSize, MergedEntry, MinId, UniqueIds;
      assert forall r :: r in part <==> r in front || r == last;
      if last.id == MinId(legs) {
        assert Fates(front, legs, k) == [];
      } else {
        assert Fates(part, legs, k) == Fates(front, legs, k);
      }
    }
  }

  lemma {:induction false} LastAlone(front: seq<Position>, last: Position)
    requires UniqueIds(front + [last])
    ensures forall r :: r in front ==> r.id != last.id
  {
    var part := front + [last];
    forall r | r in front
      ensures r.id != last.id
    {
      var i: nat :| i < |front| && front[i] == r;
      assert part[i] == r && part[|front|] == last;
    }
  }

  /** What a merge leaves of a group. */
  function Left(rows: seq<Position>, names: Naming, k: Key): seq<Position> {
    Legs(Merged(rows, names), names, k)
  }

  lemma {:induction false} GroupAfter(rows: seq<Position>, names: Naming, k: Key)
    requires Settled(names) && UniqueIds(rows) && k in Keys(rows, names)
    ensures var legs := Legs(rows, names, k);
      && legs != [] && |Left(rows, names, k)| == 1
      && (|legs| == 1 ==> Left(rows, names, k) == legs)
      && Left(rows, names, k)[0].id == MinId(legs)
      && (|legs| > 1 ==>
            Left(rows, names, k)[0].size == TotalSize(legs) && Left(rows, names, k)[0].entry == MergedEntry(legs))
  {
    var legs := Legs(rows, names, k);
    LegsMean(rows, names, k);
    LegsOfMerged(rows, rows, names, Keys(rows, names), k);
    MinIdMeans(legs);
    assert Left(rows, names, k) == Fates(legs, legs, k);
    hide Left, Legs, Keys, MinId, TotalSize, MergedEntry;
    if |legs| == 1 {
      assert legs[..0] == [] && Fates(legs[..0], legs, k) == [];
      assert Fates(legs, legs, k) == legs;
    } else {
      OneFate(legs, legs, k);
      assert Fates(legs, legs, k)[0] in Fates(legs, legs, k);
    }
  }

  lemma {:induction false} OneLeg(r: Position)
    ensures TotalSize([r]) == r.size && Notional([r]) == Worth(r)
  {
    assert [r][..0] == [];
    assert TotalSize([]) == 0.0 && Notional([]) == 0.0;
  }

  lemma {:induction false} MergeConserves(rows: seq<Position>, names: Naming, k: Key)
    requires Settled(names) && UniqueIds(rows) && k in Keys(rows, names)
    ensures var (legs, left) := (Legs(rows, names, k), Left(rows, names, k));
      && legs != [] && |left| == 1 && left[0].id == MinId(legs)
      && TotalSize(left) == TotalSize(legs)
      && (TotalSize(legs) > 0.0 || |legs| == 1 ==> Notional(left) == Notional(legs))
      && (TotalSize(legs) <= 0.0 && |legs| > 1 ==> left[0].entry == legs[0].entry)
  {
    GroupAfter(rows, names, k);
    var legs, left := Legs(rows, names, k), Left(rows, names, k);
    hide Legs, Left, MinId;
    assert left == [left[0]];
    OneLeg(left[0]);
    if |legs| > 1 && TotalSize(legs) > 0.0 {
      Quotient(Notional(legs), TotalSize(legs));
    }
  }

  /**
   A run conserves the position of every key, whether it succeeds or not: the total size
   always, the notional where the total size is positive. A run that succeeds leaves one row
   under the smallest id, one that fails leaves the rows as they were.
   */
  lemma {:induction false} PositionConserved(rows: seq<Position>, names: Naming, k: Key)
    requires Settled(names) && UniqueIds(rows) && k in Keys(rows, names)
    ensures var (legs, left) := (Legs(rows, names, k), Legs(AfterRun(rows, names), names, k));
      && TotalSize(left) == TotalSize(legs)
      && (TotalSize(legs) > 0.0 ==> Notional(left) == Notional(legs))
      && legs != []
      && (if Succeeds(rows, names) then |left| == 1 && left[0].id == MinId(legs) else left == legs)
      && (|legs| == 1 ==> left == legs)
  {
    LegsMean(rows, names, k);
    if Succeeds(rows, names) {
      MergeConserves(rows, names, k);
      GroupAfter(rows, names, k);
    }
    hide Succeeds, TotalSize, Notional, Legs;
  }

  lemma {:induction false} Quotient(n: real, d: real)
    requires d > 0.0
    ensures d * (n / d) == n
  {
  }

  function Times(a: real, b: real): real {
    a * b
  }

  lemma {:induction false} TimesOrder(a: real, b: real, c: real)
    requires a <= b && c >= 0.0
    ensures Times(a, c) <= Times(b, c)
  {
    assert (b - a) * c >= 0.0;
  }

  lemma {:induction false} TimesSum(a: real, s: real, t: real)
    ensures Times(a, s + t) == Times(a, s) + Times(a, t)
  {
  }

  lemma {:induction false} WorthIs(r: Position)
    ensures Worth(r) == Times(r.entry, r.size)
  {
  }

  /** The notional of legs of non-negative size lies between the bounds that their entries give. */
  lemma {:induction false} NotionalBounds(legs: seq<Position>, lo: real, hi: real)
    requires forall r :: r in legs ==> r.size >= 0.0 && lo <= r.entry <= hi
    ensures Times(lo, TotalSize(legs)) <= Notional(legs) <= Times(hi, TotalSize(legs)) && TotalSize(legs) >= 0.0
  {
    if legs != [] {
      var front, r := legs[..|legs| - 1], legs[|legs| - 1];
      assert r in legs && forall x :: x in front ==> x in legs;
      hide Times, Worth;
      NotionalBounds(front, lo, hi);
      TimesOrder(lo, r.entry, r.size);
      TimesOrder(r.entry, hi, r.size);
      WorthIs(r);
      TimesSum(lo, TotalSize(front), r.size);
      TimesSum(hi, TotalSize(front), r.size);
    }
  }

  /** The merged entry price lies between the smallest and the largest of the group. */
  lemma {:induction false} MergedBetween(rows: seq<Position>, names: Naming, k: Key, lo: real, hi: real)
    requires Settled(names) && UniqueIds(rows) && k in Keys(rows, names)
    requires forall r :: r in Legs(rows, names, k) ==> r.size >= 0.0 && lo <= r.entry <= hi
    requires TotalSize(Legs(rows, names, k)) > 0.0
    ensures var left := Left(rows, names, k); |left| == 1 && lo <= left[0].entry <= hi
  {
    GroupAfter(rows, names, k);
    var legs := Legs(rows, names, k);
    if |legs| == 1 {
      assert legs[0] in legs;
    } else {
      NotionalBounds(legs, lo, hi);
      hide TotalSize, Notional, Legs, Left, Times, MinId;
      MeanBetween(Notional(legs), TotalSize(legs), lo, hi);
    }
  }

  /** After a run, merged or not, no entry of the group is outside the bounds of its entries. */
  lemma {:induction false} EntryBetween(rows: seq<Position>, names: Naming, k: Key, lo: real, hi: real)
    requires Settled(names) && UniqueIds(rows) && k in Keys(rows, names)
    requires forall r :: r in Legs(rows, names, k) ==> r.size >= 0.0 && lo <= r.entry <= hi
    requires TotalSize(Legs(rows, names, k)) > 0.0
    ensures forall x :: x in Legs(AfterRun(rows, names), names, k) ==> lo <= x.entry <= hi
  {
    if Succeeds(rows, names) {
      MergedBetween(rows, names, k, lo, hi);
    }
    hide Succeeds, TotalSize, Legs;
  }

  lemma {:induction false} MeanBetween(n: real, t: real, lo: real, hi: real)
    requires t > 0.0 && Times(lo, t) <= n <= Times(hi, t)
    ensures lo <= n / t <= hi
  {
    var e := n / t;
    Quotient(n, t);
    if e < lo {
      Strictly(e, lo, t);
    }
    if e > hi {
      Strictly(hi, e, t);
    }
  }

  lemma {:induction false} Strictly(a: real, b: real, t: real)
    requires a < b && t > 0.0
    ensures a * t < b * t
  {
    assert (b - a) * t > 0.0;
  }

  // ---------------------------------------------------------------- a second run

  lemma {:induction false} AllAlone(rows: seq<Position>, all: seq<Position>, names: Naming, done: set<Key>)
    requires (forall r :: r in rows ==> r in all) && forall k :: k in Keys(all, names) ==> |Legs(all, names, k)| <= 1
    ensures MergedUpTo(rows, all, names, done) == rows
  {
    hide Legs, Keys, Piece, KeyOf;
    if rows != [] {
      var front, r := rows[..|rows| - 1], rows[|rows| - 1];
      AllAlone(front, all, names, done);
      AloneStays(all, names, done, r);
    }
  }

  lemma {:induction false} AloneStays(all: seq<Position>, names: Naming, done: set<Key>, r: Position)
    requires r in all && forall k :: k in Keys(all, names) ==> |Legs(all, names, k)| <= 1
    ensures Piece(all, names, done, r) == [r]
  {
    LegsMean(all, names, KeyOf(names, r));
    hide Legs, KeyOf;
  }

  lemma {:induction false} NoNewKey(rows: seq<Position>, all: seq<Position>, names: Naming, done: set<Key>, x: Position)
    requires Settled(names) && (forall r :: r in rows ==> r in all) && x in MergedUpTo(rows, all, names, done)
    ensures exists r :: r in rows && KeyOf(names, r) == KeyOf(names, x)
  {
    var front, r := rows[..|rows| - 1], rows[|rows| - 1];
    var k := KeyOf(names, r);
    LegsMean(all, names, k);
    FateKey(names, Legs(all, names, k), r, k);
    hide Fate, Legs, KeyOf, Settled, Keys;
    assert r in rows;
    if x in MergedUpTo(front, all, names, done) {
      NoNewKey(front, all, names, done, x);
      var y :| y in front && KeyOf(names, y) == KeyOf(names, x);
      assert y in rows;
    }
  }

  lemma {:induction false} MergedAgain(rows: seq<Position>, names: Naming)
    requires Settled(names) && UniqueIds(rows)
    ensures var once := Merged(rows, names);
      && Merged(once, names) == once && Crowded(once, names) == {} && Keys(once, names) == Keys(rows, names)
  {
    var once := Merged(rows, names);
    forall x | x in once
      ensures KeyOf(names, x) in Keys(rows, names)
    {
      NoNewKey(rows, rows, names, Keys(rows, names), x);
    }
    forall k
      ensures k in Keys(once, names) <==> k in Keys(rows, names)
      ensures k in Keys(rows, names) ==> |Legs(once, names, k)| == 1
    {
      LegsMean(once, names, k);
      if k in Keys(rows, names) {
        GroupAfter(rows, names, k);
      }
    }
    AllAlone(once, once, names, Keys(once, names));
  }

  /**
   A second run changes nothing: after a run that succeeds it succeeds and finds no group to
   merge, after one that fails it fails again.
   */
  lemma {:induction false} SecondRunDoesNothing(rows: seq<Position>, names: Naming)
    requires Settled(names) && UniqueIds(rows)
    ensures var once := AfterRun(rows, names);
      && AfterRun(once, names) == once && Keys(once, names) == Keys(rows, names)
      && (Succeeds(once, names) <==> Succeeds(rows, names))
      && (Succeeds(rows, names) ==> Crowded(once, names) == {})
  {
    if Succeeds(rows, names) {
      MergedAgain(rows, names);
      hide Merged, Keys, InTheWay, Crowded;
    }
  }

  // ---------------------------------------------------------------- ordinary duplicates

  /** A leg that is not kept but already has the canonical name, on the kept row's side, makes the run fail. */
  lemma {:induction false} CanonicalLegBlocks(rows: seq<Position>, names: Naming, k: Key, r: Position)
    requires k in Crowded(rows, names) && r in Legs(rows, names, k)
    requires r.id != MinId(Legs(rows, names, k)) && r.side == Kept(Legs(rows, names, k)).side && r.symbol == k.symbol
    ensures !Succeeds(rows, names) && AfterRun(rows, names) == rows
  {
    LegsMean(rows, names, k);
    hide Kept, MinId, Legs, Crowded;
    assert InTheWay(rows, names, k, r);
  }

  /** Two groups to be merged that differ only in market type, kept on the same side, make the run fail. */
  lemma {:induction false} MarketTwinsBlock(rows: seq<Position>, names: Naming, k: Key, k': Key)
    requires UniqueIds(rows) && k in Crowded(rows, names) && k' in Crowded(rows, names) && k != k'
    requires k.strategyId == k'.strategyId && k.symbol == k'.symbol && Legs(rows, names, k) != []
             && Legs(rows, names, k') != []
    requires Kept(Legs(rows, names, k)).side == Kept(Legs(rows, names, k')).side
    ensures !Succeeds(rows, names) && AfterRun(rows, names) == rows
  {
    FirstAtMeans(rows, names, k);
    FirstAtMeans(rows, names, k');
    TwinInTheWay(rows, names, k, k');
    TwinInTheWay(rows, names, k', k);
    LegsMean(rows, names, k);
    LegsMean(rows, names, k');
    KeptMeans(Legs(rows, names, k));
    KeptMeans(Legs(rows, names, k'));
    assert FirstAt(rows, names, k) != FirstAt(rows, names, k');
    hide InTheWay, Crowded, Kept, Legs, FirstAt;
  }

  lemma {:induction false} TwinInTheWay(rows: seq<Position>, names: Naming, k: Key, k': Key)
    requires UniqueIds(rows) && k in Crowded(rows, names) && k' in Crowded(rows, names) && k != k'
    requires k.strategyId == k'.strategyId && k.symbol == k'.symbol && Legs(rows, names, k) != []
             && Legs(rows, names, k') != []
    requires Kept(Legs(rows, names, k)).side == Kept(Legs(rows, names, k')).side
    ensures FirstAt(rows, names, k') < FirstAt(rows, names, k) ==> InTheWay(rows, names, k, Kept(Legs(rows, names, k')))
  {
    var kept, other := Kept(Legs(rows, names, k)), Kept(Legs(rows, names, k'));
    LegsMean(rows, names, k);
    LegsMean(rows, names, k');
    KeptMeans(Legs(rows, names, k));
    KeptMeans(Legs(rows, names, k'));
    if kept.id == other.id {
      SameId(rows, kept, other);
    }
    hide Kept, MinId, Legs, Crowded, FirstAt;
  }

  /**
   Two rows of one group, in the order of their ids: the run merges them exactly when the
   second does not already have the canonical name on the side of the first. So an old spelling
   followed by a canonical one, the ordinary duplicate, is never merged; the other way round
   it is.
   */
  lemma {:induction false} PairMergesExactly(names: Naming, a: Position, b: Position)
    requires a.id < b.id && KeyOf(names, a) == KeyOf(names, b)
    ensures var k := KeyOf(names, a);
      Succeeds([a, b], names) <==> !(b.symbol == k.symbol && b.side == a.side)
  {
    var k, rows := KeyOf(names, a), [a, b];
    PairLegs(names, a, b);
    hide Kept, MinId, Legs, FirstAt;
    assert b in rows && (forall r :: r in rows ==> r == a || r == b);
    assert forall x :: x in Keys(rows, names) ==> x == k;
    assert k in Crowded(rows, names);
  }

  lemma {:induction false} PairLegs(names: Naming, a: Position, b: Position)
    requires a.id < b.id && KeyOf(names, a) == KeyOf(names, b)
    ensures var legs := Legs([a, b], names, KeyOf(names, a)); legs == [a, b] && Kept(legs) == a && MinId(legs) == a.id
  {
    assert [a, b][..1] == [a] && [a][..0] == [];
    assert Legs([a], names, KeyOf(names, a)) == [a];
  }

  /** An old spelling followed by the canonical one: both rows are legal, and the run changes nothing. */
  lemma {:induction false} OldSpellingFirst(names: Naming, size: real, entry: real)
    requires names.upper("BTC/USDT") == "BTC/USDT"
    ensures var a := Position(1, 7, "swap", "long", "BTCUSDT", "BTC/USDT", size, entry);
      var b := Position(2, 7, "swap", "long", "BTC/USDT", "BTC/USDT", size, entry);
      && Legal([a, b]) && KeyOf(names, a) == KeyOf(names, b)
      && !Succeeds([a, b], names) && AfterRun([a, b], names) == [a, b]
  {
    var a := Position(1, 7, "swap", "long", "BTCUSDT", "BTC/USDT", size, entry);
    var b := Position(2, 7, "swap", "long", "BTC/USDT", "BTC/USDT", size, entry);
    assert |a.symbol| == 7 && |b.symbol| == 8;
    PairMergesExactly(names, a, b);
    hide Succeeds;
  }

  // ---------------------------------------------------------------- by the rows' fields

  /** Rows are one position when strategy, market type, side and upper-cased canonical symbol agree. */
  lemma {:induction false} SamePositionExactly(names: Naming, a: Position, b: Position)
    ensures (exists k, rows :: a in Legs(rows, names, k) && b in Legs(rows, names, k)) <==>
              && a.strategyId == b.strategyId
              && names.market(a.marketType) == names.market(b.marketType)
              && names.side(a.side) == names.side(b.side)
              && names.upper(if a.canonical != "" then a.canonical else names.canon(a.symbol))
                 == names.upper(if b.canonical != "" then b.canonical else names.canon(b.symbol))
  {
    forall k, rows
      ensures a in Legs(rows, names, k) && b in Legs(rows, names, k) ==> KeyOf(names, a) == KeyOf(names, b)
    {
      LegsMean(rows, names, k);
    }
    LegsMean([a, b], names, KeyOf(names, a));
  }

  /** The values that make a position. */
  datatype Wanted = Wanted(strategyId: int, market: string, side: string, symbol: string)

  predicate Fits(r: Position, names: Naming, p: Wanted) {
    && r.strategyId == p.strategyId && names.market(r.marketType) == p.market && names.side(r.side) == p.side
    && (r.canonical != "" ==> names.upper(r.canonical) == p.symbol)
    && (r.canonical == "" ==> names.upper(names.canon(r.symbol)) == p.symbol)
  }

  function SizeOf(rows: seq<Position>, names: Naming, p: Wanted): real {
    if rows == [] then 0.0
    else SizeOf(rows[..|rows| - 1], names, p)
         + if Fits(rows[|rows| - 1], names, p) then rows[|rows| - 1].size else 0.0
  }

  function WorthOf(rows: seq<Position>, names: Naming, p: Wanted): real {
    if rows == [] then 0.0
    else WorthOf(rows[..|rows| - 1], names, p)
         + if Fits(rows[|rows| - 1], names, p) then rows[|rows| - 1].size * rows[|rows| - 1].entry else 0.0
  }

  function CountOf(rows: seq<Position>, names: Naming, p: Wanted): nat {
    if rows == [] then 0
    else CountOf(rows[..|rows| - 1], names, p) + if Fits(rows[|rows| - 1], names, p) then 1 else 0
  }

  lemma {:induction false} FieldsAreLegs(rows: seq<Position>, names: Naming, p: Wanted)
    ensures var legs := Legs(rows, names, Key(p.strategyId, p.market, p.side, p.symbol));
      && SizeOf(rows, names, p) == TotalSize(legs) && WorthOf(rows, names, p) == Notional(legs)
      && CountOf(rows, names, p) == |legs|
  {
    if rows != [] {
      var front, r, k := rows[..|rows| - 1], rows[|rows| - 1], Key(p.strategyId, p.market, p.side, p.symbol);
      FieldsAreLegs(front, names, p);
      FitsIsKey(r, names, p);
      var legs := Legs(front, names, k);
      hide Fits, KeyOf;
      assert (legs + [r])[..|legs|] == legs;
    }
  }

  lemma {:induction false} FitsIsKey(r: Position, names: Naming, p: Wanted)
    ensures Fits(r, names, p) <==> KeyOf(names, r) == Key(p.strategyId, p.market, p.side, p.symbol)
  {
  }

  /**
   For every strategy, market type, side and symbol: a run conserves the total size over the rows
   with these values, and what they are worth where that size is positive; a run that succeeds
   leaves one row of them, if there was any, and one that fails as many as there were.
   */
  lemma {:induction false} SizeConserved(rows: seq<Position>, names: Naming, p: Wanted)
    requires Settled(names) && UniqueIds(rows)
    ensures var after := AfterRun(rows, names);
      && SizeOf(after, names, p) == SizeOf(rows, names, p)
      && (SizeOf(rows, names, p) > 0.0 ==> WorthOf(after, names, p) == WorthOf(rows, names, p))
      && CountOf(after, names, p) ==
           if Succeeds(rows, names) then (if CountOf(rows, names, p) > 0 then 1 else 0) else CountOf(rows, names, p)
  {
    var k, after := Key(p.strategyId, p.market, p.side, p.symbol), AfterRun(rows, names);
    FieldsAreLegs(rows, names, p);
    FieldsAreLegs(after, names, p);
    LegsMean(rows, names, k);
    LegsMean(after, names, k);
    SecondRunDoesNothing(rows, names);
    hide AfterRun, Succeeds, Legs, TotalSize, Notional, SizeOf, WorthOf, CountOf, Keys, Settled;
    if k in Keys(rows, names) {
      PositionConserved(rows, names, k);
    }
  }
}
