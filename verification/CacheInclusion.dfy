/**
 When a larger cache of backend/app/data_sources/cache_manager.py keeps what a smaller one
 keeps. `set` evicts before it looks whether the key is there, and an overwrite keeps the old
 place, so the inclusion property of plain LRU caches needs a condition.
 */
module CacheInclusion {
  import opened Basics
  import opened DataCache

  // ---------------------------------------------------------------- leaving cells out

  function KeySet(cells: seq<Cell>): set<string> {
    set c | c in cells :: c.key
  }

  lemma {:induction false} WithoutConcat(a: seq<Cell>, b: seq<Cell>, keys: set<string>)
    ensures Without(a + b, keys) == Without(a, keys) + Without(b, keys)
  {
    if b == [] {
      assert a + b == a;
    } else {
      assert (a + b)[..|a + b| - 1] == a + b[..|b| - 1];
      WithoutConcat(a, b[..|b| - 1], keys);
    }
  }

  lemma {:induction false} WithoutOne(c: Cell, keys: set<string>)
    ensures Without([c], keys) == if c.key in keys then [] else [c]
  {
    assert [c][..0] == [];
  }

  lemma {:induction false} WithoutTwice(cells: seq<Cell>, a: set<string>, b: set<string>)
    ensures Without(Without(cells, a), b) == Without(cells, a + b)
  {
    if cells != [] {
      var front, c := cells[..|cells| - 1], cells[|cells| - 1];
      WithoutTwice(front, a, b);
      if c.key !in a {
        WithoutConcat(Without(front, a), [c], b);
        WithoutOne(c, b);
      }
    }
  }

  lemma {:induction false} WithoutAgrees(cells: seq<Cell>, a: set<string>, b: set<string>)
    requires forall c :: c in cells ==> (c.key in a <==> c.key in b)
    ensures Without(cells, a) == Without(cells, b)
  {
    if cells != [] {
      WithoutAgrees(cells[..|cells| - 1], a, b);
    }
  }

  lemma {:induction false} UniqueFront(front: seq<Cell>, c: Cell)
    requires Unique(front + [c])
    ensures Unique(front)
  {
    assert forall i :: 0 <= i < |front| ==> front[i] == (front + [c])[i];
  }

  lemma {:induction false} WithoutSize(cells: seq<Cell>, keys: set<string>)
    requires Unique(cells)
    ensures |Without(cells, keys)| == |cells| - |KeySet(cells) * keys|
  {
    if cells != [] {
      var front, c := cells[..|cells| - 1], cells[|cells| - 1];
      assert cells == front + [c];
      UniqueFront(front, c);
      WithoutSize(front, keys);
      FreshKey(front, c);
      hide Unique, KeySet;
      var some := KeySet(front) * keys;
      if c.key in keys {
        assert KeySet(cells) * keys == some + {c.key};
      } else {
        assert KeySet(cells) * keys == some;
      }
    } else {
      assert KeySet(cells) * keys == {};
    }
  }

  lemma {:induction false} FreshKey(front: seq<Cell>, c: Cell)
    requires Unique(front + [c])
    ensures c.key !in KeySet(front) && KeySet(front + [c]) == KeySet(front) + {c.key}
  {
    var all := front + [c];
    forall x | x in front
      ensures x.key != c.key
    {
      var i: nat :| i < |front| && front[i] == x;
      assert all[i] == x && all[|front|] == c;
    }
  }

  lemma {:induction false} SameKeySameCell(cells: seq<Cell>, a: Cell, b: Cell)
    requires Unique(cells) && a in cells && b in cells && a.key == b.key
    ensures a == b
  {
    UniqueAt(cells, a);
    UniqueAt(cells, b);
  }

  // ---------------------------------------------------------------- two caches

  /** The smaller cache's cells stand in the larger one, in the same order. */
  ghost predicate InSameOrder(small: seq<Cell>, large: seq<Cell>) {
    exists gone :: Without(large, gone) == small
  }

  /** Two caches of sizes n <= m: cells of the first are in the second, and the second is not too far ahead. */
  ghost predicate Within(small: seq<Cell>, large: seq<Cell>, n: nat, m: nat) {
    && Unique(small) && Unique(large) && |small| <= n && |large| <= m
    && (forall c :: c in small ==> c in large)
    && |large| - |small| <= m - n
  }

  lemma {:induction false} OrderIsWithin(small: seq<Cell>, large: seq<Cell>)
    requires InSameOrder(small, large)
    ensures forall c :: c in small ==> c in large
  {
    var gone :| Without(large, gone) == small;
    WithoutMeans(large, gone);
  }

  lemma {:induction false} Witness(small: seq<Cell>, large: seq<Cell>, gone: set<string>)
    requires Without(large, gone) == small
    ensures InSameOrder(small, large)
  {
  }

  /** Taking the same keys out of both. */
  lemma {:induction false} RemovalKeeps(small: seq<Cell>, large: seq<Cell>, n: nat, m: nat, keys: set<string>)
    requires Within(small, large, n, m)
    ensures Within(Without(small, keys), Without(large, keys), n, m)
    ensures InSameOrder(small, large) ==> InSameOrder(Without(small, keys), Without(large, keys))
    ensures |Without(large, keys)| == m ==> |large| == m
  {
    WithoutMeans(small, keys);
    WithoutMeans(large, keys);
    WithoutSize(small, keys);
    WithoutSize(large, keys);
    assert KeySet(small) * keys <= KeySet(large) * keys;
    FewerKeys(KeySet(small) * keys, KeySet(large) * keys);
    if gone :| Without(large, gone) == small {
      WithoutTwice(large, gone, keys);
      WithoutTwice(large, keys, gone);
      assert gone + keys == keys + gone;
      Witness(Without(small, keys), Without(large, keys), gone);
    }
  }

  lemma {:induction false} FewerKeys(a: set<string>, b: set<string>)
    requires a <= b
    ensures |a| <= |b|
  {
    assert b == a + (b - a);
  }

  /** A key of the smaller cache finds the same cell in both. */
  lemma {:induction false} SameCell(small: seq<Cell>, large: seq<Cell>, n: nat, m: nat, k: string)
    requires Within(small, large, n, m) && Has(small, k)
    ensures Has(large, k) && At(large, k) == At(small, k)
  {
    assert At(small, k) in small;
    UniqueAt(large, At(small, k));
  }

  /** A hit in both caches. */
  lemma {:induction false} BothHit(small: seq<Cell>, large: seq<Cell>, n: nat, m: nat, k: string)
    requires Within(small, large, n, m) && Has(small, k)
    ensures Has(large, k) && |Touched(large, k)| == |large|
    ensures Within(Touched(small, k), Touched(large, k), n, m)
    ensures InSameOrder(small, large) ==> InSameOrder(Touched(small, k), Touched(large, k))
  {
    RemovalKeeps(small, large, n, m, {k});
    SameCell(small, large, n, m, k);
    TouchedFits(large, k);
    TouchedFits(small, k);
    hide Without, InSameOrder, IndexOf, Unique;
    if InSameOrder(small, large) {
      OrderAppends(Without(small, {k}), Without(large, {k}), At(large, k).(hitCount := At(large, k).hitCount + 1));
    }
  }

  /** A hit in the larger cache on a key that the smaller one lacks. */
  lemma {:induction false} LargerHit(small: seq<Cell>, large: seq<Cell>, n: nat, m: nat, k: string)
    requires Within(small, large, n, m) && Has(large, k) && !Has(small, k)
    ensures |Touched(large, k)| == |large|
    ensures Within(small, Touched(large, k), n, m)
    ensures InSameOrder(small, large) ==> InSameOrder(small, Touched(large, k))
  {
    RemovalKeeps(small, large, n, m, {k});
    TouchedFits(large, k);
    AbsentStays(small, k);
    hide Without, IndexOf, Unique;
    if InSameOrder(small, large) {
      OrderIgnores(small, Without(large, {k}), At(large, k).(hitCount := At(large, k).hitCount + 1));
    }
  }

  /** Appending a cell to the larger cache alone. */
  lemma {:induction false} OrderIgnores(small: seq<Cell>, large: seq<Cell>, c: Cell)
    requires InSameOrder(small, large) && forall x :: x in small ==> x.key != c.key
    ensures InSameOrder(small, large + [c])
  {
    var gone :| Without(large, gone) == small;
    hide Without;
    WithoutTwice(large, gone, {c.key});
    WithoutNone(small, {c.key});
    WithoutConcat(large, [c], gone + {c.key});
    WithoutOne(c, gone + {c.key});
    assert small + [] == small;
    Witness(small, large + [c], gone + {c.key});
  }

  /** A hit in the larger cache. */
  lemma {:induction false} HitKeeps(small: seq<Cell>, large: seq<Cell>, n: nat, m: nat, k: string)
    requires Within(small, large, n, m) && Has(large, k)
    ensures var after := if Has(small, k) then Touched(small, k) else small;
      && Within(after, Touched(large, k), n, m)
      && (InSameOrder(small, large) ==> InSameOrder(after, Touched(large, k)))
    ensures |Touched(large, k)| == |large|
  {
    hide *;
    if Has(small, k) {
      BothHit(small, large, n, m, k);
    } else {
      LargerHit(small, large, n, m, k);
    }
  }

  lemma {:induction false} AbsentStays(cells: seq<Cell>, k: string)
    requires !Has(cells, k)
    ensures Without(cells, {k}) == cells && forall c :: c in cells ==> c.key != k
  {
    AbsentMeans(cells, k);
    WithoutNone(cells, {k});
  }

  lemma {:induction false} TouchedFits(cells: seq<Cell>, k: string)
    requires Unique(cells) && Has(cells, k)
    ensures Unique(Touched(cells, k)) && |Touched(cells, k)| == |cells|
    ensures !Has(Without(cells, {k}), k)
    ensures forall c :: c in Touched(cells, k) <==>
              c in Without(cells, {k}) || c == At(cells, k).(hitCount := At(cells, k).hitCount + 1)
  {
    WithoutMeans(cells, {k});
    WithoutSize(cells, {k});
    assert At(cells, k) in cells;
    assert KeySet(cells) * {k} == {k};
    AbsentMeans(Without(cells, {k}), k);
  }

  /** Appending the same new cell to both. */
  lemma {:induction false} OrderAppends(small: seq<Cell>, large: seq<Cell>, c: Cell)
    requires InSameOrder(small, large) && !Has(large, c.key)
    ensures InSameOrder(small + [c], large + [c])
  {
    var gone :| Without(large, gone) == small;
    AbsentMeans(large, c.key);
    WithoutAgrees(large, gone, gone - {c.key});
    WithoutConcat(large, [c], gone - {c.key});
    WithoutOne(c, gone - {c.key});
    Witness(small + [c], large + [c], gone - {c.key});
  }

  lemma {:induction false} FirstKeyAlone(c: Cell, rest: seq<Cell>)
    requires Unique([c] + rest)
    ensures Unique(rest) && forall x :: x in rest ==> x.key != c.key
  {
    var all := [c] + rest;
    assert forall i :: 0 <= i < |rest| ==> rest[i] == all[i + 1] && all[0].key != all[i + 1].key;
  }

  /** Dropping the first cell. */
  lemma {:induction false} DropFirst(cells: seq<Cell>)
    requires Unique(cells) && cells != []
    ensures Without(cells, {cells[0].key}) == cells[1..] && Unique(cells[1..])
  {
    var c, rest := cells[0], cells[1..];
    assert cells == [c] + rest;
    hide Without, Unique;
    FirstKeyAlone(c, rest);
    WithoutConcat([c], rest, {c.key});
    WithoutOne(c, {c.key});
    WithoutNone(rest, {c.key});
    assert [] + rest == rest;
  }

  /** If the larger cache's first cell is in the smaller one, it is the first there too. */
  lemma {:induction false} SameFirst(small: seq<Cell>, large: seq<Cell>)
    requires InSameOrder(small, large) && Unique(large) && large != [] && large[0] in small
    ensures small[0] == large[0] && InSameOrder(small[1..], large[1..])
  {
    var gone :| Without(large, gone) == small;
    WithoutMeans(large, gone);
    assert large == [large[0]] + large[1..];
    WithoutConcat([large[0]], large[1..], gone);
    WithoutOne(large[0], gone);
    assert small == [large[0]] + Without(large[1..], gone);
    Witness(small[1..], large[1..], gone);
  }

  /** The larger cache's first cell is not in the smaller one. */
  lemma {:induction false} OtherFirst(small: seq<Cell>, large: seq<Cell>)
    requires InSameOrder(small, large) && Unique(large) && large != [] && large[0] !in small
    ensures InSameOrder(small, large[1..])
  {
    var gone :| Without(large, gone) == small;
    WithoutMeans(large, gone);
    assert large[0] in large;
    assert large == [large[0]] + large[1..];
    WithoutConcat([large[0]], large[1..], gone);
    WithoutOne(large[0], gone);
    Witness(small, large[1..], gone);
  }

  lemma {:induction false} SmallerDropsFirst(small: seq<Cell>, large: seq<Cell>)
    requires InSameOrder(small, large) && Unique(small) && small != []
    ensures InSameOrder(small[1..], large)
  {
    var gone :| Without(large, gone) == small;
    DropFirst(small);
    WithoutTwice(large, gone, {small[0].key});
    Witness(small[1..], large, gone + {small[0].key});
  }

  /** Both lose their first cell. */
  lemma {:induction false} BothDropFirst(small: seq<Cell>, large: seq<Cell>)
    requires InSameOrder(small, large) && Unique(small) && Unique(large) && small != [] && large != []
    ensures InSameOrder(small[1..], large[1..])
  {
    hide Unique, InSameOrder;
    if large[0] in small {
      SameFirst(small, large);
    } else {
      SmallerDropsFirst(small, large);
      assert forall c :: c in small[1..] ==> c in small;
      OtherFirst(small[1..], large);
    }
  }

  lemma {:induction false} EvictedIs(cells: seq<Cell>, size: nat)
    requires size >= 1 && |cells| <= size && Unique(cells)
    ensures Evicted(cells, size) == (if |cells| == size then cells[1..] else cells)
    ensures Unique(Evicted(cells, size)) && |Evicted(cells, size)| == Min(|cells|, size - 1)
  {
    if |cells| == size {
      FirstKeyAlone(cells[0], cells[1..]);
      assert cells == [cells[0]] + cells[1..];
    }
  }

  /** Making room in both, given that a full larger cache has the smaller one's order. */
  lemma {:induction false} EvictionKeeps(small: seq<Cell>, large: seq<Cell>, n: nat, m: nat)
    requires Within(small, large, n, m) && 1 <= n <= m && (|large| == m ==> InSameOrder(small, large))
    ensures var (s, l) := (Evicted(small, n), Evicted(large, m));
      && Unique(s) && Unique(l) && |s| == Min(|small|, n - 1) && |l| == Min(|large|, m - 1)
      && |l| - |s| <= m - n
      && (forall c :: c in s ==> c in l)
      && (InSameOrder(small, large) ==> InSameOrder(s, l))
  {
    EvictedIs(small, n);
    EvictedIs(large, m);
    hide Unique, InSameOrder, Evicted;
    if |large| == m {
      assert |small| == n;
      BothDropFirst(small, large);
      OrderIsWithin(small[1..], large[1..]);
    } else if |small| == n {
      assert forall c :: c in small[1..] ==> c in small;
      if InSameOrder(small, large) {
        SmallerDropsFirst(small, large);
      }
    }
  }

  lemma {:induction false} PutFits(cells: seq<Cell>, c: Cell)
    requires Unique(cells)
    ensures Unique(Put(cells, c)) && |Put(cells, c)| == |cells| + (if Has(cells, c.key) then 0 else 1)
    ensures forall x :: x in Put(cells, c) <==> x == c || (x in cells && x.key != c.key)
  {
    AbsentMeans(cells, c.key);
    var more := Put(cells, c);
    if Has(cells, c.key) {
      var i := IndexOf(cells, c.key);
      assert more[i] == c;
      forall x
        ensures x in more <==> x == c || (x in cells && x.key != c.key)
      {
        if x in cells && x.key != c.key {
          var j: nat :| j < |cells| && cells[j] == x;
          assert more[j] == x;
        }
        if x in more && x != c {
          var j: nat :| j < |more| && more[j] == x;
          assert cells[j] == x;
        }
      }
    }
  }

  /** The same `set` on both. */
  lemma {:induction false} SetKeeps(small: seq<Cell>, large: seq<Cell>, n: nat, m: nat, c: Cell)
    requires Within(small, large, n, m) && 1 <= n <= m && (|large| == m ==> InSameOrder(small, large))
    ensures var (s, l) := (Put(Evicted(small, n), c), Put(Evicted(large, m), c));
      && Within(s, l, n, m)
      && (InSameOrder(small, large) && !Has(large, c.key) ==> InSameOrder(s, l))
      && (|l| == m && n <= 2 ==> InSameOrder(s, l))
  {
    var s, l := Evicted(small, n), Evicted(large, m);
    EvictionKeeps(small, large, n, m);
    PutFits(s, c);
    PutFits(l, c);
    AbsentMeans(s, c.key);
    AbsentMeans(l, c.key);
    AbsentMeans(large, c.key);
    hide Put, InSameOrder, IndexOf;
    if !Has(l, c.key) {
      PutNew(s, c);
      PutNew(l, c);
      if InSameOrder(s, l) {
        OrderAppends(s, l, c);
      }
      if |s| <= 1 {
        FewInOrder(s, l);
        OrderAppends(s, l, c);
      }
    }
  }

  lemma {:induction false} PutNew(cells: seq<Cell>, c: Cell)
    ensures !Has(cells, c.key) ==> Put(cells, c) == cells + [c]
  {
  }

  /** No cell or one cell stands in order. */
  lemma {:induction false} FewInOrder(small: seq<Cell>, large: seq<Cell>)
    requires Unique(large) && |small| <= 1 && forall c :: c in small ==> c in large
    ensures InSameOrder(small, large)
  {
    if small == [] {
      AllGone(large, KeySet(large));
      Witness([], large, KeySet(large));
    } else {
      var c := small[0];
      assert c in small;
      var i: nat :| i < |large| && large[i] == c;
      OnlyOne(large, i);
      Witness(small, large, KeySet(large) - {c.key});
    }
  }

  lemma {:induction false} OnlyOne(cells: seq<Cell>, i: nat)
    requires Unique(cells) && i < |cells|
    ensures Without(cells, KeySet(cells) - {cells[i].key}) == [cells[i]]
  {
    var a, c, b, gone := cells[..i], cells[i], cells[i + 1..], KeySet(cells) - {cells[i].key};
    assert cells == a + [c] + b;
    assert forall x :: x in a || x in b ==> x.key in gone;
    hide Unique, KeySet;
    WithoutConcat(a + [c], b, gone);
    WithoutConcat(a, [c], gone);
    WithoutOne(c, gone);
    AllGone(a, gone);
    AllGone(b, gone);
    assert [] + [c] + [] == [c];
  }

  lemma {:induction false} AllGone(cells: seq<Cell>, gone: set<string>)
    requires forall c :: c in cells ==> c.key in gone
    ensures Without(cells, gone) == []
  {
    if cells != [] {
      AllGone(cells[..|cells| - 1], gone);
    }
  }

  // ---------------------------------------------------------------- over whole runs

  /** What holds of the two caches after the same operations. */
  ghost predicate Related(small: Store, large: Store, n: nat, m: nat) {
    && Within(small.cells, large.cells, n, m)
    && (|large.cells| == m ==> InSameOrder(small.cells, large.cells))
    && small.hits <= large.hits
  }

  /** The operation is a `set` of a key that the cache holds. */
  predicate Overwrites(cells: seq<Cell>, op: Op) {
    op.Set? && Has(cells, op.key)
  }

  lemma {:induction false} SameExpired(small: seq<Cell>, large: seq<Cell>, n: nat, m: nat, now: int)
    requires Within(small, large, n, m)
    ensures Without(small, ExpiredKeys(large, now)) == Without(small, ExpiredKeys(small, now))
  {
    forall c | c in small
      ensures c.key in ExpiredKeys(large, now) <==> c.key in ExpiredKeys(small, now)
    {
      assert c in large;
      if c.key in ExpiredKeys(large, now) {
        var x :| x in large && Expired(x, now) && x.key == c.key;
        SameKeySameCell(large, x, c);
      }
      if c.key in ExpiredKeys(small, now) {
        var x :| x in small && Expired(x, now) && x.key == c.key;
        SameKeySameCell(small, x, c);
      }
    }
    WithoutAgrees(small, ExpiredKeys(large, now), ExpiredKeys(small, now));
  }

  /** The same `get` on both. */
  lemma {:induction false} GetRelates(small: Store, large: Store, n: nat, m: nat, ttl: int, k: string, now: int)
    requires 1 <= n <= m && Related(small, large, n, m)
    ensures var (s, l) := (Step(small, Config(n, ttl), Get(k, now)), Step(large, Config(m, ttl), Get(k, now)));
      Related(s, l, n, m) && (InSameOrder(small.cells, large.cells) ==> InSameOrder(s.cells, l.cells))
  {
    if Has(small.cells, k) {
      SameCell(small.cells, large.cells, n, m, k);
    } else {
      AbsentStays(small.cells, k);
    }
    hide Within, InSameOrder, Without, Touched, IndexOf;
    if Hit(large.cells, k, now) {
      HitKeeps(small.cells, large.cells, n, m, k);
    } else {
      RemovalKeeps(small.cells, large.cells, n, m, {k});
    }
  }

  /**
   The same operation on both: the relation is kept by every operation if the smaller cache
   has at most two cells, and by every operation but an overwrite otherwise.
   */
  lemma {:induction false} StepRelates(small: Store, large: Store, n: nat, m: nat, ttl: int, op: Op)
    requires 1 <= n <= m && Related(small, large, n, m)
    ensures var (s, l) := (Step(small, Config(n, ttl), op), Step(large, Config(m, ttl), op));
      && Within(s.cells, l.cells, n, m)
      && (n <= 2 ==> Related(s, l, n, m))
      && (InSameOrder(small.cells, large.cells) && !Overwrites(large.cells, op) ==>
            Related(s, l, n, m) && InSameOrder(s.cells, l.cells))
  {
    match op
    case Get(k, now) => GetRelates(small, large, n, m, ttl, k, now);
    case Set(_, _, _, _) => SetKeeps(small.cells, large.cells, n, m, Fresh(op, Config(n, ttl)));
    case Delete(k) => RemovalKeeps(small.cells, large.cells, n, m, {k});
    case Clear => FewInOrder([], []);
    case Cleanup(now) =>
      SameExpired(small.cells, large.cells, n, m, now);
      RemovalKeeps(small.cells, large.cells, n, m, ExpiredKeys(large.cells, now));
  }

  lemma {:induction false} EmptyRelated(n: nat, m: nat)
    requires 1 <= n <= m
    ensures Related(Store([], 0, 0), Store([], 0, 0), n, m) && InSameOrder([], [])
  {
    FewInOrder([], []);
  }

  /** No `set` of the run hits a key that the cache of size `m` holds at that moment. */
  predicate NoOverwrites(config: Config, ops: seq<Op>) {
    if ops == [] then true
    else
      var front := ops[..|ops| - 1];
      NoOverwrites(config, front) && !Overwrites(Run(config, front).cells, ops[|ops| - 1])
  }

  /**
   Over any run in which no `set` hits a key that the larger cache holds at that moment, the
   smaller cache's cells are in the larger one, in the same order, and it hits no more often.
   */
  lemma {:induction false} InclusionWithoutOverwrites(n: nat, m: nat, ttl: int, ops: seq<Op>)
    requires 1 <= n <= m && NoOverwrites(Config(m, ttl), ops)
    ensures var (small, large) := (Run(Config(n, ttl), ops), Run(Config(m, ttl), ops));
      && InSameOrder(small.cells, large.cells) && small.hits <= large.hits
      && (forall k :: Has(small.cells, k) ==> Has(large.cells, k) && At(large.cells, k) == At(small.cells, k))
  {
    OrderOverRun(n, m, ttl, ops);
    var small, large := Run(Config(n, ttl), ops), Run(Config(m, ttl), ops);
    forall k | Has(small.cells, k)
      ensures Has(large.cells, k) && At(large.cells, k) == At(small.cells, k)
    {
      SameCell(small.cells, large.cells, n, m, k);
    }
  }

  lemma {:induction false} OrderOverRun(n: nat, m: nat, ttl: int, ops: seq<Op>)
    requires 1 <= n <= m && NoOverwrites(Config(m, ttl), ops)
    ensures var (small, large) := (Run(Config(n, ttl), ops), Run(Config(m, ttl), ops));
      Related(small, large, n, m) && InSameOrder(small.cells, large.cells)
  {
    if ops == [] {
      EmptyRelated(n, m);
    } else {
      var front, op := ops[..|ops| - 1], ops[|ops| - 1];
      OrderOverRun(n, m, ttl, front);
      StepRelates(Run(Config(n, ttl), front), Run(Config(m, ttl), front), n, m, ttl, op);
    }
  }

  /** A cache of at most two cells is included in every larger one over any run, overwrites or not. */
  lemma {:induction false} InclusionUpToTwo(n: nat, m: nat, ttl: int, ops: seq<Op>)
    requires 1 <= n <= m && n <= 2
    ensures Related(Run(Config(n, ttl), ops), Run(Config(m, ttl), ops), n, m)
  {
    if ops == [] {
      EmptyRelated(n, m);
    } else {
      var front, op := ops[..|ops| - 1], ops[|ops| - 1];
      InclusionUpToTwo(n, m, ttl, front);
      StepRelates(Run(Config(n, ttl), front), Run(Config(m, ttl), front), n, m, ttl, op);
    }
  }

  // ---------------------------------------------------------------- runs that break inclusion

  function SetOf(key: string): Op {
    Op.Set(key, "", None, 0)
  }

  function Sets(keys: seq<string>): seq<Op> {
    if keys == [] then [] else Sets(keys[..|keys| - 1]) + [SetOf(keys[|keys| - 1])]
  }

  predicate Different(keys: seq<string>) {
    forall i, j :: 0 <= i < j < |keys| ==> keys[i] != keys[j]
  }

  /** The cells, oldest first, hold exactly the given keys. */
  predicate Holds(cells: seq<Cell>, keys: seq<string>) {
    |cells| == |keys| && forall i :: 0 <= i < |keys| ==> cells[i].key == keys[i]
  }

  lemma {:induction false} HoldsMeans(cells: seq<Cell>, keys: seq<string>, k: string)
    requires Holds(cells, keys)
    ensures Has(cells, k) <==> k in keys
  {
    if k in keys {
      var i: nat :| i < |keys| && keys[i] == k;
      assert cells[i].key == k;
    }
    if Has(cells, k) {
      assert keys[IndexOf(cells, k)] == k;
    }
  }

  lemma {:induction false} RunSet(config: Config, keys: seq<string>, k: string)
    ensures Run(config, Sets(keys + [k])) == Step(Run(config, Sets(keys)), config, SetOf(k))
  {
    assert (keys + [k])[..|keys|] == keys;
    assert Sets(keys + [k])[..|Sets(keys)|] == Sets(keys);
  }

  /** The keys that are left when room has been made. */
  function Room(was: seq<string>, size: nat): seq<string> {
    if |was| < size || was == [] then was else was[1..]
  }

  lemma {:induction false} HoldsRoom(config: Config, cells: seq<Cell>, was: seq<string>)
    requires config.maxSize >= 1 && Holds(cells, was) && |was| <= config.maxSize
    ensures Holds(Evicted(cells, config.maxSize), Room(was, config.maxSize))
  {
  }

  lemma {:induction false} HoldsNew(cells: seq<Cell>, c: Cell, was: seq<string>)
    requires Holds(cells, was) && c.key !in was
    ensures Holds(Put(cells, c), was + [c.key])
  {
    HoldsMeans(cells, was, c.key);
  }

  /** Setting a key that is not there after the eviction. */
  lemma {:induction false} SetNew(config: Config, keys: seq<string>, k: string, was: seq<string>)
    requires config.maxSize >= 1 && Holds(Run(config, Sets(keys)).cells, was) && |was| <= config.maxSize
    requires k !in Room(was, config.maxSize)
    ensures Holds(Run(config, Sets(keys + [k])).cells, Room(was, config.maxSize) + [k])
  {
    var cells := Run(config, Sets(keys)).cells;
    RunSet(config, keys, k);
    HoldsRoom(config, cells, was);
    HoldsNew(Evicted(cells, config.maxSize), Fresh(SetOf(k), config), Room(was, config.maxSize));
    hide Holds, Run, Sets, Put, Evicted, Room;
  }

  /** Setting a key that is there when nothing has to be evicted. */
  lemma {:induction false} SetAgain(config: Config, keys: seq<string>, k: string, was: seq<string>)
    requires Holds(Run(config, Sets(keys)).cells, was) && |was| < config.maxSize && k in was
    ensures Holds(Run(config, Sets(keys + [k])).cells, was)
  {
    var cells := Run(config, Sets(keys)).cells;
    RunSet(config, keys, k);
    HoldsMeans(cells, was, k);
    var i := IndexOf(cells, k);
    assert was[i] == k;
  }

  /** The last `size` keys. */
  function Newest(keys: seq<string>, size: nat): seq<string> {
    if |keys| <= size then keys else keys[|keys| - size..]
  }

  lemma {:induction false} NewestStep(front: seq<string>, k: string, size: nat)
    requires size >= 1 && Different(front + [k])
    ensures Different(front) && |Newest(front, size)| <= size
    ensures k !in Room(Newest(front, size), size)
    ensures Room(Newest(front, size), size) + [k] == Newest(front + [k], size)
  {
    var keys := front + [k];
    assert forall i :: 0 <= i < |front| ==> keys[i] == front[i] && keys[i] != keys[|front|];
    assert k !in front;
    hide Different;
  }

  /** After sets of different keys a cache holds the newest of them. */
  lemma {:induction false} FillsWithNewest(config: Config, keys: seq<string>)
    requires config.maxSize >= 1 && Different(keys)
    ensures Holds(Run(config, Sets(keys)).cells, Newest(keys, config.maxSize))
  {
    if keys != [] {
      var front, k := keys[..|keys| - 1], keys[|keys| - 1];
      assert keys == front + [k];
      hide Newest, Room, Holds, Run, Sets, Different;
      NewestStep(front, k, config.maxSize);
      FillsWithNewest(config, front);
      SetNew(config, front, k, Newest(front, config.maxSize));
    }
  }

  /** m - 1 different keys, the first of them again, and two more. */
  function Breaking(xs: seq<string>, d: string, e: string): seq<string>
    requires xs != []
  {
    xs + [xs[0]] + [d] + [e]
  }

  lemma {:induction false} Apart(xs: seq<string>, d: string, e: string)
    requires xs != [] && Different(xs + [d] + [e])
    ensures Different(xs) && d !in xs && e !in xs && d != e && xs[0] !in xs[1..]
  {
    var all := xs + [d] + [e];
    assert forall i :: 0 <= i < |xs| ==> all[i] == xs[i] && all[i] != all[|xs|] && all[i] != all[|xs| + 1];
    assert all[|xs|] == d && all[|xs| + 1] == e;
    assert forall i :: 1 <= i < |xs| ==> xs[i] != xs[0];
  }

  /** The larger cache overwrites the oldest key in its old place, and so loses it first. */
  lemma {:induction false} LargerLoses(m: nat, ttl: int, xs: seq<string>, d: string, e: string)
    requires m >= 2 && |xs| == m - 1 && Different(xs + [d] + [e])
    ensures !Has(Run(Config(m, ttl), Sets(Breaking(xs, d, e))).cells, xs[0])
  {
    var config, a := Config(m, ttl), xs[0];
    Apart(xs, d, e);
    assert Newest(xs, m) == xs;
    hide Run, Sets, Holds, Different, Newest, Has;
    FillsWithNewest(config, xs);
    SetAgain(config, xs, a, xs);
    TwoPushOut(config, xs + [a], xs, d, e);
    FirstGone(xs, d, e);
    HoldsMeans(Run(config, Sets(Breaking(xs, d, e))).cells, xs[1..] + [d] + [e], a);
  }

  lemma {:induction false} FirstGone(xs: seq<string>, d: string, e: string)
    requires xs != [] && xs[0] !in xs[1..] && d !in xs && e !in xs
    ensures xs[0] !in xs[1..] + [d] + [e]
  {
  }

  /** A cache one short of full takes in one more key and then loses its first. */
  lemma {:induction false} TwoPushOut(config: Config, keys: seq<string>, xs: seq<string>, d: string, e: string)
    requires |xs| == config.maxSize - 1 >= 1 && Holds(Run(config, Sets(keys)).cells, xs)
    requires d !in xs && e !in xs && d != e
    ensures Holds(Run(config, Sets(keys + [d] + [e])).cells, xs[1..] + [d] + [e])
  {
    var n, was := config.maxSize, xs + [d];
    assert Room(xs, n) == xs;
    DropOne(was, n);
    NotInTail(xs, d, e);
    hide *;
    SetNew(config, keys, d, xs);
    SetNew(config, keys + [d], e, was);
  }

  lemma {:induction false} NotInTail(xs: seq<string>, d: string, e: string)
    requires xs != [] && e !in xs && d != e
    ensures e !in (xs + [d])[1..] && (xs + [d])[1..] == xs[1..] + [d]
  {
    assert (xs + [d])[1..] == xs[1..] + [d];
    assert e !in xs[1..];
  }

  /** The smaller cache has lost the key, or loses it to the `set` itself, and takes it in as its newest. */
  lemma {:induction false} SmallerKeeps(n: nat, ttl: int, xs: seq<string>, d: string, e: string)
    requires 3 <= n <= |xs| && Different(xs + [d] + [e])
    ensures Has(Run(Config(n, ttl), Sets(Breaking(xs, d, e))).cells, xs[0])
  {
    var config, a := Config(n, ttl), xs[0];
    Apart(xs, d, e);
    var rest := xs[|xs| - n + 1..];
    assert Newest(xs, n)[1..] == rest && |Newest(xs, n)| == n;
    assert (forall k :: k in rest ==> k in xs) && a !in rest;
    hide Run, Sets, Holds, Newest, Room, Different, Has;
    FillsWithNewest(config, xs);
    DropOne(Newest(xs, n), n);
    SetNew(config, xs, a, Newest(xs, n));
    TwoMore(config, xs + [a], rest, a, d, e);
  }

  /** A full cache of at least three whose newest key is `a` still has it after two more sets. */
  lemma {:induction false} TwoMore(config: Config, keys: seq<string>, rest: seq<string>, a: string, d: string,
          e: string)
    requires config.maxSize >= 3 && |rest| == config.maxSize - 1
    requires Holds(Run(config, Sets(keys)).cells, rest + [a])
    requires d !in rest && e !in rest && d != a && e != a && d != e
    ensures Has(Run(config, Sets(keys + [d] + [e])).cells, a)
  {
    var n := config.maxSize;
    hide *;
    var was := rest[1..] + [a] + [d];
    DropOne(rest + [a], n);
    DropOne(was, n);
    NotInTail(rest, a, d);
    NotInTail(rest, a, e);
    NotInTail(rest[1..] + [a], d, e);
    SetNew(config, keys, d, rest + [a]);
    SetNew(config, keys + [d], e, was);
    assert was[1..] + [e] == rest[2..] + [a] + [d] + [e];
    assert (was[1..] + [e])[n - 3] == a;
    HoldsMeans(Run(config, Sets(keys + [d] + [e])).cells, was[1..] + [e], a);
  }

  lemma {:induction false} DropOne(keys: seq<string>, n: nat)
    requires |keys| == n >= 1
    ensures Room(keys, n) == keys[1..]
  {
  }

  /** Keys of different lengths. */
  function KeyOfLength(i: nat): string {
    seq(i, _ => 'x')
  }

  function ManyKeys(n: nat): seq<string> {
    seq(n, i requires 0 <= i < n => KeyOfLength(i))
  }

  lemma {:induction false} ManyDiffer(n: nat)
    ensures Different(ManyKeys(n))
  {
    var keys := ManyKeys(n);
    forall i, j | 0 <= i < j < n
      ensures keys[i] != keys[j]
    {
      assert |KeyOfLength(i)| == i && |KeyOfLength(j)| == j;
    }
  }

  /** Every key of the smaller cache is in the larger one. */
  ghost predicate Included(n: nat, m: nat, ttl: int, ops: seq<Op>) {
    forall k :: Has(Run(Config(n, ttl), ops).cells, k) ==> Has(Run(Config(m, ttl), ops).cells, k)
  }

  /** For 3 <= n < m, a run of m + 2 sets after which the smaller cache has a key that the larger one lacks. */
  lemma {:induction false} LargerCacheLosesMore(n: nat, m: nat, ttl: int, xs: seq<string>, d: string, e: string)
    requires 3 <= n < m && |xs| == m - 1 && Different(xs + [d] + [e])
    ensures !Included(n, m, ttl, Sets(Breaking(xs, d, e)))
  {
    LargerLoses(m, ttl, xs, d, e);
    SmallerKeeps(n, ttl, xs, d, e);
    hide Run, Has;
  }

  /**
   The sizes for which inclusion holds, exactly: over every run a cache of n cells is included
   in one of m >= n cells if and only if the sizes are equal or the smaller one has at most two.
   */
  lemma {:induction false} InclusionExactly(n: nat, m: nat, ttl: int)
    requires 1 <= n <= m
    ensures (forall ops :: Included(n, m, ttl, ops)) <==> n == m || n <= 2
  {
    if n == m {
    } else if n <= 2 {
      forall ops
        ensures Included(n, m, ttl, ops)
      {
        InclusionUpToTwo(n, m, ttl, ops);
        var small, large := Run(Config(n, ttl), ops), Run(Config(m, ttl), ops);
        forall k | Has(small.cells, k)
          ensures Has(large.cells, k)
        {
          SameCell(small.cells, large.cells, n, m, k);
        }
      }
    } else {
      var keys := ManyKeys(m + 1);
      ManyDiffer(m + 1);
      var xs, d, e := keys[..m - 1], keys[m - 1], keys[m];
      assert xs + [d] + [e] == keys;
      LargerCacheLosesMore(n, m, ttl, xs, d, e);
    }
  }
}
