/**
 The TTL and LRU cache of backend/app/data_sources/cache_manager.py. The OrderedDict is the
 sequence of its cells, oldest first; the clock's reading is an argument of the calls that
 look at it.
 */
module DataCache {
  import opened Basics

  datatype Cell = Cell(key: string, data: string, stamp: int, ttl: int, hitCount: nat)

  predicate Expired(c: Cell, now: int) {
    now - c.stamp > c.ttl
  }

  // ---------------------------------------------------------------- the ordered dictionary

  predicate Unique(cells: seq<Cell>) {
    forall i, j :: 0 <= i < j < |cells| ==> cells[i].key != cells[j].key
  }

  /** Where key `k` is, or the length when it is nowhere. */
  function IndexOf(cells: seq<Cell>, k: string): (i: nat)
    ensures i <= |cells| && (i < |cells| ==> cells[i].key == k)
    ensures forall j :: 0 <= j < i ==> cells[j].key != k
  {
    if cells == [] then 0
    else
      var i := IndexOf(cells[..|cells| - 1], k);
      if i < |cells| - 1 || cells[|cells| - 1].key == k then i else |cells|
  }

  predicate Has(cells: seq<Cell>, k: string) {
    IndexOf(cells, k) < |cells|
  }

  function At(cells: seq<Cell>, k: string): Cell
    requires Has(cells, k)
  {
    cells[IndexOf(cells, k)]
  }

  function Without(cells: seq<Cell>, keys: set<string>): seq<Cell> {
    if cells == [] then []
    else
      var front, c := cells[..|cells| - 1], cells[|cells| - 1];
      if c.key in keys then Without(front, keys) else Without(front, keys) + [c]
  }

  /** Assignment: an existing key keeps its place, a new one goes to the end. */
  function Put(cells: seq<Cell>, c: Cell): seq<Cell> {
    if Has(cells, c.key) then cells[IndexOf(cells, c.key) := c] else cells + [c]
  }

  /** `popitem(last=False)` until there is room for one more. */
  function Evicted(cells: seq<Cell>, maxSize: int): seq<Cell> {
    if maxSize <= 0 then [] else if |cells| < maxSize then cells else cells[|cells| - maxSize + 1..]
  }

  function ExpiredKeys(cells: seq<Cell>, now: int): set<string> {
    set c | c in cells && Expired(c, now) :: c.key
  }

  // ---------------------------------------------------------------- operations

  datatype Config = Config(maxSize: int, defaultTtl: int)

  datatype Store = Store(cells: seq<Cell>, hits: nat, misses: nat)

  datatype Op =
    | Get(key: string, now: int)
    | Set(key: string, data: string, ttl: Option<int>, now: int)
    | Delete(key: string)
    | Clear
    | Cleanup(now: int)

  predicate Hit(cells: seq<Cell>, k: string, now: int) {
    Has(cells, k) && !Expired(At(cells, k), now)
  }

  function Touched(cells: seq<Cell>, k: string): seq<Cell>
    requires Has(cells, k)
  {
    var c := At(cells, k);
    Without(cells, {k}) + [c.(hitCount := c.hitCount + 1)]
  }

  function Fresh(op: Op, config: Config): Cell
    requires op.Set?
  {
    Cell(op.key, op.data, op.now, if op.ttl.Some? then op.ttl.value else config.defaultTtl, 0)
  }

  function Step(st: Store, config: Config, op: Op): Store {
    var cells := st.cells;
    match op
    case Get(k, now) =>
      if Hit(cells, k, now) then Store(Touched(cells, k), st.hits + 1, st.misses)
      else Store(Without(cells, {k}), st.hits, st.misses + 1)
    case Set(_, _, _, _) =>
      if config.maxSize <= 0 then st.(cells := [])
      else st.(cells := Put(Evicted(cells, config.maxSize), Fresh(op, config)))
    case Delete(k) => st.(cells := Without(cells, {k}))
    case Clear => st.(cells := [])
    case Cleanup(now) => st.(cells := Without(cells, ExpiredKeys(cells, now)))
  }

  lemma {:induction false} WithoutNone(cells: seq<Cell>, keys: set<string>)
    requires forall c :: c in cells ==> c.key !in keys
    ensures Without(cells, keys) == cells
  {
    if cells != [] {
      WithoutNone(cells[..|cells| - 1], keys);
    }
  }

  lemma {:induction false} WithoutMore(cells: seq<Cell>, keys: set<string>, k: string)
    ensures Without(Without(cells, keys), {k}) == Without(cells, keys + {k})
  {
    if cells != [] {
      var front, c := cells[..|cells| - 1], cells[|cells| - 1];
      WithoutMore(front, keys, k);
      if c.key !in keys {
        assert (Without(front, keys) + [c])[..|Without(front, keys)|] == Without(front, keys);
      }
    }
  }

  /** The list comprehension over the expired entries. */
  function ExpiredList(cells: seq<Cell>, now: int): seq<string> {
    if cells == [] then []
    else
      var rest, c := ExpiredList(cells[..|cells| - 1], now), cells[|cells| - 1];
      if Expired(c, now) then rest + [c.key] else rest
  }

  function Elements(keys: seq<string>): set<string> {
    set k | k in keys
  }

  lemma {:induction false} ExpiredListMeans(cells: seq<Cell>, now: int)
    requires Unique(cells)
    ensures Elements(ExpiredList(cells, now)) == ExpiredKeys(cells, now)
    ensures |ExpiredList(cells, now)| == |ExpiredKeys(cells, now)|
  {
    if cells != [] {
      var front, c := cells[..|cells| - 1], cells[|cells| - 1];
      ExpiredListMeans(front, now);
      ExpiredSnoc(front, c, now);
      assert cells == front + [c];
      assert Elements(ExpiredList(front, now) + [c.key]) == Elements(ExpiredList(front, now)) + {c.key};
      hide ExpiredKeys, Elements, Unique;
    }
  }

  lemma {:induction false} ExpiredSnoc(front: seq<Cell>, c: Cell, now: int)
    requires Unique(front + [c])
    ensures ExpiredKeys(front + [c], now) ==
              if Expired(c, now) then ExpiredKeys(front, now) + {c.key} else ExpiredKeys(front, now)
    ensures c.key !in ExpiredKeys(front, now)
  {
    var all := front + [c];
    forall x | x in front
      ensures x.key != c.key
    {
      var i: nat :| i < |front| && front[i] == x;
      assert all[i] == x && all[|front|] == c;
    }
  }

  /** Deleting the keys of a list one after the other. */
  function WithoutEach(cells: seq<Cell>, keys: seq<string>): seq<Cell> {
    if keys == [] then cells else Without(WithoutEach(cells, keys[..|keys| - 1]), {keys[|keys| - 1]})
  }

  lemma {:induction false} WithoutAll(cells: seq<Cell>, keys: seq<string>)
    ensures WithoutEach(cells, keys) == Without(cells, Elements(keys))
  {
    if keys == [] {
      assert Elements(keys) == {};
      WithoutNone(cells, {});
    } else {
      var front, k := keys[..|keys| - 1], keys[|keys| - 1];
      WithoutAll(cells, front);
      WithoutMore(cells, Elements(front), k);
      assert keys == front + [k];
      assert Elements(keys) == Elements(front) + {k};
    }
  }

  class DataCache {
    const config: Config
    var cells: seq<Cell>
    var hits: nat
    var misses: nat

    function State(): Store
      reads this
    {
      Store(cells, hits, misses)
    }

    constructor (maxSize: int, defaultTtl: int)
      ensures config == Config(maxSize, defaultTtl) && State() == Store([], 0, 0)
    {
      config := Config(maxSize, defaultTtl);
      cells, hits, misses := [], 0, 0;
    }

    method Get(key: string, now: int) returns (r: Option<string>)
      modifies this
      ensures State() == Step(old(State()), config, Op.Get(key, now))
      ensures r == if Hit(old(cells), key, now) then Some(At(old(cells), key).data) else None
    {
      if !Has(cells, key) {
        WithoutNone(cells, {key});
        misses := misses + 1;
        return None;
      }
      var entry := At(cells, key);
      if Expired(entry, now) {
        cells := Without(cells, {key});
        misses := misses + 1;
        return None;
      }
      cells := Without(cells, {key}) + [entry.(hitCount := entry.hitCount + 1)];
      hits := hits + 1;
      return Some(entry.data);
    }

    /** `popitem` on an empty dictionary raises: `ok` is false exactly when `maxSize` is not positive. */
    method Set(key: string, data: string, ttl: Option<int>, now: int) returns (ok: bool)
      modifies this`cells
      ensures State() == Step(old(State()), config, Op.Set(key, data, ttl, now))
      ensures ok <==> config.maxSize >= 1
    {
      while |cells| >= config.maxSize
        invariant hits == old(hits) && misses == old(misses)
        invariant |cells| <= |old(cells)| && cells == old(cells)[|old(cells)| - |cells|..]
        invariant |cells| < |old(cells)| && config.maxSize >= 1 ==> |cells| >= config.maxSize - 1
        decreases |cells|
      {
        if cells == [] {
          return false;
        }
        cells := cells[1..];
      }
      assert cells == Evicted(old(cells), config.maxSize);
      var actualTtl := if ttl.Some? then ttl.value else config.defaultTtl;
      cells := Put(cells, Cell(key, data, now, actualTtl, 0));
      return true;
    }

    method Delete(key: string) returns (found: bool)
      modifies this`cells
      ensures State() == Step(old(State()), config, Op.Delete(key)) && found == Has(old(cells), key)
    {
      if Has(cells, key) {
        cells := Without(cells, {key});
        return true;
      }
      WithoutNone(cells, {key});
      return false;
    }

    method Clear() returns (count: nat)
      modifies this`cells
      ensures State() == Step(old(State()), config, Op.Clear) && count == |old(cells)|
    {
      count := |cells|;
      cells := [];
    }

    method CleanupExpired(now: int) returns (count: nat)
      requires Unique(cells)
      modifies this`cells
      ensures State() == Step(old(State()), config, Op.Cleanup(now))
      ensures count == |ExpiredKeys(old(cells), now)|
    {
      var keys := ExpiredList(cells, now);
      ExpiredListMeans(cells, now);
      WithoutAll(cells, keys);
      ghost var was := cells;
      assert keys[..0] == [];
      for i := 0 to |keys|
        invariant hits == old(hits) && misses == old(misses)
        invariant cells == WithoutEach(was, keys[..i])
      {
        assert keys[..i + 1][..i] == keys[..i];
        cells := Without(cells, {keys[i]});
      }
      assert keys[..|keys|] == keys;
      return |keys|;
    }
  }

  // ---------------------------------------------------------------- runs

  function Run(config: Config, ops: seq<Op>): Store {
    if ops == [] then Store([], 0, 0) else Step(Run(config, ops[..|ops| - 1]), config, ops[|ops| - 1])
  }

  function Gets(ops: seq<Op>): nat {
    if ops == [] then 0 else Gets(ops[..|ops| - 1]) + if ops[|ops| - 1].Get? then 1 else 0
  }

  /** The cell that the last `set` of `k` wrote, if no `delete` or `clear` came after it. */
  function LatestSet(config: Config, ops: seq<Op>, k: string): Option<Cell> {
    if ops == [] then None
    else
      var op := ops[|ops| - 1];
      if op.Set? && op.key == k then Some(Fresh(op, config))
      else if op.Clear? || (op.Delete? && op.key == k) then None
      else LatestSet(config, ops[..|ops| - 1], k)
  }

  lemma {:induction false} WithoutMeans(cells: seq<Cell>, keys: set<string>)
    ensures forall c :: c in Without(cells, keys) <==> c in cells && c.key !in keys
    ensures |Without(cells, keys)| <= |cells|
    ensures Unique(cells) ==> Unique(Without(cells, keys))
  {
    if cells != [] {
      var front, c := cells[..|cells| - 1], cells[|cells| - 1];
      assert cells == front + [c];
      WithoutMeans(front, keys);
      if Unique(cells) {
        var w := Without(front, keys);
        forall i | 0 <= i < |w|
          ensures w[i].key != c.key
        {
          assert w[i] in front;
        }
      }
    }
  }

  lemma {:induction false} UniqueAt(cells: seq<Cell>, c: Cell)
    requires Unique(cells) && c in cells
    ensures Has(cells, c.key) && At(cells, c.key) == c
  {
    var i: nat :| i < |cells| && cells[i] == c;
  }

  /** Every cell is the latest set of its key, give or take the hit count; keys are unique; it fits. */
  ghost predicate Sound(config: Config, ops: seq<Op>, cells: seq<Cell>) {
    && Unique(cells) && |cells| <= config.maxSize
    && forall c :: c in cells ==> LatestSet(config, ops, c.key) == Some(c.(hitCount := 0))
  }

  lemma {:induction false} SoundAfterRemoval(config: Config, ops: seq<Op>, op: Op, cells: seq<Cell>, keys: set<string>)
    requires Sound(config, ops, cells) && !op.Set? && !op.Clear? && (op.Delete? ==> op.key in keys)
    ensures Sound(config, ops + [op], Without(cells, keys))
  {
    WithoutMeans(cells, keys);
    assert (ops + [op])[..|ops|] == ops;
  }

  lemma {:induction false} SoundAfterHit(config: Config, ops: seq<Op>, k: string, now: int, cells: seq<Cell>)
    requires Sound(config, ops, cells) && Has(cells, k)
    ensures Sound(config, ops + [Get(k, now)], Touched(cells, k))
  {
    WithoutMeans(cells, {k});
    assert (ops + [Get(k, now)])[..|ops|] == ops;
    var c := At(cells, k);
    assert c in cells && c !in Without(cells, {k});
    WithoutShorter(cells, k);
  }

  lemma {:induction false} WithoutShorter(cells: seq<Cell>, k: string)
    requires Has(cells, k)
    ensures |Without(cells, {k})| < |cells|
  {
    var front, c := cells[..|cells| - 1], cells[|cells| - 1];
    if c.key == k {
      WithoutMeans(front, {k});
    } else {
      WithoutShorter(front, k);
    }
  }

  lemma {:induction false} SoundAfterSet(config: Config, ops: seq<Op>, op: Op, cells: seq<Cell>)
    requires Sound(config, ops, cells) && op.Set? && config.maxSize >= 1
    ensures Sound(config, ops + [op], Put(Evicted(cells, config.maxSize), Fresh(op, config)))
  {
    assert (ops + [op])[..|ops|] == ops;
    var less, c := Evicted(cells, config.maxSize), Fresh(op, config);
    assert forall x :: x in less ==> x in cells;
    var more := Put(less, c);
    forall x | x in more
      ensures LatestSet(config, ops + [op], x.key) == Some(x.(hitCount := 0))
    {
      if x != c {
        var i: nat :| i < |more| && more[i] == x;
        assert x in less && x.key != c.key;
      }
    }
  }

  /** Over any run: keys are unique, the size limit holds, and every cell holds the latest set of its key. */
  lemma {:induction false} RunIsSound(config: Config, ops: seq<Op>)
    requires config.maxSize >= 1
    ensures Sound(config, ops, Run(config, ops).cells)
  {
    if ops != [] {
      var front, op := ops[..|ops| - 1], ops[|ops| - 1];
      assert ops == front + [op];
      RunIsSound(config, front);
      var cells := Run(config, front).cells;
      hide Sound, Without;
      match op
      case Get(k, now) =>
        if Hit(cells, k, now) {
          SoundAfterHit(config, front, k, now, cells);
        } else {
          SoundAfterRemoval(config, front, op, cells, {k});
        }
      case Set(_, _, _, _) => SoundAfterSet(config, front, op, cells);
      case Delete(k) => SoundAfterRemoval(config, front, op, cells, {k});
      case Clear => EmptySound(config, ops);
      case Cleanup(now) => SoundAfterRemoval(config, front, op, cells, ExpiredKeys(cells, now));
    } else {
      EmptySound(config, ops);
    }
  }

  lemma {:induction false} EmptySound(config: Config, ops: seq<Op>)
    requires config.maxSize >= 0
    ensures Sound(config, ops, [])
  {
  }

  /** A hit returns the data of the latest set since the last delete or clear, and it has not expired. */
  lemma {:induction false} HitIsLatestSet(config: Config, ops: seq<Op>, k: string, now: int)
    requires config.maxSize >= 1 && Hit(Run(config, ops).cells, k, now)
    ensures var c := LatestSet(config, ops, k);
      && c.Some? && c.value.key == k && now - c.value.stamp <= c.value.ttl
      && At(Run(config, ops).cells, k).data == c.value.data
  {
    RunIsSound(config, ops);
    assert At(Run(config, ops).cells, k) in Run(config, ops).cells;
  }

  /** Operation `i` is the last `set` of `k`, and no `delete` of it or `clear` comes after. */
  predicate LastSetAt(ops: seq<Op>, k: string, i: nat) {
    && i < |ops| && ops[i].Set? && ops[i].key == k
    && forall j :: i < j < |ops| ==> !ops[j].Clear? && !((ops[j].Set? || ops[j].Delete?) && ops[j].key == k)
  }

  lemma {:induction false} LatestSetIs(config: Config, ops: seq<Op>, k: string) returns (i: nat)
    requires LatestSet(config, ops, k).Some?
    ensures LastSetAt(ops, k, i)
    ensures LatestSet(config, ops, k).value.data == ops[i].data && LatestSet(config, ops, k).value.stamp == ops[i].now
    ensures LatestSet(config, ops, k).value.ttl == if ops[i].ttl.Some? then ops[i].ttl.value else config.defaultTtl
  {
    var front, op := ops[..|ops| - 1], ops[|ops| - 1];
    if op.Set? && op.key == k {
      i := |ops| - 1;
    } else {
      i := LatestSetIs(config, front, k);
      assert forall j :: 0 <= j < |front| ==> ops[j] == front[j];
    }
  }

  /**
   A key that is present after a run has the data of its last `set`, and a `get` at `now` hits
   exactly while no more time has passed since that `set` than its own ttl, or the default
   where it gave none.
   */
  lemma {:induction false} HitExactly(config: Config, ops: seq<Op>, k: string, now: int) returns (i: nat)
    requires config.maxSize >= 1 && Has(Run(config, ops).cells, k)
    ensures LastSetAt(ops, k, i) && At(Run(config, ops).cells, k).data == ops[i].data
    ensures Hit(Run(config, ops).cells, k, now) <==>
              now - ops[i].now <= if ops[i].ttl.Some? then ops[i].ttl.value else config.defaultTtl
  {
    RunIsSound(config, ops);
    var c := At(Run(config, ops).cells, k);
    assert c in Run(config, ops).cells;
    hide Run;
    i := LatestSetIs(config, ops, k);
  }

  /** A `set` is there for the next `get`, with its data, as long as its ttl lasts. */
  lemma {:induction false} SetThenGet(config: Config, ops: seq<Op>, k: string, data: string, ttl: Option<int>, at: int,
          now: int)
    requires config.maxSize >= 1
    ensures var cells := Run(config, ops + [Op.Set(k, data, ttl, at)]).cells;
      && Has(cells, k) && At(cells, k).data == data
      && (Hit(cells, k, now) <==> now - at <= if ttl.Some? then ttl.value else config.defaultTtl)
  {
    var all := ops + [Op.Set(k, data, ttl, at)];
    assert all[..|ops|] == ops;
    PutHas(Evicted(Run(config, ops).cells, config.maxSize), Fresh(Op.Set(k, data, ttl, at), config));
    var i := HitExactly(config, all, k, now);
    assert i == |ops|;
  }

  lemma {:induction false} PutHas(cells: seq<Cell>, c: Cell)
    ensures Has(Put(cells, c), c.key)
  {
    var more := Put(cells, c);
    assert exists i: nat :: i < |more| && more[i].key == c.key by {
      if Has(cells, c.key) {
        assert more[IndexOf(cells, c.key)].key == c.key;
      } else {
        assert more[|cells|].key == c.key;
      }
    }
  }

  lemma {:induction false} SizeAndCounters(config: Config, ops: seq<Op>)
    ensures var st := Run(config, ops);
      && |st.cells| <= Max(config.maxSize, 0)
      && st.hits + st.misses == Gets(ops)
  {
    if ops != [] {
      SizeAndCounters(config, ops[..|ops| - 1]);
    }
    if config.maxSize >= 1 {
      RunIsSound(config, ops);
    } else {
      NeverStores(config, ops);
    }
  }

  lemma {:induction false} NeverStores(config: Config, ops: seq<Op>)
    requires config.maxSize <= 0
    ensures Run(config, ops).cells == []
  {
    if ops != [] {
      NeverStores(config, ops[..|ops| - 1]);
    }
  }

  // ---------------------------------------------------------------- the victim

  /** The number of operations up to the last one that touched `k`: a hit, or a set that found it absent. */
  function LastTouch(config: Config, ops: seq<Op>, k: string): nat {
    if ops == [] then 0
    else
      var front, op := ops[..|ops| - 1], ops[|ops| - 1];
      var cells := Run(config, front).cells;
      if op.Get? && op.key == k && Hit(cells, k, op.now) then |ops|
      else if op.Set? && op.key == k && !Has(Evicted(cells, config.maxSize), k) then |ops|
      else LastTouch(config, front, k)
  }

  lemma {:induction false} LastTouchBound(config: Config, ops: seq<Op>, k: string)
    ensures LastTouch(config, ops, k) <= |ops|
  {
    if ops != [] {
      LastTouchBound(config, ops[..|ops| - 1], k);
    }
  }

  type Ages = string -> int

  function TouchTimes(config: Config, ops: seq<Op>): Ages {
    (k: string) => LastTouch(config, ops, k)
  }

  /** The cells stand in increasing order of `age`. */
  ghost predicate InOrder(cells: seq<Cell>, age: Ages) {
    forall i, j :: 0 <= i < j < |cells| ==> age(cells[i].key) < age(cells[j].key)
  }

  lemma {:induction false} InOrderSnoc(cells: seq<Cell>, c: Cell, age: Ages)
    ensures InOrder(cells + [c], age) <==> InOrder(cells, age) && forall x :: x in cells ==> age(x.key) < age(c.key)
  {
    var all := cells + [c];
    if InOrder(all, age) {
      forall x | x in cells
        ensures age(x.key) < age(c.key)
      {
        var i: nat :| i < |cells| && cells[i] == x;
        assert all[i] == x && all[|cells|] == c;
      }
      assert forall i :: 0 <= i < |cells| ==> cells[i] == all[i];
    }
  }

  lemma {:induction false} InOrderWithout(cells: seq<Cell>, keys: set<string>, age: Ages)
    requires InOrder(cells, age)
    ensures InOrder(Without(cells, keys), age)
  {
    if cells != [] {
      var front, c := cells[..|cells| - 1], cells[|cells| - 1];
      assert cells == front + [c];
      InOrderSnoc(front, c, age);
      InOrderWithout(front, keys, age);
      WithoutMeans(front, keys);
      InOrderSnoc(Without(front, keys), c, age);
    }
  }

  lemma {:induction false} InOrderAgrees(cells: seq<Cell>, a: Ages, b: Ages)
    requires InOrder(cells, a) && forall c :: c in cells ==> a(c.key) == b(c.key)
    ensures InOrder(cells, b)
  {
    forall i, j | 0 <= i < j < |cells|
      ensures b(cells[i].key) < b(cells[j].key)
    {
      assert cells[i] in cells && cells[j] in cells;
    }
  }

  /** Putting a new cell at the end, as the newest. */
  lemma {:induction false} NewestLast(cells: seq<Cell>, c: Cell, a: Ages, b: Ages, n: int)
    requires InOrder(cells, a) && (forall x :: x in cells ==> a(x.key) == b(x.key) && a(x.key) < n) && b(c.key) == n
    ensures InOrder(cells + [c], b)
  {
    InOrderAgrees(cells, a, b);
    InOrderSnoc(cells, c, b);
  }

  lemma {:induction false} OrderAfterGet(config: Config, ops: seq<Op>, k: string, now: int)
    requires config.maxSize >= 1
    requires InOrder(Run(config, ops).cells, TouchTimes(config, ops))
    ensures var all := ops + [Get(k, now)]; InOrder(Run(config, all).cells, TouchTimes(config, all))
  {
    var all, cells := ops + [Get(k, now)], Run(config, ops).cells;
    assert all[..|ops|] == ops;
    var a, b := TouchTimes(config, ops), TouchTimes(config, all);
    WithoutMeans(cells, {k});
    InOrderWithout(cells, {k}, a);
    forall x | x in Without(cells, {k})
      ensures a(x.key) == b(x.key) && a(x.key) < |all|
    {
      LastTouchBound(config, ops, x.key);
    }
    if Hit(cells, k, now) {
      var c := At(cells, k);
      NewestLast(Without(cells, {k}), c.(hitCount := c.hitCount + 1), a, b, |all|);
    } else {
      InOrderAgrees(Without(cells, {k}), a, b);
    }
  }

  lemma {:induction false} OrderAfterSet(config: Config, ops: seq<Op>, op: Op)
    requires config.maxSize >= 1 && op.Set?
    requires InOrder(Run(config, ops).cells, TouchTimes(config, ops))
    ensures var all := ops + [op]; InOrder(Run(config, all).cells, TouchTimes(config, all))
  {
    var all, cells := ops + [op], Run(config, ops).cells;
    assert all[..|ops|] == ops;
    var a, b := TouchTimes(config, ops), TouchTimes(config, all);
    var less, c := Evicted(cells, config.maxSize), Fresh(op, config);
    assert InOrder(less, a);
    if Has(less, c.key) {
      assert forall x :: x in less ==> a(x.key) == b(x.key);
      InOrderAgrees(less, a, b);
      assert Put(less, c) == less[IndexOf(less, c.key) := c];
    } else {
      forall x | x in less
        ensures a(x.key) == b(x.key) && a(x.key) < |all|
      {
        LastTouchBound(config, ops, x.key);
        var i: nat :| i < |less| && less[i] == x;
      }
      NewestLast(less, c, a, b, |all|);
    }
  }

  lemma {:induction false} OrderAfterRemoval(config: Config, ops: seq<Op>, op: Op)
    requires op.Delete? || op.Clear? || op.Cleanup?
    requires InOrder(Run(config, ops).cells, TouchTimes(config, ops))
    ensures var all := ops + [op]; InOrder(Run(config, all).cells, TouchTimes(config, all))
  {
    var all, cells := ops + [op], Run(config, ops).cells;
    assert all[..|ops|] == ops;
    var a, b := TouchTimes(config, ops), TouchTimes(config, all);
    var keys := if op.Delete? then {op.key} else if op.Cleanup? then ExpiredKeys(cells, op.now) else {};
    InOrderWithout(cells, keys, a);
    assert forall k :: a(k) == b(k);
    if !op.Clear? {
      InOrderAgrees(Without(cells, keys), a, b);
    }
  }

  /** The cells stand in the order of their last touches, so the cell that is evicted has the oldest. */
  lemma {:induction false} OldestTouchFirst(config: Config, ops: seq<Op>)
    requires config.maxSize >= 1
    ensures var cells := Run(config, ops).cells;
      forall i, j :: 0 <= i < j < |cells| ==> LastTouch(config, ops, cells[i].key) < LastTouch(config, ops, cells[j].key)
  {
    OldestFirst(config, ops);
    var cells, age := Run(config, ops).cells, TouchTimes(config, ops);
    assert forall k :: age(k) == LastTouch(config, ops, k);
    assert forall i, j :: 0 <= i < j < |cells| ==> age(cells[i].key) < age(cells[j].key);
  }

  lemma {:induction false} OldestFirst(config: Config, ops: seq<Op>)
    requires config.maxSize >= 1
    ensures InOrder(Run(config, ops).cells, TouchTimes(config, ops))
  {
    if ops != [] {
      var front, op := ops[..|ops| - 1], ops[|ops| - 1];
      assert ops == front + [op];
      OldestFirst(config, front);
      hide InOrder, Run, TouchTimes;
      match op
      case Get(k, now) => OrderAfterGet(config, front, k, now);
      case Set(_, _, _, _) => OrderAfterSet(config, front, op);
      case _ => OrderAfterRemoval(config, front, op);
    }
  }

  // ---------------------------------------------------------------- survival

  ghost predicate Fits(cells: seq<Cell>, config: Config) {
    Unique(cells) && |cells| <= config.maxSize
  }

  /** How many cells stand behind key `k`. */
  function Behind(cells: seq<Cell>, k: string): nat
    requires Has(cells, k)
  {
    |cells| - 1 - IndexOf(cells, k)
  }

  /** The operation does not itself take `k` out: it does not delete it or find it expired. */
  predicate Spares(cells: seq<Cell>, op: Op, k: string) {
    match op
    case Get(key, now) => key == k && Has(cells, k) ==> !Expired(At(cells, k), now)
    case Set(_, _, _, _) => true
    case Delete(key) => key != k
    case Clear => false
    case Cleanup(now) => Has(cells, k) ==> !Expired(At(cells, k), now)
  }

  function RunFrom(st: Store, config: Config, ops: seq<Op>): Store {
    if ops == [] then st else Step(RunFrom(st, config, ops[..|ops| - 1]), config, ops[|ops| - 1])
  }

  predicate AllSpare(st: Store, config: Config, ops: seq<Op>, k: string) {
    if ops == [] then true
    else
      var front := ops[..|ops| - 1];
      AllSpare(st, config, front, k) && Spares(RunFrom(st, config, front).cells, ops[|ops| - 1], k)
  }

  /** The set and get calls among the operations. */
  function Calls(ops: seq<Op>): nat {
    if ops == [] then 0
    else Calls(ops[..|ops| - 1]) + if ops[|ops| - 1].Get? || ops[|ops| - 1].Set? then 1 else 0
  }

  lemma {:induction false} StepFits(st: Store, config: Config, op: Op)
    requires config.maxSize >= 1 && Fits(st.cells, config)
    ensures Fits(Step(st, config, op).cells, config)
  {
    var cells := st.cells;
    match op
    case Get(k, now) =>
      WithoutMeans(cells, {k});
      if Hit(cells, k, now) {
        WithoutShorter(cells, k);
        assert forall c :: c in Without(cells, {k}) ==> c.key != k;
      }
    case Set(_, _, _, _) =>
    case Delete(k) => WithoutMeans(cells, {k});
    case Clear =>
    case Cleanup(now) => WithoutMeans(cells, ExpiredKeys(cells, now));
  }

  lemma {:induction false} BehindWithout(cells: seq<Cell>, keys: set<string>, k: string)
    requires Has(cells, k) && k !in keys
    ensures Has(Without(cells, keys), k) && Behind(Without(cells, keys), k) <= Behind(cells, k)
  {
    var front, c := cells[..|cells| - 1], cells[|cells| - 1];
    var w := Without(front, keys);
    assert (w + [c])[..|w|] == w;
    if Has(front, k) {
      BehindWithout(front, keys, k);
    } else {
      WithoutMeans(front, keys);
      AbsentMeans(front, k);
      AbsentMeans(w, k);
    }
  }

  lemma {:induction false} AbsentMeans(cells: seq<Cell>, k: string)
    ensures Has(cells, k) <==> exists c :: c in cells && c.key == k
  {
    if Has(cells, k) {
      assert At(cells, k) in cells;
    }
  }

  lemma {:induction false} LastHasNoneBehind(cells: seq<Cell>, c: Cell)
    requires !Has(cells, c.key)
    ensures Has(cells + [c], c.key) && Behind(cells + [c], c.key) == 0
    ensures forall k :: k != c.key ==> (Has(cells + [c], k) <==> Has(cells, k))
    ensures forall k :: k != c.key && Has(cells, k) ==> Behind(cells + [c], k) == Behind(cells, k) + 1
  {
    assert (cells + [c])[..|cells|] == cells;
  }

  lemma {:induction false} BehindEvicted(cells: seq<Cell>, config: Config, k: string)
    requires config.maxSize >= 1 && Fits(cells, config) && Has(cells, k)
    ensures var less := Evicted(cells, config.maxSize);
      && (Has(less, k) <==> Behind(cells, k) < config.maxSize - 1)
      && (Has(less, k) ==> Behind(less, k) == Behind(cells, k))
  {
    var less := Evicted(cells, config.maxSize);
    if |cells| == config.maxSize {
      assert less == cells[1..];
      var i := IndexOf(cells, k);
      if i > 0 {
        assert less[i - 1].key == k;
        UniqueIndex(less, i - 1);
      } else {
        assert forall j :: 0 <= j < |less| ==> less[j] == cells[j + 1] && less[j].key != k;
      }
    }
  }

  lemma {:induction false} UniqueIndex(cells: seq<Cell>, i: nat)
    requires i < |cells| && forall j :: 0 <= j < i ==> cells[j].key != cells[i].key
    ensures IndexOf(cells, cells[i].key) == i
  {
  }

  lemma {:induction false} BehindPut(cells: seq<Cell>, c: Cell, k: string)
    requires Has(cells, k) || c.key == k
    ensures Has(Put(cells, c), k)
    ensures Has(cells, k) ==> Behind(Put(cells, c), k) <= Behind(cells, k) + 1
    ensures !Has(cells, k) ==> Behind(Put(cells, c), k) == 0
  {
    if Has(cells, c.key) {
      var more := Put(cells, c);
      if Has(cells, k) {
        var i := IndexOf(cells, k);
        assert more[i].key == k;
        assert forall j :: 0 <= j < |cells| ==> more[j].key == cells[j].key;
        UniqueIndex(more, i);
      }
    } else {
      LastHasNoneBehind(cells, c);
    }
  }

  /** One operation puts at most one more cell behind `k`, and only a get or a set does. */
  lemma {:induction false} StepBehind(st: Store, config: Config, op: Op, k: string)
    requires config.maxSize >= 1 && Fits(st.cells, config) && Has(st.cells, k) && Spares(st.cells, op, k)
    requires op.Set? ==> Behind(st.cells, k) < config.maxSize - 1
    ensures var cells := Step(st, config, op).cells;
      Has(cells, k) && Behind(cells, k) <= Behind(st.cells, k) + if op.Get? || op.Set? then 1 else 0
  {
    var cells := st.cells;
    match op
    case Get(key, now) =>
      WithoutMeans(cells, {key});
      AbsentMeans(Without(cells, {key}), key);
      if key != k {
        BehindWithout(cells, {key}, k);
      }
      if Hit(cells, key, now) {
        var c := At(cells, key);
        LastHasNoneBehind(Without(cells, {key}), c.(hitCount := c.hitCount + 1));
      }
    case Set(_, _, _, _) =>
      BehindEvicted(cells, config, k);
      BehindPut(Evicted(cells, config.maxSize), Fresh(op, config), k);
    case Delete(key) => BehindWithout(cells, {key}, k);
    case Cleanup(now) =>
      NotExpired(cells, k, now);
      BehindWithout(cells, ExpiredKeys(cells, now), k);
  }

  lemma {:induction false} NotExpired(cells: seq<Cell>, k: string, now: int)
    requires Unique(cells) && Hit(cells, k, now)
    ensures k !in ExpiredKeys(cells, now)
  {
    forall c | c in cells && c.key == k
      ensures !Expired(c, now)
    {
      UniqueAt(cells, c);
    }
  }

  /** With `b` cells behind it, a key outlasts any maxSize - 1 - b set and get calls that spare it. */
  lemma {:induction false} Survives(st: Store, config: Config, ops: seq<Op>, k: string)
    requires config.maxSize >= 1 && Fits(st.cells, config) && Has(st.cells, k)
    requires AllSpare(st, config, ops, k) && Behind(st.cells, k) + Calls(ops) <= config.maxSize - 1
    ensures var after := RunFrom(st, config, ops).cells;
      Fits(after, config) && Has(after, k) && Behind(after, k) <= Behind(st.cells, k) + Calls(ops)
  {
    if ops != [] {
      var front, op := ops[..|ops| - 1], ops[|ops| - 1];
      Survives(st, config, front, k);
      var before := RunFrom(st, config, front);
      StepFits(before, config, op);
      StepBehind(before, config, op, k);
    }
  }

  lemma {:induction false} RunInParts(config: Config, a: seq<Op>, b: seq<Op>)
    ensures Run(config, a + b) == RunFrom(Run(config, a), config, b)
  {
    if b == [] {
      assert a + b == a;
    } else {
      assert (a + b)[..|a + b| - 1] == a + b[..|b| - 1];
      RunInParts(config, a, b[..|b| - 1]);
    }
  }

  /** The operation touches `k`: a hit, or a set that finds it absent. */
  predicate Touches(config: Config, cells: seq<Cell>, op: Op, k: string) {
    || (op.Get? && op.key == k && Hit(cells, k, op.now))
    || (op.Set? && op.key == k && !Has(Evicted(cells, config.maxSize), k))
  }

  /** A touched key is still there after any maxSize - 1 set and get calls that spare it. */
  lemma {:induction false} SurvivesAfterTouch(config: Config, before: seq<Op>, touch: Op, later: seq<Op>, k: string)
    requires config.maxSize >= 1 && Touches(config, Run(config, before).cells, touch, k)
    requires AllSpare(Run(config, before + [touch]), config, later, k) && Calls(later) <= config.maxSize - 1
    ensures Has(Run(config, before + [touch] + later).cells, k)
  {
    var cells := Run(config, before).cells;
    var st := Run(config, before + [touch]);
    assert (before + [touch])[..|before|] == before;
    if touch.Get? {
      var c := At(cells, k);
      WithoutMeans(cells, {k});
      AbsentMeans(Without(cells, {k}), k);
      LastHasNoneBehind(Without(cells, {k}), c.(hitCount := c.hitCount + 1));
    } else {
      LastHasNoneBehind(Evicted(cells, config.maxSize), Fresh(touch, config));
    }
    RunIsSound(config, before + [touch]);
    RunInParts(config, before + [touch], later);
    Survives(st, config, later, k);
  }

  /** The sets are of new keys: distinct, other than `k` and not in the cache. */
  ghost predicate NewKeys(cells: seq<Cell>, sets: seq<Op>, k: string) {
    && (forall i :: 0 <= i < |sets| ==> sets[i].Set? && sets[i].key != k && !Has(cells, sets[i].key))
    && (forall i, j :: 0 <= i < j < |sets| ==> sets[i].key != sets[j].key)
  }

  lemma {:induction false} SetNewKey(st: Store, config: Config, op: Op)
    requires config.maxSize >= 1 && Fits(st.cells, config) && op.Set? && !Has(st.cells, op.key)
    ensures var cells := Step(st, config, op).cells;
      && Fits(cells, config)
      && (forall k :: k != op.key && Has(cells, k) ==> Has(st.cells, k))
      && (forall k :: Has(st.cells, k) ==> (Has(cells, k) <==> Behind(st.cells, k) < config.maxSize - 1))
      && (forall k :: Has(st.cells, k) && Has(cells, k) ==> Behind(cells, k) == Behind(st.cells, k) + 1)
  {
    StepFits(st, config, op);
    var less, c := Evicted(st.cells, config.maxSize), Fresh(op, config);
    forall k
      ensures Has(less, k) ==> Has(st.cells, k)
      ensures Has(st.cells, k) ==> (Has(less, k) <==> Behind(st.cells, k) < config.maxSize - 1)
      ensures Has(st.cells, k) && Has(less, k) ==> Behind(less, k) == Behind(st.cells, k)
    {
      AbsentMeans(less, k);
      AbsentMeans(st.cells, k);
      assert forall x :: x in less ==> x in st.cells;
      if Has(st.cells, k) {
        BehindEvicted(st.cells, config, k);
      }
    }
    LastHasNoneBehind(less, c);
  }

  /** The bound is sharp: under sets of new keys, `k` stays exactly as long as the bound says. */
  lemma {:induction false} SurvivalIsSharp(st: Store, config: Config, sets: seq<Op>, k: string)
    requires config.maxSize >= 1 && Fits(st.cells, config) && Has(st.cells, k) && NewKeys(st.cells, sets, k)
    ensures var after := RunFrom(st, config, sets).cells;
      && Fits(after, config)
      && (Has(after, k) <==> Behind(st.cells, k) + |sets| <= config.maxSize - 1)
      && (Has(after, k) ==> Behind(after, k) == Behind(st.cells, k) + |sets|)
      && (forall x :: Has(after, x) ==> Has(st.cells, x) || exists i :: 0 <= i < |sets| && sets[i].key == x)
  {
    if sets != [] {
      var front, op := sets[..|sets| - 1], sets[|sets| - 1];
      SurvivalIsSharp(st, config, front, k);
      var before := RunFrom(st, config, front);
      assert forall i :: 0 <= i < |front| ==> front[i] == sets[i] && sets[i].key != op.key;
      assert !Has(before.cells, op.key);
      SetNewKey(before, config, op);
      forall x | Has(RunFrom(st, config, sets).cells, x)
        ensures Has(st.cells, x) || exists i :: 0 <= i < |sets| && sets[i].key == x
      {
        if x == op.key {
          assert sets[|sets| - 1].key == x;
        } else if !Has(st.cells, x) {
          var i :| 0 <= i < |front| && front[i].key == x;
          assert sets[i].key == x;
        }
      }
    }
  }
}
