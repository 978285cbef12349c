/**
 The single-flight, stale-while-revalidate cache of backend/app/data_providers/__init__.py
 as a labelled step system.  A step is one access to shared memory by one thread: a cache
 read, a clock read, taking or leaving a lock, a test or an update under a lock.  Steps of
 any number of callers and background jobs interleave freely with a clock that never goes
 back and a backend that may drop, refuse to read or refuse to write an entry at any time.
 */
module SwrCache {
  import opened Basics

  type Key = string
  type Value = int
  type Tid = nat
  type LockId = nat

  const SWR_MULTIPLIER := 5

  // ---------------------------------------------------------------- stored entries

  /** What the backend holds: a payload written before envelopes existed, or an envelope. */
  datatype Entry =
    | Legacy(payload: Value)
    | Envelope(content: Option<Value>, storedAt: int, hardUntil: int)

  /** A backend slot; the backend hides it from readers once `expiry` is reached. */
  datatype Cell = Cell(entry: Entry, expiry: int)

  function Wrap(value: Option<Value>, ttl: int, now: int): Entry {
    Envelope(value, now, now + Max(1, ttl))
  }

  function Content(e: Entry): Option<Value> {
    if e.Legacy? then Some(e.payload) else e.content
  }

  predicate Fresh(e: Entry, now: int) {
    e.Legacy? || now < e.hardUntil
  }

  // ---------------------------------------------------------------- threads

  datatype Role = Caller(force: bool, allowStale: bool) | Runner

  datatype Pc =
    | ReadFirst
    | JudgeFirst(raw: Option<Entry>)
    | SchedWait(stale: Value)
    | SchedTest(stale: Value)
    | SchedAdd(stale: Value)
    | SchedSkip(stale: Value)
    | SchedAdded(stale: Value)
    | Submit(stale: Value)
    | Queued
    | LockFast
    | LockWait
    | LockTest
    | LockMake
    | LockGot(lock: LockId)
    | Acquire(lock: LockId)
    | ReadSecond(lock: LockId)
    | JudgeSecond(lock: LockId, raw: Option<Entry>)
    | Computing(held: Option<LockId>)
    | Wrapping(held: Option<LockId>, result: Option<Value>)
    | Writing(held: Option<LockId>, result: Option<Value>, envelope: Entry)
    | Leaving(lock: LockId, answer: Option<Value>)
    | DropWait(answer: Option<Value>)
    | DropIn(answer: Option<Value>)
    | DropOut(answer: Option<Value>)
    | Done(answer: Option<Value>)

  datatype Thread = Thread(role: Role, key: Key, ttl: int, pc: Pc)

  datatype State = State(
    threads: map<Tid, Thread>,
    locks: map<Key, LockId>,      // _inflight_locks
    nextLock: LockId,             // identity of the next threading.Lock()
    owners: map<LockId, Tid>,     // per-key locks that are held, with their holder
    master: Option<Tid>,          // holder of _inflight_master
    bgLock: Option<Tid>,          // holder of _bg_refreshing_lock
    refreshing: set<Key>,         // _bg_refreshing
    store: map<Key, Cell>,
    now: int)

  /** What the environment decides at a step: success, an exception, a result, a new job. */
  datatype Choice = Ok | Fail | Give(result: Option<Value>) | Job(id: Tid)

  datatype Action =
    | Spawn(id: Tid, key: Key, ttl: int, force: bool, allowStale: bool)
    | Go(t: Tid, choice: Choice)
    | Evict(key: Key)
    | ExternalSet(key: Key, value: Value, ttl: int)
    | Tick(now: int)

  function Lookup(s: State, k: Key): Option<Entry> {
    if k in s.store && s.now < s.store[k].expiry then Some(s.store[k].entry) else None
  }

  function Put(s: State, k: Key, e: Entry, ttl: int): State {
    s.(store := s.store[k := Cell(e, s.now + ttl * SWR_MULTIPLIER)])
  }

  function At(s: State, t: Tid, pc: Pc): State
    requires t in s.threads
  {
    s.(threads := s.threads[t := s.threads[t].(pc := pc)])
  }

  // ---------------------------------------------------------------- steps

  predicate CanGo(s: State, t: Tid, c: Choice) {
    t in s.threads &&
    match s.threads[t].pc
    case ReadFirst => c.Ok? || c.Fail?
    case ReadSecond(_) => c.Ok? || c.Fail?
    case SchedWait(_) => c.Ok? && s.bgLock.None?
    case DropWait(_) => c.Ok? && s.bgLock.None?
    case LockWait => c.Ok? && s.master.None?
    case Acquire(l) => c.Ok? && (s.threads[t].role.Runner? || l !in s.owners)
    case Submit(_) => c.Fail? || (c.Job? && c.id !in s.threads)
    case Computing(_) => c.Give? || c.Fail?
    case Writing(_, _, _) => c.Ok? || c.Fail?
    case Done(_) => false
    case _ => c.Ok?
  }

  predicate Enabled(s: State, a: Action) {
    match a
    case Spawn(id, _, _, _, _) => id !in s.threads
    case Go(t, c) => CanGo(s, t, c)
    case Evict(_) => true
    case ExternalSet(_, _, _) => true
    case Tick(now) => s.now <= now
  }

  /** What a step does to shared memory, beside moving its thread's program counter. */
  datatype Effect =
    | Nothing
    | TakeMaster | LeaveMaster | NewLock
    | TakeBg | LeaveBg | Mark | Unmark
    | TakeLock(lock: LockId) | LeaveLock(lock: LockId)
    | Fork(id: Tid)
    | Save(entry: Entry)

  /** Leave `_compute_and_store` with `answer`: a forced call holds no lock to release. */
  function AfterCompute(held: Option<LockId>, answer: Option<Value>): Pc {
    if held.Some? then Leaving(held.value, answer) else Done(answer)
  }

  /** A cache read is usable at once: a value that is not null and not past its hard limit. */
  predicate Usable(raw: Option<Entry>, now: int) {
    raw.Some? && Content(raw.value).Some? && Fresh(raw.value, now)
  }

  predicate InGetLock(pc: Pc) {
    pc.Queued? || pc.LockFast? || pc.LockWait? || pc.LockTest? || pc.LockMake? || pc.LockGot? || pc.Acquire?
  }

  predicate InCompute(pc: Pc) {
    pc.Computing? || pc.Wrapping? || pc.Writing?
  }

  predicate InLookAgain(pc: Pc) {
    pc.ReadSecond? || pc.JudgeSecond? || pc.Leaving?
  }

  /** `_get_lock` with its double check, then the acquisition of the lock it returned. */
  function MoveGetLock(s: State, th: Thread): (Pc, Effect) {
    match th.pc
    case LockFast => (if th.key in s.locks then Acquire(s.locks[th.key]) else LockWait, Nothing)
    case LockWait => (LockTest, TakeMaster)
    case LockTest => (if th.key in s.locks then LockGot(s.locks[th.key]) else LockMake, Nothing)
    case LockMake => (LockGot(s.nextLock), NewLock)
    case LockGot(l) => (Acquire(l), LeaveMaster)
    case Acquire(l) =>
      if l in s.owners then (DropWait(None), Nothing)
      else (if th.role.Runner? then Computing(Some(l)) else ReadSecond(l), TakeLock(l))
    case _ => (LockFast, Nothing)
  }

  /** Under the per-key lock: the second look at the cache, and the release. */
  function MoveLookAgain(s: State, th: Thread, c: Choice): (Pc, Effect) {
    match th.pc
    case ReadSecond(l) => (JudgeSecond(l, if c.Ok? then Lookup(s, th.key) else None), Nothing)
    case JudgeSecond(l, raw) =>
      (if Usable(raw, s.now) then Leaving(l, Content(raw.value)) else Computing(Some(l)), Nothing)
    case Leaving(l, a) => (if th.role.Runner? then DropWait(a) else Done(a), LeaveLock(l))
    case _ => (th.pc, Nothing)
  }

  /** `_compute_and_store`, with or without the per-key lock. */
  function MoveCompute(s: State, th: Thread, c: Choice): (Pc, Effect) {
    match th.pc
    case Computing(h) => (if c.Give? then Wrapping(h, c.result) else AfterCompute(h, None), Nothing)
    case Wrapping(h, r) => (Writing(h, r, Wrap(r, th.ttl, s.now)), Nothing)
    case Writing(h, r, e) => (AfterCompute(h, r), if c.Ok? then Save(e) else Nothing)
    case _ => (th.pc, Nothing)
  }

  /** The unlocked part of `cached_or_compute`, and `_schedule_background_refresh`. */
  function MoveCall(s: State, th: Thread, c: Choice): (Pc, Effect) {
    match th.pc
    case ReadFirst => (JudgeFirst(if c.Ok? then Lookup(s, th.key) else None), Nothing)
    case JudgeFirst(raw) =>
      if Usable(raw, s.now) then
        (Done(Content(raw.value)), Nothing)
      else if raw.Some? && Content(raw.value).Some? && th.role.Caller? && th.role.allowStale then
        (SchedWait(Content(raw.value).value), Nothing)
      else
        (LockFast, Nothing)
    case SchedWait(v) => (SchedTest(v), TakeBg)
    case SchedTest(v) => (if th.key in s.refreshing then SchedSkip(v) else SchedAdd(v), Nothing)
    case SchedAdd(v) => (SchedAdded(v), Mark)
    case SchedSkip(v) => (Done(Some(v)), LeaveBg)
    case SchedAdded(v) => (Submit(v), LeaveBg)
    case Submit(v) => if c.Job? then (Done(Some(v)), Fork(c.id)) else (DropWait(Some(v)), Nothing)
    case DropWait(a) => (DropIn(a), TakeBg)
    case DropIn(a) => (DropOut(a), Unmark)
    case DropOut(a) => (Done(a), LeaveBg)
    case _ => (th.pc, Nothing)
  }

  function Move(s: State, th: Thread, c: Choice): (Pc, Effect) {
    if InGetLock(th.pc) then MoveGetLock(s, th)
    else if InCompute(th.pc) then MoveCompute(s, th, c)
    else if InLookAgain(th.pc) then MoveLookAgain(s, th, c)
    else MoveCall(s, th, c)
  }

  function Touch(s: State, t: Tid, e: Effect): State
    requires t in s.threads
  {
    var th := s.threads[t];
    match e
    case Nothing => s
    case TakeMaster => s.(master := Some(t))
    case LeaveMaster => s.(master := None)
    case NewLock => s.(locks := s.locks[th.key := s.nextLock], nextLock := s.nextLock + 1)
    case TakeBg => s.(bgLock := Some(t))
    case LeaveBg => s.(bgLock := None)
    case Mark => s.(refreshing := s.refreshing + {th.key})
    case Unmark => s.(refreshing := s.refreshing - {th.key})
    case TakeLock(l) => s.(owners := s.owners[l := t])
    case LeaveLock(l) => s.(owners := s.owners - {l})
    case Fork(id) => s.(threads := s.threads[id := Thread(Runner, th.key, th.ttl, Queued)])
    case Save(entry) => Put(s, th.key, entry, th.ttl)
  }

  function GoStep(s: State, t: Tid, c: Choice): State
    requires CanGo(s, t, c)
  {
    var (pc, e) := Move(s, s.threads[t], c);
    Touch(At(s, t, pc), t, e)
  }

  function Next(s: State, a: Action): State
    requires Enabled(s, a)
  {
    match a
    case Spawn(id, k, ttl, force, allowStale) =>
      var pc := if force then Computing(None) else ReadFirst;
      s.(threads := s.threads[id := Thread(Caller(force, allowStale), k, ttl, pc)])
    case Go(t, c) => GoStep(s, t, c)
    case Evict(k) => s.(store := s.store - {k})
    case ExternalSet(k, v, ttl) => Put(s, k, Wrap(Some(v), ttl, s.now), ttl)
    case Tick(now) => s.(now := now)
  }

  /** A fresh process; the backend may already hold anything. */
  ghost predicate Init(s: State) {
    s.threads == map[] && s.locks == map[] && s.nextLock == 0 && s.owners == map[] &&
    s.master.None? && s.bgLock.None? && s.refreshing == {}
  }

  datatype Run = Run(states: seq<State>, actions: seq<Action>)

  ghost predicate IsRun(r: Run) {
    && |r.states| == |r.actions| + 1
    && Init(r.states[0])
    && forall i :: 0 <= i < |r.actions| ==>
         Enabled(r.states[i], r.actions[i]) && r.states[i + 1] == Next(r.states[i], r.actions[i])
  }

  // ---------------------------------------------------------------- the invariant

  function Held(pc: Pc): Option<LockId> {
    match pc
    case ReadSecond(l) => Some(l)
    case JudgeSecond(l, _) => Some(l)
    case Computing(h) => h
    case Wrapping(h, _) => h
    case Writing(h, _, _) => h
    case Leaving(l, _) => Some(l)
    case _ => None
  }

  /** The lock object a thread has been handed by `_get_lock`. */
  function Handed(pc: Pc): Option<LockId> {
    match pc
    case LockGot(l) => Some(l)
    case Acquire(l) => Some(l)
    case _ => Held(pc)
  }

  ghost predicate InMaster(pc: Pc) {
    pc.LockTest? || pc.LockMake? || pc.LockGot?
  }

  ghost predicate InBg(pc: Pc) {
    pc.SchedTest? || pc.SchedAdd? || pc.SchedSkip? || pc.SchedAdded? || pc.DropIn? || pc.DropOut?
  }

  predicate InDrop(pc: Pc) {
    pc.DropWait? || pc.DropIn? || pc.DropOut?
  }

  /** The thread stands for the one job of its key: being submitted, queued, running or failing. */
  ghost predicate Carries(th: Thread) {
    if th.role.Runner? then !th.pc.DropOut? && !th.pc.Done?
    else th.pc.SchedAdded? || th.pc.Submit? || th.pc.DropWait? || th.pc.DropIn?
  }

  ghost predicate RoleFits(th: Thread) {
    match th.role
    case Runner =>
      && (InGetLock(th.pc) || InCompute(th.pc) || th.pc.Leaving? || InDrop(th.pc) || th.pc.Done?)
      && (InCompute(th.pc) ==> th.pc.held.Some?)
    case Caller(force, _) =>
      && !th.pc.Queued?
      && (force ==> InCompute(th.pc) || th.pc.Done?)
      && (InCompute(th.pc) ==> (force <==> th.pc.held.None?))
  }

  ghost predicate ThreadInv(s: State, t: Tid)
    requires t in s.threads
  {
    var th := s.threads[t];
    && RoleFits(th)
    && (InMaster(th.pc) <==> s.master == Some(t))
    && (InBg(th.pc) <==> s.bgLock == Some(t))
    && (Handed(th.pc).Some? ==> th.key in s.locks && s.locks[th.key] == Handed(th.pc).value)
    && (Held(th.pc).Some? ==> Held(th.pc).value in s.owners && s.owners[Held(th.pc).value] == t)
    && (th.pc.LockMake? ==> th.key !in s.locks)
    && (th.pc.SchedAdd? ==> th.key !in s.refreshing)
    && (Carries(th) ==> th.key in s.refreshing)
  }

  ghost predicate LocksInv(s: State) {
    && (forall k :: k in s.locks ==> s.locks[k] < s.nextLock)
    && (forall k, k' :: k in s.locks && k' in s.locks && s.locks[k] == s.locks[k'] ==> k == k')
    && (forall l :: l in s.owners ==>
         s.owners[l] in s.threads && Held(s.threads[s.owners[l]].pc) == Some(l))
    && (s.master.Some? ==> s.master.value in s.threads)
    && (s.bgLock.Some? ==> s.bgLock.value in s.threads)
  }

  ghost predicate CarriesFor(s: State, t: Tid, k: Key) {
    t in s.threads && Carries(s.threads[t]) && s.threads[t].key == k
  }

  ghost predicate RefreshInv(s: State) {
    && (forall k :: k in s.refreshing ==> exists t :: CarriesFor(s, t, k))
    && (forall t, t', k :: CarriesFor(s, t, k) && CarriesFor(s, t', k) ==> t == t')
  }

  ghost predicate Inv(s: State) {
    && (forall t :: t in s.threads ==> ThreadInv(s, t))
    && LocksInv(s)
    && RefreshInv(s)
  }

  /**
   How a step of one thread changes what the invariant can see of it.  Everything here is
   about the moving thread alone; the lemmas below lift it to the whole state.
   */
  ghost predicate Shape(s: State, th: Thread, pc: Pc, e: Effect) {
    var th' := th.(pc := pc);
    && RoleFits(th')
    && (e.TakeMaster? ==> s.master.None?)
    && (e.LeaveMaster? ==> InMaster(th.pc))
    && (e.NewLock? ==> th.pc.LockMake?)
    && (e.TakeBg? ==> s.bgLock.None?)
    && (e.LeaveBg? ==> InBg(th.pc))
    && (e.Mark? ==> th.pc.SchedAdd?)
    && (e.Unmark? ==> th.pc.DropIn? && Carries(th))
    && (e.TakeLock? ==> e.lock !in s.owners && Held(th.pc).None?)
    && (e.LeaveLock? ==> Held(th.pc) == Some(e.lock))
    && (e.Fork? ==> e.id !in s.threads && Carries(th))
    && (InMaster(pc) <==> if e.TakeMaster? || e.LeaveMaster? then e.TakeMaster? else InMaster(th.pc))
    && (InBg(pc) <==> if e.TakeBg? || e.LeaveBg? then e.TakeBg? else InBg(th.pc))
    && Held(pc) == (if e.TakeLock? then Some(e.lock) else if e.LeaveLock? then None else Held(th.pc))
    && (Handed(pc).Some? ==>
         if e.NewLock? then Handed(pc).value == s.nextLock
         else th.key in s.locks && s.locks[th.key] == Handed(pc).value)
    && (pc.LockMake? ==> !e.NewLock? && InMaster(th.pc) && th.key !in s.locks)
    && (pc.SchedAdd? ==> !e.Mark? && InBg(th.pc) && th.key !in s.refreshing)
    && (Carries(th') <==> if e.Mark? || e.Unmark? || e.Fork? then e.Mark? else Carries(th))
  }

  lemma {:induction false} AcquireShape(s: State, t: Tid, c: Choice)
    requires t in s.threads && ThreadInv(s, t) && CanGo(s, t, c) && s.threads[t].pc.Acquire?
    ensures var (pc, e) := MoveGetLock(s, s.threads[t]); Shape(s, s.threads[t], pc, e)
  {
  }

  lemma {:induction false} GetLockShape(s: State, t: Tid, c: Choice)
    requires t in s.threads && ThreadInv(s, t) && CanGo(s, t, c) && InGetLock(s.threads[t].pc)
    ensures var (pc, e) := MoveGetLock(s, s.threads[t]); Shape(s, s.threads[t], pc, e)
  {
    if s.threads[t].pc.Acquire? { AcquireShape(s, t, c); }
  }

  lemma {:induction false} LookAgainShape(s: State, t: Tid, c: Choice)
    requires t in s.threads && ThreadInv(s, t) && CanGo(s, t, c) && InLookAgain(s.threads[t].pc)
    ensures var (pc, e) := MoveLookAgain(s, s.threads[t], c); Shape(s, s.threads[t], pc, e)
  {
  }

  lemma {:induction false} ComputeShape(s: State, t: Tid, c: Choice)
    requires t in s.threads && ThreadInv(s, t) && CanGo(s, t, c) && InCompute(s.threads[t].pc)
    ensures var (pc, e) := MoveCompute(s, s.threads[t], c); Shape(s, s.threads[t], pc, e)
  {
  }

  lemma {:induction false} CallShape(s: State, t: Tid, c: Choice)
    requires t in s.threads && ThreadInv(s, t) && CanGo(s, t, c)
    requires !InCompute(s.threads[t].pc) && !InLookAgain(s.threads[t].pc) && !InGetLock(s.threads[t].pc)
    ensures var (pc, e) := MoveCall(s, s.threads[t], c); Shape(s, s.threads[t], pc, e)
  {
  }

  lemma {:induction false} MoveShape(s: State, t: Tid, c: Choice)
    requires t in s.threads && ThreadInv(s, t) && CanGo(s, t, c)
    ensures var (pc, e) := Move(s, s.threads[t], c); Shape(s, s.threads[t], pc, e)
  {
    hide MoveGetLock, MoveCompute, MoveLookAgain, MoveCall, Shape, ThreadInv, CanGo;
    var pc := s.threads[t].pc;
    if InGetLock(pc) { GetLockShape(s, t, c); }
    else if InCompute(pc) { ComputeShape(s, t, c); }
    else if InLookAgain(pc) { LookAgainShape(s, t, c); }
    else { CallShape(s, t, c); }
  }

  /** The few program points the lemmas below need to know by name. */
  lemma {:induction false} PointFacts(th: Thread)
    ensures th.pc.LockMake? ==> InMaster(th.pc)
    ensures th.pc.SchedAdd? ==> InBg(th.pc)
    ensures th.role.Caller? && th.pc.SchedAdd? ==> !Carries(th)
    ensures th.pc.DropIn? ==> InBg(th.pc)
    ensures th.pc.Queued? ==> !InMaster(th.pc) && !InBg(th.pc) && Held(th.pc).None? && Handed(th.pc).None?
    ensures th.role.Runner? && th.pc.Queued? ==> RoleFits(th) && Carries(th)
    ensures Held(th.pc).Some? ==> Handed(th.pc) == Held(th.pc)
  {
  }

  lemma {:induction false} MoverKept(s: State, t: Tid, pc: Pc, e: Effect)
    requires Inv(s) && t in s.threads && Shape(s, s.threads[t], pc, e)
    ensures ThreadInv(Touch(At(s, t, pc), t, e), t)
  {
    hide InMaster, InBg, Held, Handed, Carries, RoleFits;
    assert ThreadInv(s, t);
    PointFacts(s.threads[t].(pc := pc));
  }

  lemma {:induction false} OthersLocksKept(s: State, t: Tid, pc: Pc, e: Effect, u: Tid)
    requires Inv(s) && t in s.threads && Shape(s, s.threads[t], pc, e)
    requires u != t && u in s.threads
    ensures var s', th := Touch(At(s, t, pc), t, e), s.threads[u];
      && (InMaster(th.pc) <==> s'.master == Some(u))
      && (InBg(th.pc) <==> s'.bgLock == Some(u))
      && (th.key in s.locks ==> th.key in s'.locks && s'.locks[th.key] == s.locks[th.key])
      && (Held(th.pc).Some? ==> Held(th.pc).value in s'.owners && s'.owners[Held(th.pc).value] == u)
      && (th.pc.LockMake? ==> th.key !in s'.locks)
  {
    hide InMaster, InBg, Held, Handed, Carries, RoleFits, RefreshInv;
    assert ThreadInv(s, t) && ThreadInv(s, u);
    PointFacts(s.threads[t]);
    PointFacts(s.threads[u]);
  }

  lemma {:induction false} OthersMarksKept(s: State, t: Tid, pc: Pc, e: Effect, u: Tid)
    requires Inv(s) && t in s.threads && Shape(s, s.threads[t], pc, e)
    requires u != t && u in s.threads
    ensures var s', th := Touch(At(s, t, pc), t, e), s.threads[u];
      && (th.pc.SchedAdd? ==> th.key !in s'.refreshing)
      && (Carries(th) ==> th.key in s'.refreshing)
  {
    hide InMaster, InBg, Held, Handed, Carries, RoleFits, LocksInv;
    assert ThreadInv(s, t) && ThreadInv(s, u);
    PointFacts(s.threads[t]);
    PointFacts(s.threads[u]);
    assert CarriesFor(s, t, s.threads[t].key) <==> Carries(s.threads[t]);
    assert CarriesFor(s, u, s.threads[t].key) <==> Carries(s.threads[u]) && s.threads[u].key == s.threads[t].key;
  }

  /** No step disturbs another thread: locks exclude each other and jobs are unique per key. */
  lemma {:induction false} OtherKept(s: State, t: Tid, pc: Pc, e: Effect, u: Tid)
    requires Inv(s) && t in s.threads && Shape(s, s.threads[t], pc, e)
    requires u != t && u in s.threads
    ensures ThreadInv(Touch(At(s, t, pc), t, e), u)
  {
    OthersLocksKept(s, t, pc, e, u);
    OthersMarksKept(s, t, pc, e, u);
    hide InMaster, InBg, Held, Handed, Carries, RoleFits, LocksInv, RefreshInv;
    assert ThreadInv(s, u);
    assert Touch(At(s, t, pc), t, e).threads[u] == s.threads[u];
    hide Touch, At;
  }

  lemma {:induction false} JobStarts(s: State, t: Tid, pc: Pc, id: Tid)
    requires Inv(s) && t in s.threads && Shape(s, s.threads[t], pc, Fork(id))
    ensures ThreadInv(Touch(At(s, t, pc), t, Fork(id)), id)
  {
    hide InMaster, InBg, Held, Handed, Carries, RoleFits, RefreshInv;
    assert ThreadInv(s, t);
    PointFacts(Thread(Runner, s.threads[t].key, s.threads[t].ttl, Queued));
  }

  lemma {:induction false} OwnersKept(s: State, t: Tid, pc: Pc, e: Effect, l: LockId)
    requires Inv(s) && t in s.threads && Shape(s, s.threads[t], pc, e)
    requires l in Touch(At(s, t, pc), t, e).owners
    ensures var s' := Touch(At(s, t, pc), t, e);
            s'.owners[l] in s'.threads && Held(s'.threads[s'.owners[l]].pc) == Some(l)
  {
    hide InMaster, InBg, Held, Handed, Carries, RoleFits, ThreadInv;
  }

  lemma {:induction false} LocksKept(s: State, t: Tid, pc: Pc, e: Effect)
    requires Inv(s) && t in s.threads && Shape(s, s.threads[t], pc, e)
    ensures LocksInv(Touch(At(s, t, pc), t, e))
  {
    hide InMaster, InBg, Held, Handed, Carries, RoleFits, ThreadInv;
    var s' := Touch(At(s, t, pc), t, e);
    forall l | l in s'.owners
      ensures s'.owners[l] in s'.threads && Held(s'.threads[s'.owners[l]].pc) == Some(l)
    {
      OwnersKept(s, t, pc, e, l);
    }
  }

  lemma {:induction false} JobsKept(s: State, t: Tid, pc: Pc, e: Effect, k: Key)
    requires Inv(s) && t in s.threads && Shape(s, s.threads[t], pc, e)
    requires k in Touch(At(s, t, pc), t, e).refreshing
    ensures exists u :: CarriesFor(Touch(At(s, t, pc), t, e), u, k)
  {
    hide InMaster, InBg, Held, Handed, RoleFits;
    var s' := Touch(At(s, t, pc), t, e);
    assert ThreadInv(s, t);
    if e.Mark? && k == s.threads[t].key {
      assert CarriesFor(s', t, k);
    } else {
      var u :| CarriesFor(s, u, k);
      assert CarriesFor(s', if e.Fork? && u == t then e.id else u, k);
    }
  }

  lemma {:induction false} JobsUnique(s: State, t: Tid, pc: Pc, e: Effect, u: Tid, u': Tid, k: Key)
    requires Inv(s) && t in s.threads && Shape(s, s.threads[t], pc, e)
    requires CarriesFor(Touch(At(s, t, pc), t, e), u, k) && CarriesFor(Touch(At(s, t, pc), t, e), u', k)
    ensures u == u'
  {
    hide InMaster, InBg, Held, Handed, Carries, RoleFits;
    assert ThreadInv(s, t);
    if e.Mark? {
      assert u in s.threads && ThreadInv(s, u);
      assert u' in s.threads && ThreadInv(s, u');
      assert u != t ==> CarriesFor(s, u, k);
      assert u' != t ==> CarriesFor(s, u', k);
    } else {
      assert CarriesFor(s, if e.Fork? && u == e.id then t else u, k);
      assert CarriesFor(s, if e.Fork? && u' == e.id then t else u', k);
    }
  }

  /** The set of keys in flight and the threads that stand for a job stay in step. */
  lemma {:induction false} RefreshKept(s: State, t: Tid, pc: Pc, e: Effect)
    requires Inv(s) && t in s.threads && Shape(s, s.threads[t], pc, e)
    ensures RefreshInv(Touch(At(s, t, pc), t, e))
  {
    hide InMaster, InBg, Held, Handed, Carries, RoleFits, Shape, Inv, Touch;
    var s' := Touch(At(s, t, pc), t, e);
    forall k | k in s'.refreshing
      ensures exists u :: CarriesFor(s', u, k)
    {
      JobsKept(s, t, pc, e, k);
    }
    forall u, u', k | CarriesFor(s', u, k) && CarriesFor(s', u', k)
      ensures u == u'
    {
      JobsUnique(s, t, pc, e, u, u', k);
    }
  }

  lemma {:induction false} OnlyForkStarts(s: State, t: Tid, pc: Pc, e: Effect, u: Tid)
    requires t in s.threads && u !in s.threads && u in Touch(At(s, t, pc), t, e).threads
    ensures e == Fork(u)
  {
  }

  lemma {:induction false} GoKeepsInv(s: State, t: Tid, c: Choice)
    requires Inv(s) && CanGo(s, t, c)
    ensures Inv(GoStep(s, t, c))
  {
    assert ThreadInv(s, t);
    hide InMaster, InBg, Held, Handed, Carries, RoleFits, ThreadInv, Shape, Touch, At;
    var (pc, e) := Move(s, s.threads[t], c);
    MoveShape(s, t, c);
    forall u | u in GoStep(s, t, c).threads
      ensures ThreadInv(GoStep(s, t, c), u)
    {
      if u == t { MoverKept(s, t, pc, e); }
      else if u in s.threads { OtherKept(s, t, pc, e, u); }
      else { OnlyForkStarts(s, t, pc, e, u); JobStarts(s, t, pc, u); }
    }
    LocksKept(s, t, pc, e);
    RefreshKept(s, t, pc, e);
  }

  lemma {:induction false} EnvironmentKeepsInv(s: State, a: Action)
    requires Inv(s) && Enabled(s, a) && !a.Go?
    ensures Inv(Next(s, a))
  {
    var s' := Next(s, a);
    forall u | u in s'.threads
      ensures ThreadInv(s', u)
    {
      if u in s.threads { assert ThreadInv(s, u); }
    }
    assert forall u, k :: CarriesFor(s', u, k) <==> CarriesFor(s, u, k);
  }

  lemma {:induction false} InvKept(s: State, a: Action)
    requires Inv(s) && Enabled(s, a)
    ensures Inv(Next(s, a))
  {
    if a.Go? { GoKeepsInv(s, a.t, a.choice); } else { EnvironmentKeepsInv(s, a); }
  }

  lemma {:induction false} Reachable(r: Run, n: nat)
    requires IsRun(r) && n < |r.states|
    ensures Inv(r.states[n])
  {
    if n > 0 {
      Reachable(r, n - 1);
      InvKept(r.states[n - 1], r.actions[n - 1]);
    }
  }

  // ---------------------------------------------------------------- single flight

  ghost predicate Computes(s: State, t: Tid, k: Key) {
    t in s.threads && s.threads[t].key == k && s.threads[t].pc.Computing?
  }

  predicate Forced(th: Thread) {
    th.role.Caller? && th.role.force
  }

  /**
   In every reachable state, if two threads compute the same key at once then one of them
   was called with `force`; so without forced calls there is never more than one.
   */
  lemma {:induction false} SingleFlight(r: Run, n: nat, t: Tid, t': Tid, k: Key)
    requires IsRun(r) && n < |r.states|
    requires Computes(r.states[n], t, k) && Computes(r.states[n], t', k) && t != t'
    ensures Forced(r.states[n].threads[t]) || Forced(r.states[n].threads[t'])
  {
    Reachable(r, n);
    assert ThreadInv(r.states[n], t) && ThreadInv(r.states[n], t');
  }

  /** `_get_lock` never hands out two lock objects for one key, nor one object for two keys. */
  lemma {:induction false} LockIdentity(r: Run, i: nat, j: nat, t: Tid, t': Tid)
    requires IsRun(r) && i <= j < |r.states|
    requires t in r.states[i].threads && Handed(r.states[i].threads[t].pc).Some?
    requires t' in r.states[j].threads && Handed(r.states[j].threads[t'].pc).Some?
    ensures r.states[i].threads[t].key == r.states[j].threads[t'].key
       <==> Handed(r.states[i].threads[t].pc) == Handed(r.states[j].threads[t'].pc)
  {
    Reachable(r, i);
    Reachable(r, j);
    assert ThreadInv(r.states[i], t) && ThreadInv(r.states[j], t');
    LocksOnlyGrow(r, i, j, r.states[i].threads[t].key);
  }

  lemma {:induction false} LocksStay(s: State, a: Action, k: Key)
    requires Inv(s) && Enabled(s, a) && k in s.locks
    ensures k in Next(s, a).locks && Next(s, a).locks[k] == s.locks[k]
  {
    if a.Go? {
      assert ThreadInv(s, a.t);
      hide *;
      NextGo(s, a);
      OnlyNewKeys(s, a.t, a.choice);
      MoveKeepsLocks(s, a.t, a.choice, k);
    } else {
      hide Inv;
    }
  }

  lemma {:induction false} NextGo(s: State, a: Action)
    requires Enabled(s, a) && a.Go?
    ensures CanGo(s, a.t, a.choice) && a.t in s.threads && Next(s, a) == GoStep(s, a.t, a.choice)
  {
    hide Move;
  }

  lemma {:induction false} MoveKeepsLocks(s: State, t: Tid, c: Choice, k: Key)
    requires CanGo(s, t, c) && k in s.locks && (Move(s, s.threads[t], c).1.NewLock? ==> s.threads[t].key !in s.locks)
    ensures k in GoStep(s, t, c).locks && GoStep(s, t, c).locks[k] == s.locks[k]
  {
    hide Move;
  }

  /** A lock object is made only for a key that has none. */
  lemma {:induction false} OnlyNewKeys(s: State, t: Tid, c: Choice)
    requires t in s.threads && ThreadInv(s, t) && CanGo(s, t, c)
    ensures Move(s, s.threads[t], c).1.NewLock? ==> s.threads[t].key !in s.locks
  {
    MoveShape(s, t, c);
    hide Move, InMaster, InBg, Held, Handed, Carries, RoleFits, CanGo;
  }

  lemma {:induction false} LocksOnlyGrow(r: Run, i: nat, j: nat, k: Key)
    requires IsRun(r) && i <= j < |r.states| && k in r.states[i].locks
    ensures k in r.states[j].locks && r.states[j].locks[k] == r.states[i].locks[k]
    decreases j - i
  {
    if i < j {
      LocksOnlyGrow(r, i, j - 1, k);
      Reachable(r, j - 1);
      LocksStay(r.states[j - 1], r.actions[j - 1], k);
    }
  }

  // ---------------------------------------------------------------- refresh bookkeeping

  /**
   A key is marked as refreshing if and only if there is a thread that stands for a job of
   that key: a caller about to submit it or about to take the mark back after the executor
   refused it, or a job that is queued or has not yet taken the mark back.  There is never
   a second such thread.
   */
  lemma {:induction false} RefreshBookkeeping(r: Run, n: nat, k: Key)
    requires IsRun(r) && n < |r.states|
    ensures k in r.states[n].refreshing <==> exists t :: CarriesFor(r.states[n], t, k)
    ensures forall t, t' :: CarriesFor(r.states[n], t, k) && CarriesFor(r.states[n], t', k) ==> t == t'
  {
    Reachable(r, n);
    var s := r.states[n];
    forall t | CarriesFor(s, t, k)
      ensures k in s.refreshing
    {
      assert ThreadInv(s, t);
    }
  }

  // ---------------------------------------------------------------- progress

  /** An upper bound on the number of own steps a thread still takes. */
  function Rank(th: Thread): nat {
    match th.pc
    case ReadFirst => 21
    case JudgeFirst(_) => 20
    case Queued => 17
    case LockFast => 16
    case LockWait => 15
    case LockTest => 14
    case LockMake => 13
    case LockGot(_) => 12
    case Acquire(_) => 11
    case ReadSecond(_) => 10
    case JudgeSecond(_, _) => 9
    case Computing(_) => 8
    case Wrapping(_, _) => 7
    case Writing(_, _, _) => 6
    case Leaving(_, _) => 5
    case SchedWait(_) => 19
    case SchedTest(_) => 18
    case SchedAdd(_) => 17
    case SchedAdded(_) => 16
    case Submit(_) => 15
    case SchedSkip(_) => 1
    case DropWait(_) => 3
    case DropIn(_) => 2
    case DropOut(_) => 1
    case Done(_) => 0
  }

  /** Every own step brings a thread closer to its end, whatever the others do meanwhile. */
  lemma {:induction false} StepsAreBounded(s: State, a: Action, t: Tid)
    requires Enabled(s, a) && t in s.threads
    ensures t in Next(s, a).threads
    ensures if a.Go? && a.t == t then Rank(Next(s, a).threads[t]) < Rank(s.threads[t])
            else Next(s, a).threads[t] == s.threads[t]
  {
    if a.Go? {
      MovesDown(s, s.threads[a.t], a.t, a.choice);
      hide Move, Rank;
    }
  }

  lemma {:induction false} MovesDown(s: State, th: Thread, t: Tid, c: Choice)
    requires t in s.threads && s.threads[t] == th && CanGo(s, t, c)
    ensures var (pc, e) := Move(s, th, c); Rank(th.(pc := pc)) < Rank(th) && (e.Fork? ==> e.id !in s.threads)
  {
  }

  ghost predicate Stuck(s: State) {
    forall t, c :: !CanGo(s, t, c)
  }

  /**
   No deadlock: when no thread can move, every caller has its answer, every job is over, no
   lock is held, and no key is left marked as refreshing.
   */
  lemma {:induction false} NoDeadlock(r: Run, n: nat)
    requires IsRun(r) && n < |r.states| && Stuck(r.states[n])
    ensures var s := r.states[n];
      && (forall t :: t in s.threads ==> s.threads[t].pc.Done?)
      && s.refreshing == {} && s.owners == map[] && s.master.None? && s.bgLock.None?
  {
    Reachable(r, n);
    var s := r.states[n];
    if s.master.Some? {
      HolderMoves(s, s.master.value);
    }
    if s.bgLock.Some? {
      HolderMoves(s, s.bgLock.value);
    }
    forall l | l in s.owners
      ensures CanGo(s, s.owners[l], Ok) || CanGo(s, s.owners[l], Fail)
    {
      HolderMoves(s, s.owners[l]);
    }
    forall t | t in s.threads
      ensures s.threads[t].pc.Done?
    {
      assert !CanGo(s, t, Ok) && !CanGo(s, t, Fail);
    }
    assert forall t, k :: !CarriesFor(s, t, k);
  }

  /** Whoever holds a lock can always take its next step. */
  lemma {:induction false} HolderMoves(s: State, t: Tid)
    requires Inv(s) && t in s.threads
    requires s.master == Some(t) || s.bgLock == Some(t) || Held(s.threads[t].pc).Some?
    ensures CanGo(s, t, Ok) || CanGo(s, t, Fail)
  {
    assert ThreadInv(s, t);
  }

  // ---------------------------------------------------------------- what a call answers

  /** Step `i` is a read of the cache by thread `t` that finds entry `e` under its key. */
  ghost predicate Reads(r: Run, i: nat, t: Tid, e: Entry) {
    && i < |r.actions| && i < |r.states| && r.actions[i] == Go(t, Ok)
    && t in r.states[i].threads
    && (r.states[i].threads[t].pc.ReadFirst? || r.states[i].threads[t].pc.ReadSecond?)
    && Lookup(r.states[i], r.states[i].threads[t].key) == Some(e)
  }

  /** Step `i` ends thread `t`'s own computation, with a result or with an exception. */
  ghost predicate Computed(r: Run, i: nat, t: Tid, c: Choice) {
    && i < |r.actions| && i < |r.states| && r.actions[i] == Go(t, c)
    && t in r.states[i].threads && r.states[i].threads[t].pc.Computing?
  }

  ghost predicate FreshHit(r: Run, n: nat, t: Tid, v: Value) {
    exists i: nat, e :: i < n && Reads(r, i, t, e) && Content(e) == Some(v) && Fresh(e, r.states[i].now)
  }

  ghost predicate StaleHit(r: Run, n: nat, t: Tid, v: Value) {
    exists i: nat, e :: i < n && Reads(r, i, t, e) && Content(e) == Some(v)
  }

  ghost predicate OwnResult(r: Run, n: nat, t: Tid, v: Option<Value>) {
    || (exists i: nat :: i < n && Computed(r, i, t, Give(v)))
    || (v.None? && exists i: nat :: i < n && Computed(r, i, t, Fail))
  }

  ghost predicate Justified(r: Run, n: nat, t: Tid, role: Role, answer: Option<Value>) {
    || (answer.Some? && FreshHit(r, n, t, answer.value))
    || (answer.Some? && role.Caller? && role.allowStale && !role.force && StaleHit(r, n, t, answer.value))
    || OwnResult(r, n, t, answer)
  }

  /** The answer a thread is already bound to give. */
  function Pending(pc: Pc): Option<Option<Value>> {
    match pc
    case SchedWait(v) => Some(Some(v))
    case SchedTest(v) => Some(Some(v))
    case SchedAdd(v) => Some(Some(v))
    case SchedSkip(v) => Some(Some(v))
    case SchedAdded(v) => Some(Some(v))
    case Submit(v) => Some(Some(v))
    case Wrapping(_, a) => Some(a)
    case Writing(_, a, _) => Some(a)
    case Leaving(_, a) => Some(a)
    case DropWait(a) => Some(a)
    case DropIn(a) => Some(a)
    case DropOut(a) => Some(a)
    case Done(a) => Some(a)
    case _ => None
  }

  function RawOf(pc: Pc): Option<Entry> {
    match pc
    case JudgeFirst(raw) => raw
    case JudgeSecond(_, raw) => raw
    case _ => None
  }

  ghost predicate Trail(r: Run, n: nat, t: Tid)
    requires n < |r.states| && t in r.states[n].threads
  {
    var th := r.states[n].threads[t];
    && (RawOf(th.pc).Some? ==> exists i: nat :: i < n && Reads(r, i, t, RawOf(th.pc).value))
    && (th.role.Caller? && Pending(th.pc).Some? ==> Justified(r, n, t, th.role, Pending(th.pc).value))
  }

  lemma {:induction false} ClockRuns(r: Run, i: nat, j: nat)
    requires IsRun(r) && i <= j < |r.states|
    ensures r.states[i].now <= r.states[j].now
    decreases j - i
  {
    if i < j {
      ClockRuns(r, i, j - 1);
      assert r.states[j] == Next(r.states[j - 1], r.actions[j - 1]);
    }
  }

  lemma {:induction false} JustifiedLater(r: Run, n: nat, m: nat, t: Tid, role: Role, answer: Option<Value>)
    requires n <= m && Justified(r, n, t, role, answer)
    ensures Justified(r, m, t, role, answer)
  {
    if answer.Some? && FreshHit(r, n, t, answer.value) {
      assert FreshHit(r, m, t, answer.value);
    } else if answer.Some? && role.Caller? && role.allowStale && !role.force && StaleHit(r, n, t, answer.value) {
      assert StaleHit(r, m, t, answer.value);
    } else {
      assert OwnResult(r, m, t, answer);
    }
  }

  /** Where a raw entry or a pending answer comes from, for one step of one thread. */
  lemma {:induction false} MoveTrail(s: State, t: Tid, c: Choice)
    requires t in s.threads && ThreadInv(s, t) && CanGo(s, t, c)
    ensures
      var th := s.threads[t];
      var pc := Move(s, th, c).0;
      && (RawOf(pc).Some? ==>
           c == Ok && (th.pc.ReadFirst? || th.pc.ReadSecond?) && Lookup(s, th.key) == RawOf(pc))
      && (th.role.Caller? && Pending(pc).Some? ==>
           var answer := Pending(pc).value;
           || (th.pc.Computing? && (c == Give(answer) || (c == Fail && answer.None?)))
           || Pending(th.pc) == Some(answer)
           || (RawOf(th.pc).Some? && Content(RawOf(th.pc).value) == answer && answer.Some?
               && (Fresh(RawOf(th.pc).value, s.now) || (th.role.allowStale && !th.role.force))))
  {
  }

  /** An entry read at an earlier step, found fresh now or allowed to be stale, justifies its value. */
  lemma {:induction false} ReadJustifies(r: Run, n: nat, t: Tid, role: Role, e: Entry)
    requires IsRun(r) && n < |r.states| && Content(e).Some?
    requires exists i: nat :: i < n && Reads(r, i, t, e)
    requires Fresh(e, r.states[n].now) || (role.Caller? && role.allowStale && !role.force)
    ensures Justified(r, n + 1, t, role, Content(e))
  {
    var i: nat :| i < n && Reads(r, i, t, e);
    ClockRuns(r, i, n);
    if Fresh(e, r.states[n].now) {
      assert FreshHit(r, n + 1, t, Content(e).value);
    } else {
      assert StaleHit(r, n + 1, t, Content(e).value);
    }
  }

  lemma {:induction false} TrailStep(r: Run, n: nat, t: Tid)
    requires IsRun(r) && n + 1 < |r.states| && t in r.states[n].threads && Trail(r, n, t)
    requires ThreadInv(r.states[n], t) && r.actions[n].Go? && r.actions[n].t == t
    requires t in r.states[n + 1].threads
    ensures Trail(r, n + 1, t)
  {
    hide Move, Pending, RawOf, ThreadInv, CanGo, Rank, Reads, Justified;
    var s, c := r.states[n], r.actions[n].choice;
    var th := s.threads[t];
    assert Enabled(s, r.actions[n]) && r.states[n + 1] == GoStep(s, t, c);
    var (pc, e) := Move(s, th, c);
    MovesDown(s, th, t, c);
    MoveTrail(s, t, c);
    assert r.states[n + 1].threads[t] == th.(pc := pc);
    hide GoStep, Touch, At, IsRun, Enabled;
    if RawOf(pc).Some? {
      ReadNow(r, n, t, RawOf(pc).value);
    }
    if th.role.Caller? && Pending(pc).Some? {
      var answer := Pending(pc).value;
      if th.pc.Computing? && (c == Give(answer) || (c == Fail && answer.None?)) {
        ComputedNow(r, n, t, th.role, answer);
      } else if Pending(th.pc) == Some(answer) {
        JustifiedLater(r, n, n + 1, t, th.role, answer);
      } else {
        ReadJustifies(r, n, t, th.role, RawOf(th.pc).value);
      }
    }
  }

  lemma {:induction false} ReadNow(r: Run, n: nat, t: Tid, e: Entry)
    requires n < |r.actions| && n < |r.states| && r.actions[n] == Go(t, Ok) && t in r.states[n].threads
    requires r.states[n].threads[t].pc.ReadFirst? || r.states[n].threads[t].pc.ReadSecond?
    requires Lookup(r.states[n], r.states[n].threads[t].key) == Some(e)
    ensures exists i: nat :: i < n + 1 && Reads(r, i, t, e)
  {
    assert Reads(r, n, t, e);
  }

  lemma {:induction false} ComputedNow(r: Run, n: nat, t: Tid, role: Role, answer: Option<Value>)
    requires n < |r.actions| && n < |r.states| && r.actions[n].Go? && r.actions[n].t == t
    requires r.actions[n].choice == Give(answer) || (r.actions[n].choice == Fail && answer.None?)
    requires t in r.states[n].threads && r.states[n].threads[t].pc.Computing?
    ensures Justified(r, n + 1, t, role, answer)
  {
    assert Computed(r, n, t, r.actions[n].choice);
    assert OwnResult(r, n + 1, t, answer);
  }

  lemma {:induction false} Trails(r: Run, n: nat, t: Tid)
    requires IsRun(r) && n < |r.states| && t in r.states[n].threads
    ensures Trail(r, n, t)
  {
    if n > 0 {
      var s, a := r.states[n - 1], r.actions[n - 1];
      assert Enabled(s, a) && r.states[n] == Next(s, a);
      Reachable(r, n - 1);
      hide ThreadInv, Trail, LocksInv, RefreshInv, Next, Enabled, IsRun;
      if t in s.threads {
        Trails(r, n - 1, t);
        if a.Go? && a.t == t {
          TrailStep(r, n - 1, t);
        } else {
          StepsAreBounded(s, a, t);
          TrailStays(r, n - 1, t);
        }
      } else {
        NewThreads(s, a, t);
        TrailStarts(r, n, t);
      }
    }
  }

  lemma {:induction false} NewThreads(s: State, a: Action, t: Tid)
    requires Enabled(s, a) && t !in s.threads && t in Next(s, a).threads
    ensures var pc := Next(s, a).threads[t].pc; pc.Queued? || pc.ReadFirst? || pc == Computing(None)
  {
    hide Move;
  }

  lemma {:induction false} TrailStarts(r: Run, n: nat, t: Tid)
    requires n < |r.states| && t in r.states[n].threads
    requires var pc := r.states[n].threads[t].pc; pc.Queued? || pc.ReadFirst? || pc.Computing?
    ensures Trail(r, n, t)
  {
  }

  lemma {:induction false} TrailStays(r: Run, n: nat, t: Tid)
    requires n + 1 < |r.states| && t in r.states[n].threads && Trail(r, n, t)
    requires t in r.states[n + 1].threads && r.states[n + 1].threads[t] == r.states[n].threads[t]
    ensures Trail(r, n + 1, t)
  {
    hide Pending, RawOf, Reads, Justified;
    var th := r.states[n].threads[t];
    if th.role.Caller? && Pending(th.pc).Some? {
      JustifiedLater(r, n, n + 1, t, th.role, Pending(th.pc).value);
    }
  }

  /**
   Whatever the interleaving, the answer of a finished call is one of: a value the call
   itself read while it was within its hard limit; a value it read that may be past that
   limit, and then only if the call allows stale answers and is not forced; the result of
   the computation it ran itself; or null because that computation raised.
   */
  lemma {:induction false} AnswersAreSound(r: Run, n: nat, t: Tid)
    requires IsRun(r) && n < |r.states| && t in r.states[n].threads
    requires r.states[n].threads[t].role.Caller? && r.states[n].threads[t].pc.Done?
    ensures Justified(r, n, t, r.states[n].threads[t].role, r.states[n].threads[t].pc.answer)
  {
    Trails(r, n, t);
  }

  // ---------------------------------------------------------------- what changes the store

  /** A step of a thread writes the store only when it saves an envelope. */
  lemma {:induction false} OnlySaves(s: State, t: Tid, c: Choice)
    requires CanGo(s, t, c)
    ensures var (pc, e) := Move(s, s.threads[t], c);
      && (e.Save? <==> s.threads[t].pc.Writing? && c.Ok?)
      && (e.Save? ==> e.entry == s.threads[t].pc.envelope)
      && (s.threads[t].pc.Computing? && c.Fail? ==> !pc.Computing? && !pc.Wrapping? && !pc.Writing?)
  {
  }

  /**
   A stored entry changes only by an eviction, by a direct write, or by a computation that
   returned: then it becomes the envelope of what was returned. A computation that raises
   leaves the entry as it is and goes on to no write.
   */
  lemma {:induction false} FailureKeepsEntry(s: State, a: Action, k: Key)
    requires Enabled(s, a)
    ensures !SameEntry(s, Next(s, a), k) ==>
              || a == Evict(k)
              || (a.ExternalSet? && a.key == k)
              || (a.Go? && a.choice.Ok? && s.threads[a.t].key == k && s.threads[a.t].pc.Writing?
                  && k in Next(s, a).store && Next(s, a).store[k].entry == s.threads[a.t].pc.envelope)
    ensures a.Go? && s.threads[a.t].pc.Computing? && a.choice.Fail? ==>
              Next(s, a).store == s.store && !InCompute(Next(s, a).threads[a.t].pc)
  {
    if a.Go? {
      OnlySaves(s, a.t, a.choice);
      hide Move;
    }
  }

  ghost predicate SameEntry(s: State, s': State, k: Key) {
    (k in s.store <==> k in s'.store) && (k in s.store ==> s'.store[k] == s.store[k])
  }

  // ---------------------------------------------------------------- no stampede on a cold key

  /** Nothing goes wrong for key `k` at this step, and nobody else writes or drops it. */
  predicate CalmStep(s: State, a: Action, k: Key) {
    match a
    case Spawn(_, key, _, force, _) => key == k ==> !force
    case Go(t, c) =>
      t in s.threads && s.threads[t].key == k ==> !c.Fail? && (c.Give? ==> c.result.Some?)
    case Evict(key) => key != k
    case ExternalSet(key, _, _) => key != k
    case Tick(_) => true
  }

  /** A stored entry of `k` is readable and within its hard limit. */
  predicate StaysFresh(s: State, k: Key) {
    k in s.store ==> s.now < s.store[k].expiry && Fresh(s.store[k].entry, s.now)
  }

  ghost predicate Calm(r: Run, k: Key)
    requires IsRun(r)
  {
    && k !in r.states[0].store
    && (forall i :: 0 <= i < |r.actions| ==> CalmStep(r.states[i], r.actions[i], k))
    && (forall i :: 0 <= i < |r.states| ==> StaysFresh(r.states[i], k))
  }

  /** This step starts a computation of `k`. */
  predicate Begins(s: State, a: Action, k: Key)
    requires Enabled(s, a)
  {
    match a
    case Spawn(_, key, _, force, _) => key == k && force
    case Go(t, c) =>
      && s.threads[t].key == k && !s.threads[t].pc.Computing?
      && Move(s, s.threads[t], c).0.Computing?
    case _ => false
  }

  ghost function Starts(r: Run, k: Key, n: nat): nat
    requires IsRun(r) && n < |r.states|
  {
    if n == 0 then 0
    else Starts(r, k, n - 1) + if Begins(r.states[n - 1], r.actions[n - 1], k) then 1 else 0
  }

  predicate PlainCaller(th: Thread) {
    th.role.Caller? && !th.role.force
  }

  /** Not computing yet, and nothing found in the cache so far. */
  predicate Early(th: Thread) {
    PlainCaller(th) &&
    match th.pc
    case ReadFirst => true
    case JudgeFirst(raw) => raw.None?
    case ReadSecond(_) => true
    case JudgeSecond(_, raw) => raw.None?
    case _ => InGetLock(th.pc)
  }

  /** Running the one computation; what it will store is the value it got. */
  predicate Producing(th: Thread) {
    PlainCaller(th) &&
    match th.pc
    case Computing(_) => true
    case Wrapping(_, v) => v.Some?
    case Writing(_, v, e) => v.Some? && Content(e) == v
    case _ => false
  }

  /** On the way to answering with the value of entry `e`, or already there. */
  predicate Late(th: Thread, e: Entry) {
    PlainCaller(th) &&
    match th.pc
    case ReadFirst => true
    case JudgeFirst(raw) => raw.None? || raw == Some(e)
    case ReadSecond(_) => true
    case JudgeSecond(_, raw) => raw == Some(e)
    case Leaving(_, answer) => answer == Content(e)
    case Done(answer) => answer == Content(e)
    case _ => InGetLock(th.pc)
  }

  ghost predicate Cold(s: State, k: Key) {
    && k !in s.store
    && forall t :: t in s.threads && s.threads[t].key == k ==> Early(s.threads[t])
  }

  ghost predicate Brewing(s: State, k: Key, p: Tid) {
    && k !in s.store
    && p in s.threads && s.threads[p].key == k && Producing(s.threads[p])
    && forall t :: t in s.threads && s.threads[t].key == k && t != p ==> Early(s.threads[t])
  }

  ghost predicate Warm(s: State, k: Key) {
    && k in s.store && Content(s.store[k].entry).Some?
    && forall t :: t in s.threads && s.threads[t].key == k ==> Late(s.threads[t], s.store[k].entry)
  }

  /** Nothing about key `k` changed from `s` to `s'`, save that plain callers may have started. */
  ghost predicate QuietOn(s: State, s': State, k: Key) {
    && (k in s'.store <==> k in s.store) && (k in s.store ==> s'.store[k] == s.store[k])
    && (forall t :: t in s.threads && s.threads[t].key == k ==>
         t in s'.threads && s'.threads[t] == s.threads[t])
    && (forall t :: t in s'.threads && t !in s.threads && s'.threads[t].key == k ==>
         PlainCaller(s'.threads[t]) && s'.threads[t].pc.ReadFirst?)
    && (forall t :: t in s.threads && s.threads[t].key != k ==>
         t in s'.threads && s'.threads[t].key != k)
  }

  /** A step of a thread in terms of `Move`, for what it leaves in the thread table and the store. */
  lemma {:induction false} GoFrame(s: State, t: Tid, c: Choice)
    requires CanGo(s, t, c)
    ensures var (pc, e) := Move(s, s.threads[t], c);
      var th := s.threads[t].(pc := pc);
      && GoStep(s, t, c).threads ==
           (if e.Fork? then s.threads[t := th][e.id := Thread(Runner, th.key, th.ttl, Queued)] else s.threads[t := th])
      && GoStep(s, t, c).store ==
           (if e.Save? then s.store[th.key := Cell(e.entry, s.now + th.ttl * SWR_MULTIPLIER)] else s.store)
  {
    hide Move;
    var (pc, e) := Move(s, s.threads[t], c);
    assert GoStep(s, t, c) == Touch(At(s, t, pc), t, e);
  }

  /** A step of a thread on another key, or of the environment, leaves the phase of `k` alone. */
  lemma {:induction false} Elsewhere(s: State, a: Action, k: Key)
    requires Enabled(s, a) && CalmStep(s, a, k)
    requires a.Go? ==> s.threads[a.t].key != k
    ensures QuietOn(s, Next(s, a), k) && !Begins(s, a, k)
  {
    if a.Go? {
      MovesDown(s, s.threads[a.t], a.t, a.choice);
      GoFrame(s, a.t, a.choice);
      hide Move, GoStep, PlainCaller, CanGo, Rank;
    }
  }

  lemma {:induction false} EarlyMove(s: State, t: Tid, c: Choice)
    requires t in s.threads && ThreadInv(s, t) && CanGo(s, t, c) && s.threads[t].key !in s.store
    requires Early(s.threads[t])
    ensures var (pc, e) := Move(s, s.threads[t], c);
      && !e.Fork? && !e.Save?
      && (pc.Computing? ==> Held(s.threads[t].pc).Some?)
      && if pc.Computing? then Producing(s.threads[t].(pc := pc)) else Early(s.threads[t].(pc := pc))
  {
  }

  lemma {:induction false} ProducingMove(s: State, t: Tid, c: Choice)
    requires t in s.threads && ThreadInv(s, t) && CanGo(s, t, c) && Producing(s.threads[t])
    requires !c.Fail? && (c.Give? ==> c.result.Some?)
    ensures var (pc, e) := Move(s, s.threads[t], c);
      && !e.Fork? && !pc.Computing?
      && (e.Save? ==> Content(e.entry).Some? && Late(s.threads[t].(pc := pc), e.entry))
      && (!e.Save? ==> Producing(s.threads[t].(pc := pc)))
  {
  }

  lemma {:induction false} LateMove(s: State, t: Tid, c: Choice)
    requires t in s.threads && ThreadInv(s, t) && CanGo(s, t, c) && !c.Fail?
    requires var k := s.threads[t].key; k in s.store && StaysFresh(s, k) && Content(s.store[k].entry).Some?
    requires Late(s.threads[t], s.store[s.threads[t].key].entry)
    ensures var (pc, e) := Move(s, s.threads[t], c);
      && !e.Fork? && !e.Save? && !pc.Computing?
      && Late(s.threads[t].(pc := pc), s.store[s.threads[t].key].entry)
  {
  }

  lemma {:induction false} ColdStep(s: State, t: Tid, c: Choice, k: Key)
    requires Inv(s) && CanGo(s, t, c) && s.threads[t].key == k && Cold(s, k)
    ensures var s' := GoStep(s, t, c);
      if Begins(s, Go(t, c), k) then Brewing(s', k, t) else Cold(s', k)
  {
    assert ThreadInv(s, t);
    hide Move, Early, Producing, CanGo, GoStep;
    EarlyMove(s, t, c);
    GoFrame(s, t, c);
    hide ThreadInv, LocksInv, RefreshInv;
    NotComputing(s.threads[t]);
  }

  lemma {:induction false} NotComputing(th: Thread)
    ensures Early(th) ==> !th.pc.Computing?
  {
  }

  lemma {:induction false} BrewingStep(s: State, t: Tid, c: Choice, k: Key, p: Tid)
    requires Inv(s) && CanGo(s, t, c) && s.threads[t].key == k && Brewing(s, k, p)
    requires !c.Fail? && (c.Give? ==> c.result.Some?)
    ensures !Begins(s, Go(t, c), k)
    ensures Brewing(GoStep(s, t, c), k, p) || Warm(GoStep(s, t, c), k)
  {
    assert ThreadInv(s, t) && ThreadInv(s, p);
    hide Move, Early, Producing, Late, CanGo, GoStep, Inv, ThreadInv;
    var s' := GoStep(s, t, c);
    GoFrame(s, t, c);
    if t == p {
      ProducingMove(s, p, c);
      if Move(s, s.threads[p], c).1.Save? {
        forall u | u in s'.threads && s'.threads[u].key == k
          ensures Late(s'.threads[u], s'.store[k].entry)
        {
          if u != p { EarlyIsLate(s, u, p, s'.store[k].entry); }
        }
      }
    } else {
      EarlyMove(s, t, c);
      OneHolder(s, t, p);
    }
  }

  /** While one plain caller computes under the lock of a key, no other holds that lock. */
  lemma {:induction false} OneHolder(s: State, t: Tid, p: Tid)
    requires Inv(s) && t in s.threads && p in s.threads && t != p && s.threads[t].key == s.threads[p].key
    requires Producing(s.threads[p])
    ensures Held(s.threads[t].pc).None?
  {
    assert ThreadInv(s, t) && ThreadInv(s, p);
  }

  lemma {:induction false} EarlyIsLate(s: State, u: Tid, p: Tid, e: Entry)
    requires Inv(s) && u in s.threads && p in s.threads && u != p && s.threads[u].key == s.threads[p].key
    requires Producing(s.threads[p]) && Early(s.threads[u])
    ensures Late(s.threads[u], e)
  {
    OneHolder(s, u, p);
  }

  lemma {:induction false} WarmStep(s: State, t: Tid, c: Choice, k: Key)
    requires Inv(s) && CanGo(s, t, c) && s.threads[t].key == k && Warm(s, k) && StaysFresh(s, k) && !c.Fail?
    ensures !Begins(s, Go(t, c), k) && Warm(GoStep(s, t, c), k)
  {
    assert ThreadInv(s, t);
    hide Move, Late, CanGo, GoStep, Inv, ThreadInv;
    LateMove(s, t, c);
    GoFrame(s, t, c);
  }

  ghost predicate Phase(s: State, k: Key, starts: nat) {
    || (starts == 0 && Cold(s, k))
    || (starts == 1 && exists p :: Brewing(s, k, p))
    || (starts == 1 && Warm(s, k))
  }

  lemma {:induction false} PhaseElsewhere(s: State, s': State, k: Key, starts: nat)
    requires QuietOn(s, s', k) && Phase(s, k, starts)
    ensures Phase(s', k, starts)
  {
    if starts == 0 {
      assert Cold(s', k);
    } else if Warm(s, k) {
      assert Warm(s', k);
    } else {
      var p :| Brewing(s, k, p);
      assert Brewing(s', k, p);
    }
  }

  lemma {:induction false} Phases(r: Run, k: Key, n: nat)
    requires IsRun(r) && Calm(r, k) && n < |r.states|
    ensures Phase(r.states[n], k, Starts(r, k, n))
  {
    hide Cold, Brewing, Warm, Next, Begins;
    if n == 0 {
      assert Cold(r.states[0], k) by { StartsCold(r.states[0], k); }
    } else {
      Phases(r, k, n - 1);
      Reachable(r, n - 1);
      var s, a := r.states[n - 1], r.actions[n - 1];
      assert Enabled(s, a) && r.states[n] == Next(s, a) && CalmStep(s, a, k) && StaysFresh(s, k);
      PhaseStep(s, a, k, Starts(r, k, n - 1));
    }
  }

  lemma {:induction false} StartsCold(s: State, k: Key)
    requires Init(s) && k !in s.store
    ensures Cold(s, k)
  {
  }

  lemma {:induction false} PhaseStep(s: State, a: Action, k: Key, starts: nat)
    requires Inv(s) && Enabled(s, a) && CalmStep(s, a, k) && StaysFresh(s, k) && Phase(s, k, starts)
    ensures Phase(Next(s, a), k, starts + if Begins(s, a, k) then 1 else 0)
  {
    hide Cold, Brewing, Warm, Move, GoStep, ThreadInv, LocksInv, RefreshInv, StaysFresh;
    if a.Go? && s.threads[a.t].key == k {
      if starts == 0 {
        ColdStep(s, a.t, a.choice, k);
      } else if Warm(s, k) {
        WarmStep(s, a.t, a.choice, k);
      } else {
        var p :| Brewing(s, k, p);
        BrewingStep(s, a.t, a.choice, k, p);
      }
    } else {
      Elsewhere(s, a, k);
      PhaseElsewhere(s, Next(s, a), k, starts);
    }
  }

  /**
   No stampede: on a cold key where reads, writes and the computation succeed, the value is
   not null, stays fresh and is not dropped, and no call is forced, any number of concurrent
   callers start at most one computation, exactly one once anyone has an answer, and all of
   them answer with the value that computation stored.
   */
  lemma {:induction false} NoStampede(r: Run, k: Key, n: nat, t: Tid)
    requires IsRun(r) && Calm(r, k) && n < |r.states|
    ensures Starts(r, k, n) <= 1
    ensures t in r.states[n].threads && r.states[n].threads[t].key == k && r.states[n].threads[t].pc.Done? ==>
      && Starts(r, k, n) == 1
      && k in r.states[n].store
      && r.states[n].threads[t].pc.answer == Content(r.states[n].store[k].entry)
      && r.states[n].threads[t].pc.answer.Some?
  {
    hide IsRun, Calm, Starts;
    Phases(r, k, n);
  }
}
