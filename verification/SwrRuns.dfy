/**
 What the cache of SwrCache.dfy allows: from which states it can go on so that two threads
 compute one key at once, or so that a background job computes a key which another writer has
 just made fresh.
 */
module SwrRuns {
  import opened Basics
  import opened SwrCache

  // ---------------------------------------------------------------- going on

  /** The state after the actions, if each is enabled at its turn. */
  function After(s: State, actions: seq<Action>): Option<State> {
    if actions == [] then Some(s)
    else
      var last, before := actions[|actions| - 1], After(s, actions[..|actions| - 1]);
      if before.Some? && Enabled(before.value, last) then Some(Next(before.value, last)) else None
  }

  ghost predicate Leads(s: State, s': State) {
    exists actions :: After(s, actions) == Some(s')
  }

  /** The state is the last one of a run. */
  ghost predicate Reached(s: State) {
    exists r :: IsRun(r) && r.states[|r.actions|] == s
  }

  lemma {:induction false} LeadsItself(s: State)
    ensures Leads(s, s)
  {
    assert After(s, []) == Some(s);
  }

  lemma {:induction false} Act(s0: State, s: State, a: Action)
    requires Leads(s0, s) && Enabled(s, a)
    ensures Leads(s0, Next(s, a))
  {
    hide Enabled, Next;
    var actions :| After(s0, actions) == Some(s);
    assert (actions + [a])[..|actions|] == actions;
    assert After(s0, actions + [a]) == Some(Next(s, a));
  }

  /** One step of thread `t`, given what the step does. */
  lemma {:induction false} Hop(s0: State, s: State, t: Tid, c: Choice, pc: Pc, e: Effect) returns (s': State)
    requires Leads(s0, s) && CanGo(s, t, c) && Move(s, s.threads[t], c) == (pc, e)
    ensures Leads(s0, s') && s' == Touch(At(s, t, pc), t, e)
  {
    hide Leads, CanGo, Move, Touch, At;
    Act(s0, s, Go(t, c));
    s' := Next(s, Go(t, c));
  }

  /** What a run has reached and leads on is reached by a run. */
  lemma {:induction false} ReachedOn(s: State, s': State)
    requires Reached(s) && Leads(s, s')
    ensures Reached(s')
  {
    var actions :| After(s, actions) == Some(s');
    ReachedAfter(s, actions);
  }

  lemma {:induction false} ReachedAfter(s: State, actions: seq<Action>)
    requires Reached(s) && After(s, actions).Some?
    ensures Reached(After(s, actions).value)
  {
    hide Enabled, Next, Init;
    if actions != [] {
      var front := actions[..|actions| - 1];
      ReachedAfter(s, front);
      ReachedNext(After(s, front).value, actions[|actions| - 1]);
    }
  }

  lemma {:induction false} ReachedNext(s: State, a: Action)
    requires Reached(s) && Enabled(s, a)
    ensures Reached(Next(s, a))
  {
    hide Enabled, Next, Init;
    var r: Run :| IsRun(r) && r.states[|r.actions|] == s;
    var more := Run(r.states + [Next(s, a)], r.actions + [a]);
    assert more.states[0] == r.states[0];
    forall i | 0 <= i < |more.actions|
      ensures Enabled(more.states[i], more.actions[i]) && more.states[i + 1] == Next(more.states[i], more.actions[i])
    {
      if i < |r.actions| {
        assert more.states[i] == r.states[i] && more.actions[i] == r.actions[i]
               && more.states[i + 1] == r.states[i + 1];
      }
    }
    assert IsRun(more) && more.states[|more.actions|] == Next(s, a);
  }

  lemma {:induction false} ReachedInv(s: State)
    requires Reached(s)
    ensures Inv(s)
  {
    var r: Run :| IsRun(r) && r.states[|r.actions|] == s;
    hide Inv;
    Reachable(r, |r.actions|);
  }

  lemma {:induction false} InitReached(s: State)
    requires Init(s)
    ensures Reached(s)
  {
    hide Init;
    assert IsRun(Run([s], []));
    assert Run([s], []).states[|Run([s], []).actions|] == s;
  }

  // ---------------------------------------------------------------- a stale read and its job

  /** The key has an entry that is past its hard limit and still served. */
  predicate Stale(s: State, k: Key) {
    Lookup(s, k).Some? && Content(Lookup(s, k).value).Some? && !Fresh(Lookup(s, k).value, s.now)
  }

  function Served(s: State, k: Key): Option<Value> {
    if Lookup(s, k).Some? then Content(Lookup(s, k).value) else None
  }

  /** The per-key lock is free, or not made yet. */
  predicate LockFree(s: State, k: Key) {
    k in s.locks ==> s.locks[k] !in s.owners
  }

  /** Nothing that concerns the cached values, the clock or the per-key locks has changed. */
  ghost predicate Alike(s: State, s': State) {
    s'.store == s.store && s'.now == s.now && s'.locks == s.locks && s'.nextLock == s.nextLock &&
    s'.owners == s.owners && s'.master == s.master
  }

  predicate Stands(s: State, t: Tid, role: Role, k: Key, pc: Pc) {
    t in s.threads && s.threads[t].role == role && s.threads[t].key == k && s.threads[t].pc == pc
  }

  /** A call that finds a stale entry turns to the background refresh. */
  lemma {:induction false} FindsStale(s0: State, s: State, k: Key, id: Tid, ttl: int) returns (s': State)
    requires Leads(s0, s) && Stale(s, k) && id !in s.threads
    ensures Leads(s0, s') && Alike(s, s') && s'.bgLock == s.bgLock && s'.refreshing == s.refreshing
    ensures s'.threads.Keys == s.threads.Keys + {id}
    ensures Stands(s', id, Caller(false, true), k, SchedWait(Served(s, k).value))
  {
    hide Leads;
    var raw := Lookup(s, k);
    Act(s0, s, Spawn(id, k, ttl, false, true));
    var s1 := Next(s, Spawn(id, k, ttl, false, true));
    var s2 := Hop(s0, s1, id, Ok, JudgeFirst(raw), Nothing);
    s' := Hop(s0, s2, id, Ok, SchedWait(Content(raw.value).value), Nothing);
  }

  lemma {:induction false} TestsMark(s0: State, s: State, k: Key, id: Tid, v: Value) returns (s': State)
    requires Leads(s0, s) && Stands(s, id, Caller(false, true), k, SchedWait(v))
    requires s.bgLock.None? && k !in s.refreshing
    ensures Leads(s0, s') && Alike(s, s') && s'.threads.Keys == s.threads.Keys
    ensures Stands(s', id, Caller(false, true), k, SchedAdd(v))
  {
    hide Leads;
    var s1 := Hop(s0, s, id, Ok, SchedTest(v), TakeBg);
    s' := Hop(s0, s1, id, Ok, SchedAdd(v), Nothing);
  }

  /** It takes the key's mark and leaves the lock again. */
  lemma {:induction false} TakesMark(s0: State, s: State, k: Key, id: Tid, v: Value) returns (s': State)
    requires Leads(s0, s) && Stands(s, id, Caller(false, true), k, SchedAdd(v))
    ensures Leads(s0, s') && Alike(s, s') && s'.threads.Keys == s.threads.Keys
    ensures Stands(s', id, Caller(false, true), k, Submit(v))
  {
    hide Leads;
    var s1 := Hop(s0, s, id, Ok, SchedAdded(v), Mark);
    s' := Hop(s0, s1, id, Ok, Submit(v), LeaveBg);
  }

  /** It hands the job to the executor and answers with the stale value. */
  lemma {:induction false} Submits(s0: State, s: State, k: Key, id: Tid, job: Tid, v: Value) returns (s': State)
    requires Leads(s0, s) && Stands(s, id, Caller(false, true), k, Submit(v)) && job !in s.threads
    ensures Leads(s0, s') && Alike(s, s')
    ensures Stands(s', id, Caller(false, true), k, Done(Some(v))) && Stands(s', job, Runner, k, Queued)
  {
    hide Leads;
    s' := Hop(s0, s, id, Job(job), Done(Some(v)), Fork(job));
  }

  /** A stale read leaves its job in the queue and is answered. */
  lemma {:induction false} QueuesJob(s0: State, s: State, k: Key, id: Tid, job: Tid, ttl: int) returns (s': State)
    requires Leads(s0, s) && Stale(s, k) && id !in s.threads && job !in s.threads && id != job
    requires s.bgLock.None? && k !in s.refreshing
    ensures Leads(s0, s') && Alike(s, s')
    ensures Stands(s', id, Caller(false, true), k, Done(Served(s, k))) && Stands(s', job, Runner, k, Queued)
  {
    hide Leads, Lookup, Content;
    var v := Served(s, k).value;
    var s1 := FindsStale(s0, s, k, id, ttl);
    var s2 := TestsMark(s0, s1, k, id, v);
    var s3 := TakesMark(s0, s2, k, id, v);
    hide Served;
    s' := Submits(s0, s3, k, id, job, v);
  }

  // ---------------------------------------------------------------- getting the lock

  /** Threads other than `t`, the store and the clock are as they were. */
  ghost predicate OthersStay(s: State, s': State, t: Tid) {
    s'.store == s.store && s'.now == s.now && s'.threads.Keys == s.threads.Keys &&
    forall u :: u in s.threads && u != t ==> s'.threads[u] == s.threads[u]
  }

  /** A key without a lock object gets one. */
  lemma {:induction false} MakesLock(s0: State, s: State, t: Tid, role: Role, k: Key) returns (s': State)
    requires Leads(s0, s) && Stands(s, t, role, k, LockFast) && s.master.None? && k !in s.locks
    ensures Leads(s0, s') && OthersStay(s, s', t)
    ensures Stands(s', t, role, k, LockMake) && s'.owners == s.owners && s'.nextLock == s.nextLock
  {
    hide Leads;
    var s1 := Hop(s0, s, t, Ok, LockWait, Nothing);
    var s2 := Hop(s0, s1, t, Ok, LockTest, TakeMaster);
    s' := Hop(s0, s2, t, Ok, LockMake, Nothing);
  }

  lemma {:induction false} GetsLock(s0: State, s: State, t: Tid, role: Role, k: Key) returns (s': State)
    requires Leads(s0, s) && Stands(s, t, role, k, LockMake)
    ensures Leads(s0, s') && OthersStay(s, s', t)
    ensures Stands(s', t, role, k, Acquire(s.nextLock)) && s'.owners == s.owners
  {
    hide Leads;
    var s1 := Hop(s0, s, t, Ok, LockGot(s.nextLock), NewLock);
    s' := Hop(s0, s1, t, Ok, Acquire(s.nextLock), LeaveMaster);
  }

  lemma {:induction false} NewLockFree(s: State)
    requires Inv(s)
    ensures s.nextLock !in s.owners
  {
    forall t | t in s.threads
      ensures Held(s.threads[t].pc) != Some(s.nextLock)
    {
      assert ThreadInv(s, t);
    }
  }

  /** A thread in front of `_get_lock` can go on to stand at a free lock. */
  lemma {:induction false} ReachesLock(s0: State, s: State, t: Tid, role: Role, k: Key) returns (s': State, l: LockId)
    requires Leads(s0, s) && Stands(s, t, role, k, LockFast) && s.master.None? && LockFree(s, k) && Inv(s)
    ensures Leads(s0, s') && OthersStay(s, s', t)
    ensures Stands(s', t, role, k, Acquire(l)) && l !in s'.owners
  {
    NewLockFree(s);
    hide Leads, Inv;
    if k in s.locks {
      l := s.locks[k];
      s' := Hop(s0, s, t, Ok, Acquire(l), Nothing);
    } else {
      l := s.nextLock;
      var s1 := MakesLock(s0, s, t, role, k);
      s' := GetsLock(s0, s1, t, role, k);
    }
  }

  // ---------------------------------------------------------------- jobs

  /** A job never looks at the store: whatever that holds, its step is the same. */
  lemma {:induction false} JobIgnoresStore(s: State, t: Tid, c: Choice, other: map<Key, Cell>)
    requires Reached(s) && t in s.threads && s.threads[t].role.Runner? && CanGo(s, t, c)
    ensures var s' := s.(store := other);
      CanGo(s', t, c) && Move(s', s.threads[t], c) == Move(s, s.threads[t], c)
  {
    ReachedInv(s);
    assert ThreadInv(s, t);
  }

  /** So a job's step makes it compute exactly when the job is at its key's lock and the lock is free. */
  lemma {:induction false} JobComputesExactly(s: State, t: Tid, c: Choice)
    requires Reached(s) && t in s.threads && s.threads[t].role.Runner? && CanGo(s, t, c)
    ensures Computes(Next(s, Go(t, c)), t, s.threads[t].key) <==>
              s.threads[t].pc.Acquire? && LockFree(s, s.threads[t].key)
  {
    ReachedInv(s);
    assert ThreadInv(s, t);
    hide Reached, Inv, ThreadInv, Move, GoStep, RoleFits;
    JobMove(s, s.threads[t], c);
    GoFrame(s, t, c);
  }

  lemma {:induction false} JobMove(s: State, th: Thread, c: Choice)
    requires RoleFits(th) && th.role.Runner?
    ensures Move(s, th, c).0.Computing? <==> th.pc.Acquire? && th.pc.lock !in s.owners
    ensures !Move(s, th, c).1.Fork?
  {
  }

  /** A queued job whose lock is free can go on to compute while the store stays as it is. */
  lemma {:induction false} JobComputes(s0: State, s: State, job: Tid, k: Key) returns (s': State)
    requires Reached(s0) && Leads(s0, s) && Stands(s, job, Runner, k, Queued) && s.master.None? && LockFree(s, k)
    ensures Leads(s0, s') && OthersStay(s, s', job) && Computes(s', job, k) && s'.threads[job].role.Runner?
  {
    var s1 := JobStarts(s0, s, job, k);
    ReachedOn(s0, s1);
    ReachedInv(s1);
    hide Leads, Reached, Inv;
    var s2, l := ReachesLock(s0, s1, job, Runner, k);
    hide LockFree;
    s' := TakesLock(s0, s2, job, k, l);
  }

  lemma {:induction false} JobStarts(s0: State, s: State, job: Tid, k: Key) returns (s': State)
    requires Leads(s0, s) && Stands(s, job, Runner, k, Queued)
    ensures Leads(s0, s') && OthersStay(s, s', job) && Alike(s, s') && Stands(s', job, Runner, k, LockFast)
  {
    hide Leads;
    s' := Hop(s0, s, job, Ok, LockFast, Nothing);
  }

  lemma {:induction false} TakesLock(s0: State, s: State, job: Tid, k: Key, l: LockId) returns (s': State)
    requires Leads(s0, s) && Stands(s, job, Runner, k, Acquire(l)) && l !in s.owners
    ensures Leads(s0, s') && OthersStay(s, s', job) && Stands(s', job, Runner, k, Computing(Some(l)))
  {
    hide Leads;
    s' := Hop(s0, s, job, Ok, Computing(Some(l)), TakeLock(l));
  }

  /**
   One refresh per expiry is not kept: from every reachable state in which a key is stale and
   nothing of it is under way, a call can be answered with the stale value, another writer can
   store a fresh one, and the call's job can still go on to compute the key.
   */
  lemma {:induction false} FreshKeyRecomputed(s: State, k: Key, v: Value, life: int, id: Tid, job: Tid, ttl: int)
    returns (s': State)
    requires Reached(s) && Stale(s, k) && life >= 1 && id !in s.threads && job !in s.threads && id != job
    requires s.bgLock.None? && s.master.None? && k !in s.refreshing && LockFree(s, k)
    ensures Reached(s') && Leads(s, s')
    ensures Stands(s', id, Caller(false, true), k, Done(Served(s, k))) && Computes(s', job, k)
    ensures s'.threads[job].role.Runner? && Served(s', k) == Some(v) && Fresh(Lookup(s', k).value, s'.now)
  {
    LeadsItself(s);
    hide Leads, Reached, Inv, Served, Stale;
    var s1 := QueuesJob(s, s, k, id, job, ttl);
    Act(s, s1, ExternalSet(k, v, life));
    var s2 := Next(s1, ExternalSet(k, v, life));
    FreshlySet(s1, k, v, life);
    s' := JobComputes(s, s2, job, k);
    SameEntries(s2, s', k);
    ReachedOn(s, s');
  }

  lemma {:induction false} SameEntries(s: State, s': State, k: Key)
    requires s'.store == s.store && s'.now == s.now
    ensures Lookup(s', k) == Lookup(s, k) && Served(s', k) == Served(s, k)
  {
  }

  lemma {:induction false} FreshlySet(s: State, k: Key, v: Value, life: int)
    requires life >= 1
    ensures var s' := Next(s, ExternalSet(k, v, life));
      Served(s', k) == Some(v) && Fresh(Lookup(s', k).value, s'.now)
  {
  }

  /** There are such states: a process may start on a store that holds a stale entry. */
  lemma {:induction false} JobCanRecompute() returns (s: State, t: Tid, k: Key)
    ensures Reached(s) && Computes(s, t, k) && s.threads[t].role.Runner?
    ensures Lookup(s, k).Some? && Fresh(Lookup(s, k).value, s.now)
  {
    t, k := 1, "k";
    var left := Cell(Envelope(Some(1), 0, 60), 300);
    var start := State(map[], map[], 0, map[], None, None, {}, map[k := left], 60);
    InitReached(start);
    assert Lookup(start, k) == Some(left.entry);
    hide Reached, Leads;
    s := FreshKeyRecomputed(start, k, 2, 60, 0, t, 60);
  }

  // ---------------------------------------------------------------- which computations overlap

  /** A call that finds nothing, of a key whose lock is free, can go on to compute. */
  lemma {:induction false} ColdCallReads(s0: State, s: State, k: Key, id: Tid, ttl: int, allowStale: bool)
    returns (s': State)
    requires Leads(s0, s) && Lookup(s, k).None? && id !in s.threads
    ensures Leads(s0, s') && Alike(s, s') && Stands(s', id, Caller(false, allowStale), k, LockFast)
  {
    hide Leads;
    var call := Spawn(id, k, ttl, false, allowStale);
    Act(s0, s, call);
    var s1 := Hop(s0, Next(s, call), id, Ok, JudgeFirst(None), Nothing);
    s' := Hop(s0, s1, id, Ok, LockFast, Nothing);
  }

  lemma {:induction false} ReadsAgain(s0: State, s: State, k: Key, id: Tid, role: Role, l: LockId) returns (s': State)
    requires Leads(s0, s) && role.Caller? && Stands(s, id, role, k, Acquire(l)) && l !in s.owners && Lookup(s, k).None?
    ensures Leads(s0, s') && Stands(s', id, role, k, JudgeSecond(l, None))
  {
    hide Leads;
    var s1 := Hop(s0, s, id, Ok, ReadSecond(l), TakeLock(l));
    s' := Hop(s0, s1, id, Ok, JudgeSecond(l, None), Nothing);
  }

  /** Under the lock it looks again, finds nothing and computes. */
  lemma {:induction false} LooksAgain(s0: State, s: State, k: Key, id: Tid, role: Role, l: LockId) returns (s': State)
    requires Leads(s0, s) && role.Caller? && Stands(s, id, role, k, Acquire(l)) && l !in s.owners && Lookup(s, k).None?
    ensures Leads(s0, s') && Stands(s', id, role, k, Computing(Some(l)))
  {
    hide Leads;
    var s1 := ReadsAgain(s0, s, k, id, role, l);
    s' := Hop(s0, s1, id, Ok, Computing(Some(l)), Nothing);
  }

  lemma {:induction false} ColdCallComputes(s: State, k: Key, id: Tid, ttl: int, allowStale: bool) returns (s': State)
    requires Reached(s) && Lookup(s, k).None? && id !in s.threads && s.master.None? && LockFree(s, k)
    ensures Reached(s') && Computes(s', id, k) && s'.threads[id].role == Caller(false, allowStale)
  {
    LeadsItself(s);
    hide Leads, Reached, Inv;
    var role := Caller(false, allowStale);
    var s1 := ColdCallReads(s, s, k, id, ttl, allowStale);
    ReachedOn(s, s1);
    ReachedInv(s1);
    var s2, l := ReachesLock(s, s1, id, role, k);
    hide LockFree;
    s' := LooksAgain(s, s2, k, id, role, l);
    ReachedOn(s, s');
  }

  /** A forced call computes at once, whoever else computes the key. */
  lemma {:induction false} ForcedCallJoins(s: State, t: Tid, k: Key, id: Tid, ttl: int, allowStale: bool)
    requires Reached(s) && Computes(s, t, k) && id !in s.threads
    ensures var s' := Next(s, Spawn(id, k, ttl, true, allowStale));
      Reached(s') && Computes(s', t, k) && Computes(s', id, k) && Forced(s'.threads[id])
  {
    hide Reached;
    ReachedNext(s, Spawn(id, k, ttl, true, allowStale));
  }

  ghost predicate Overlap(s: State, t: Tid, t': Tid, k: Key, a: Role, b: Role) {
    Reached(s) && t != t' && Computes(s, t, k) && Computes(s, t', k) && s.threads[t].role == a
      && s.threads[t'].role == b
  }

  ghost predicate CanOverlap(a: Role, b: Role) {
    exists s, t, t', k :: Overlap(s, t, t', k, a, b)
  }

  lemma {:induction false} Above(ids: set<Tid>) returns (n: Tid)
    ensures forall t :: t in ids ==> t < n
  {
    if ids == {} {
      n := 0;
    } else {
      var t :| t in ids;
      var m := Above(ids - {t});
      n := Max(m, t + 1);
      assert forall u :: u in ids ==> u == t || u in ids - {t};
    }
  }

  /** A thread of any kind can come to compute. */
  lemma {:induction false} EachCanCompute(role: Role) returns (s: State, t: Tid, k: Key)
    ensures Reached(s) && Computes(s, t, k) && s.threads[t].role == role
  {
    if role.Runner? {
      s, t, k := JobCanRecompute();
    } else {
      t, k := 0, "k";
      var start := State(map[], map[], 0, map[], None, None, {}, map[], 0);
      InitReached(start);
      hide Reached;
      if role.force {
        ReachedNext(start, Spawn(t, k, 60, true, role.allowStale));
        s := Next(start, Spawn(t, k, 60, true, role.allowStale));
      } else {
        s := ColdCallComputes(start, k, t, 60, role.allowStale);
      }
    }
  }

  lemma {:induction false} ForcedOverlaps(allowStale: bool, b: Role)
    ensures CanOverlap(Caller(true, allowStale), b) && CanOverlap(b, Caller(true, allowStale))
  {
    var s, t, k := EachCanCompute(b);
    hide Reached;
    var id := Above(s.threads.Keys);
    ForcedCallJoins(s, t, k, id, 60, allowStale);
    var s' := Next(s, Spawn(id, k, 60, true, allowStale));
    assert Overlap(s', t, id, k, b, Caller(true, allowStale));
    assert Overlap(s', id, t, k, Caller(true, allowStale), b);
  }

  /** Two threads can compute one key at once exactly when one of them was called with `force`. */
  lemma {:induction false} OverlapExactly(a: Role, b: Role)
    ensures CanOverlap(a, b) <==> (a.Caller? && a.force) || (b.Caller? && b.force)
  {
    if CanOverlap(a, b) {
      var s, t, t', k :| Overlap(s, t, t', k, a, b);
      var r: Run :| IsRun(r) && r.states[|r.actions|] == s;
      hide IsRun, Init;
      SingleFlight(r, |r.actions|, t, t', k);
    }
    if a.Caller? && a.force {
      ForcedOverlaps(a.allowStale, b);
    }
    if b.Caller? && b.force {
      ForcedOverlaps(b.allowStale, a);
    }
  }
}
