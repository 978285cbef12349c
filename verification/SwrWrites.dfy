/**
 What a computation of SwrCache.dfy leaves behind for the readers, in numbers: the value, the
 time until which it is fresh and the time until which the backend gives it out.
 */
module SwrWrites {
  import opened Basics
  import opened SwrCache
  import opened SwrRuns

  /** Thread `t` takes no step after action `a` and before action `b`. */
  ghost predicate Rests(r: Run, t: Tid, a: nat, b: nat) {
    a < b <= |r.actions| && forall i :: a < i < b ==> !(r.actions[i].Go? && r.actions[i].t == t)
  }

  lemma {:induction false} SameWhileResting(r: Run, t: Tid, a: nat, b: nat)
    requires IsRun(r) && Rests(r, t, a, b) && t in r.states[a + 1].threads
    ensures t in r.states[b].threads && r.states[b].threads[t] == r.states[a + 1].threads[t]
    decreases b
  {
    hide Next, Enabled, Init;
    if a + 1 < b {
      SameWhileResting(r, t, a, b - 1);
      StepsAreBounded(r.states[b - 1], r.actions[b - 1], t);
    }
  }

  /** What is in the store under `k`: a result, fresh before `hard`, given out before `gone`. */
  predicate Holds(s: State, k: Key, result: Option<Value>, storedAt: int, hard: int, gone: int) {
    && k in s.store && s.store[k].expiry == gone
    && s.store[k].entry.Envelope? && s.store[k].entry.content == result
    && s.store[k].entry.storedAt == storedAt && s.store[k].entry.hardUntil == hard
  }

  // ---------------------------------------------------------------- the three steps

  lemma {:induction false} GetsResult(s: State, t: Tid, result: Option<Value>)
    requires t in s.threads && s.threads[t].pc.Computing?
    ensures var (th, s') := (s.threads[t], GoStep(s, t, Give(result)));
      CanGo(s, t, Give(result)) && t in s'.threads && s'.threads[t] == th.(pc := Wrapping(th.pc.held, result))
  {
  }

  lemma {:induction false} WrapsResult(s: State, t: Tid)
    requires t in s.threads && s.threads[t].pc.Wrapping?
    ensures var (th, s') := (s.threads[t], GoStep(s, t, Ok));
      var hard := s.now + if th.ttl >= 1 then th.ttl else 1;
      && CanGo(s, t, Ok) && t in s'.threads
      && s'.threads[t] == th.(pc := Writing(th.pc.held, th.pc.result, Envelope(th.pc.result, s.now, hard)))
  {
  }

  lemma {:induction false} WritesResult(s: State, t: Tid)
    requires t in s.threads && s.threads[t].pc.Writing?
    ensures CanGo(s, t, Ok)
    ensures var (th, s') := (s.threads[t], GoStep(s, t, Ok));
      s'.store == s.store[th.key := Cell(th.pc.envelope, s.now + 5 * th.ttl)]
  {
  }

  /**
   Whoever computes, a plain call, a forced one or a job: over any run and whatever happens in
   between, a result that the computation is given and that it writes without fault is in the
   store when the write is done, stamped with the clock at the wrapping, fresh for max(1, ttl)
   from then on and given out for 5 * ttl from the write on.
   */
  lemma {:induction false} ComputedIsStored(r: Run, t: Tid, result: Option<Value>, a: nat, b: nat, c: nat)
    requires IsRun(r) && c < |r.actions| && Rests(r, t, a, b) && Rests(r, t, b, c)
    requires r.actions[a] == Go(t, Give(result)) && r.actions[b] == Go(t, Ok) && r.actions[c] == Go(t, Ok)
    requires t in r.states[a].threads && r.states[a].threads[t].pc.Computing?
    ensures var th := r.states[a].threads[t];
      Holds(r.states[c + 1], th.key, result, r.states[b].now,
            r.states[b].now + (if th.ttl >= 1 then th.ttl else 1), r.states[c].now + 5 * th.ttl)
  {
    GetsResult(r.states[a], t, result);
    assert Enabled(r.states[a], r.actions[a]) && r.states[a + 1] == Next(r.states[a], r.actions[a]);
    hide Enabled, GoStep, CanGo, Init;
    assert r.states[a + 1] == GoStep(r.states[a], t, Give(result));
    SameWhileResting(r, t, a, b);
    WrapsResult(r.states[b], t);
    assert r.states[b + 1] == Next(r.states[b], r.actions[b]) == GoStep(r.states[b], t, Ok);
    SameWhileResting(r, t, b, c);
    WritesResult(r.states[c], t);
    assert r.states[c + 1] == Next(r.states[c], r.actions[c]) == GoStep(r.states[c], t, Ok);
  }

  /** From any state these three steps are open to it, one after the other. */
  lemma {:induction false} CanStore(s0: State, s: State, t: Tid, result: Option<Value>) returns (s': State)
    requires Leads(s0, s) && t in s.threads && s.threads[t].pc.Computing?
    ensures Leads(s0, s')
    ensures var th := s.threads[t];
      Holds(s', th.key, result, s.now, s.now + (if th.ttl >= 1 then th.ttl else 1), s.now + 5 * th.ttl)
  {
    hide Leads;
    GetsResult(s, t, result);
    Act(s0, s, Go(t, Give(result)));
    var s1 := GoStep(s, t, Give(result));
    WrapsResult(s1, t);
    Act(s0, s1, Go(t, Ok));
    var s2 := GoStep(s1, t, Ok);
    WritesResult(s2, t);
    Act(s0, s2, Go(t, Ok));
    s' := GoStep(s2, t, Ok);
    GoKeepsClock(s, t, Give(result));
    GoKeepsClock(s1, t, Ok);
  }

  lemma {:induction false} GoKeepsClock(s: State, t: Tid, c: Choice)
    requires CanGo(s, t, c)
    ensures GoStep(s, t, c).now == s.now
  {
    hide Move;
  }

  /** A direct write leaves the same numbers. */
  lemma {:induction false} DirectWriteIsStored(s: State, k: Key, v: Value, ttl: int)
    ensures Holds(Next(s, ExternalSet(k, v, ttl)), k, Some(v), s.now, s.now + (if ttl >= 1 then ttl else 1),
                  s.now + 5 * ttl)
  {
  }

  // ---------------------------------------------------------------- who computes for whom

  /** A job computes the key of the call that started it, with that call's ttl. */
  lemma {:induction false} JobInherits(s: State, t: Tid, id: Tid)
    requires CanGo(s, t, Job(id))
    ensures var s' := GoStep(s, t, Job(id));
      && id in s'.threads && s'.threads[id].role.Runner?
      && s'.threads[id].key == s.threads[t].key && s'.threads[id].ttl == s.threads[t].ttl
  {
  }

  lemma {:induction false} StepKeeps(s: State, a: Action, t: Tid)
    requires Enabled(s, a) && t in s.threads
    ensures var s' := Next(s, a);
      && t in s'.threads && s'.threads[t].role == s.threads[t].role
      && s'.threads[t].key == s.threads[t].key && s'.threads[t].ttl == s.threads[t].ttl
  {
    StepsAreBounded(s, a, t);
    if a.Go? && a.t == t {
      MovesDown(s, s.threads[t], t, a.choice);
      GoFrame(s, t, a.choice);
      hide Move, GoStep, CanGo, Rank;
    }
  }

  /** Role, key and ttl of a thread are those it was started with. */
  lemma {:induction false} ThreadsKeep(r: Run, i: nat, j: nat, t: Tid)
    requires IsRun(r) && i <= j < |r.states| && t in r.states[i].threads
    ensures t in r.states[j].threads
    ensures var (th, th') := (r.states[i].threads[t], r.states[j].threads[t]);
      th'.role == th.role && th'.key == th.key && th'.ttl == th.ttl
    decreases j
  {
    hide Next, Enabled, Init;
    if i < j {
      ThreadsKeep(r, i, j - 1, t);
      var s, a := r.states[j - 1], r.actions[j - 1];
      assert Enabled(s, a) && r.states[j] == Next(s, a);
      StepKeeps(s, a, t);
    }
  }

  /** A call starts with its own key and ttl: a forced one at once at the computation, another at the store. */
  lemma {:induction false} CallStarts(s: State, id: Tid, key: Key, ttl: int, force: bool, allowStale: bool)
    requires id !in s.threads
    ensures var th := Next(s, Spawn(id, key, ttl, force, allowStale)).threads[id];
      && th.key == key && th.ttl == ttl && th.role == Caller(force, allowStale)
      && (if force then th.pc == Computing(None) else th.pc == ReadFirst)
  {
  }

  // ---------------------------------------------------------------- readers

  /** A call that reads the store finds what it holds, as long as the backend gives it out. */
  lemma {:induction false} ReaderFinds(s: State, u: Tid, result: Option<Value>, storedAt: int, hard: int, gone: int)
    requires u in s.threads && s.threads[u].pc.ReadFirst? && Holds(s, s.threads[u].key, result, storedAt, hard, gone)
    ensures CanGo(s, u, Ok)
    ensures GoStep(s, u, Ok).threads[u].pc ==
              JudgeFirst(if s.now < gone then Some(Envelope(result, storedAt, hard)) else None)
  {
  }

  /** It answers with a value that is still fresh, or stale but allowed, and turns to the lock otherwise. */
  lemma {:induction false} ReaderAnswers(s: State, u: Tid, v: Value, storedAt: int, hard: int)
    requires u in s.threads && s.threads[u].role.Caller?
    requires s.threads[u].pc == JudgeFirst(Some(Envelope(Some(v), storedAt, hard)))
    ensures CanGo(s, u, Ok)
    ensures GoStep(s, u, Ok).threads[u].pc ==
              if s.now < hard then Done(Some(v)) else if s.threads[u].role.allowStale then SchedWait(v) else LockFast
  {
  }

  /**
   A payload from before the envelopes is always fresh; no entry, or one that holds nothing,
   sends the call to the lock.
   */
  lemma {:induction false} ReaderElse(s: State, u: Tid, raw: Option<Entry>)
    requires u in s.threads && s.threads[u].role.Caller? && s.threads[u].pc == JudgeFirst(raw)
    requires raw.None? || raw.value.Legacy? || raw.value.content.None?
    ensures CanGo(s, u, Ok)
    ensures GoStep(s, u, Ok).threads[u].pc ==
              if raw.Some? && raw.value.Legacy? then Done(Some(raw.value.payload)) else LockFast
  {
  }

  /** Under the lock the call looks again, and computes exactly when it finds no fresh value. */
  lemma {:induction false} SecondLook(s: State, u: Tid, lock: LockId, raw: Option<Entry>)
    requires u in s.threads && s.threads[u].pc == JudgeSecond(lock, raw)
    ensures CanGo(s, u, Ok)
    ensures GoStep(s, u, Ok).threads[u].pc ==
              if raw.Some? && raw.value.Legacy? then Leaving(lock, Some(raw.value.payload))
              else if raw.Some? && raw.value.content.Some? && s.now < raw.value.hardUntil then
                Leaving(lock, raw.value.content)
              else Computing(Some(lock))
  {
  }

  /**
   A stale entry is repaired: from every reachable state with a stale entry and nothing of the
   key under way, the job of a stale read can store what it is given, for every later reader.
   */
  lemma {:induction false} StaleIsRepaired(s: State, k: Key, v: Value, id: Tid, job: Tid, ttl: int) returns (s': State)
    requires Reached(s) && Stale(s, k) && id !in s.threads && job !in s.threads && id != job
    requires s.bgLock.None? && s.master.None? && k !in s.refreshing && LockFree(s, k)
    ensures Reached(s') && Leads(s, s') && k in s'.store
    ensures s'.store[k].entry.Envelope? && s'.store[k].entry.content == Some(v)
    ensures s'.store[k].entry.storedAt == s.now && s'.store[k].entry.hardUntil >= s.now + 1
  {
    LeadsItself(s);
    hide Leads, Reached, Inv, Stale, Served;
    var s1 := QueuesJob(s, s, k, id, job, ttl);
    var s2 := JobComputes(s, s1, job, k);
    s' := CanStore(s, s2, job, Some(v));
    ReachedOn(s, s');
  }
}
