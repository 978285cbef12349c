/**
 The circuit breaker of backend/app/data_sources/circuit_breaker.py: per-source records that
 should be a function of the log of calls.
 */
module CircuitBreaker {
  import opened Basics

  datatype Phase = Closed | Open | HalfOpen

  datatype Record = Record(phase: Phase, failures: nat, lastFailure: int, halfOpenCalls: int, lastError: Option<string>)

  datatype Config = Config(threshold: int, cooldown: int, halfOpenMax: int)

  type States = map<string, Record>

  datatype Op =
    | Query(source: string, now: int)
    | Success(source: string)
    | Failure(source: string, error: Option<string>, now: int)
    | Reset(which: Option<string>)

  const INITIAL := Record(Closed, 0, 0, 0, None)

  function Of(states: States, source: string): Record {
    if source in states then states[source] else INITIAL
  }

  function Queried(r: Record, config: Config, now: int): Record {
    if r.phase.Open? && now - r.lastFailure >= config.cooldown then r.(phase := HalfOpen, halfOpenCalls := 0) else r
  }

  function Answer(r: Record, config: Config, now: int): bool {
    match r.phase
    case Closed => true
    case Open => now - r.lastFailure >= config.cooldown
    case HalfOpen => r.halfOpenCalls < config.halfOpenMax
  }

  function Failed(r: Record, config: Config, error: Option<string>, now: int): Record {
    var next := r.(failures := r.failures + 1, lastFailure := now, lastError := error);
    if r.phase.HalfOpen? then next.(phase := Open, halfOpenCalls := 0)
    else if next.failures >= config.threshold then next.(phase := Open)
    else next
  }

  /** A reset without a source, or with an empty one, resets every source. */
  predicate ResetsAll(op: Op) {
    op.Reset? && (op.which.None? || op.which.value == "")
  }

  function Step(states: States, config: Config, op: Op): States {
    match op
    case Query(s, now) => states[s := Queried(Of(states, s), config, now)]
    case Success(s) => states[s := Of(states, s).(phase := Closed, failures := 0, halfOpenCalls := 0, lastError := None)]
    case Failure(s, error, now) => states[s := Failed(Of(states, s), config, error, now)]
    case Reset(which) => if ResetsAll(op) then map[] else states - {which.value}
  }

  class CircuitBreaker {
    const config: Config
    var states: States

    constructor (threshold: int, cooldown: int, halfOpenMax: int)
      ensures config == Config(threshold, cooldown, halfOpenMax) && states == map[]
    {
      config := Config(threshold, cooldown, halfOpenMax);
      states := map[];
    }

    method GetState(source: string)
      modifies this
      ensures states == old(states)[source := Of(old(states), source)]
    {
      if source !in states {
        states := states[source := Record(Closed, 0, 0, 0, None)];
      }
    }

    method IsAvailable(source: string, now: int) returns (available: bool)
      modifies this
      ensures states == Step(old(states), config, Query(source, now))
      ensures available == Answer(Of(old(states), source), config, now)
    {
      GetState(source);
      var state := states[source];
      if state.phase == Closed {
        return true;
      }
      if state.phase == Open {
        var sinceFailure := now - state.lastFailure;
        if sinceFailure >= config.cooldown {
          states := states[source := state.(phase := HalfOpen)];
          states := states[source := states[source].(halfOpenCalls := 0)];
          return true;
        }
        return false;
      }
      return state.halfOpenCalls < config.halfOpenMax;
    }

    method RecordSuccess(source: string)
      modifies this
      ensures states == Step(old(states), config, Success(source))
    {
      GetState(source);
      var state := states[source];
      states := states[source := state.(phase := Closed, failures := 0, halfOpenCalls := 0, lastError := None)];
    }

    method RecordFailure(source: string, error: Option<string>, now: int)
      modifies this
      ensures states == Step(old(states), config, Failure(source, error, now))
    {
      GetState(source);
      var state := states[source];
      state := state.(failures := state.failures + 1);
      state := state.(lastFailure := now, lastError := error);
      if state.phase == HalfOpen {
        state := state.(phase := Open, halfOpenCalls := 0);
      } else if state.failures >= config.threshold {
        state := state.(phase := Open);
      }
      states := states[source := state];
    }

    method ResetSource(which: Option<string>)
      modifies this
      ensures states == Step(old(states), config, Reset(which))
    {
      if which.Some? && which.value != "" {
        if which.value in states {
          states := states - {which.value};
        }
      } else {
        states := map[];
      }
    }
  }

  // ---------------------------------------------------------------- the log

  function Run(config: Config, log: seq<Op>): States {
    if log == [] then map[] else Step(Run(config, log[..|log| - 1]), config, log[|log| - 1])
  }

  /** The call forgets the failures of `s`. */
  predicate Clears(op: Op, s: string) {
    || (op.Success? && op.source == s)
    || ResetsAll(op)
    || (op.Reset? && op.which == Some(s))
  }

  predicate Fails(op: Op, s: string) {
    op.Failure? && op.source == s
  }

  /** Failures of `s` since its last success or reset. */
  function Streak(log: seq<Op>, s: string): nat {
    if log == [] then 0
    else
      var op := log[|log| - 1];
      if Clears(op, s) then 0 else Streak(log[..|log| - 1], s) + if Fails(op, s) then 1 else 0
  }

  /** When `s` last failed, if it did. */
  function LastFailed(log: seq<Op>, s: string): Option<int> {
    if log == [] then None
    else
      var op := log[|log| - 1];
      if Fails(op, s) then Some(op.now) else LastFailed(log[..|log| - 1], s)
  }

  /** Since the last failure of `s` there was a query after the cooldown. */
  function Probed(config: Config, log: seq<Op>, s: string): bool {
    if log == [] then false
    else
      var front, op := log[..|log| - 1], log[|log| - 1];
      if Fails(op, s) || Clears(op, s) then false
      else
        || Probed(config, front, s)
        || (op.Query? && op.source == s && Tripped(config, front, s) && Elapsed(config, front, s, op.now))
  }

  predicate Tripped(config: Config, log: seq<Op>, s: string) {
    Streak(log, s) >= Max(1, config.threshold)
  }

  predicate Elapsed(config: Config, log: seq<Op>, s: string, now: int) {
    LastFailed(log, s).Some? && now - LastFailed(log, s).value >= config.cooldown
  }

  lemma {:induction false} StreakHasFailure(log: seq<Op>, s: string)
    ensures Streak(log, s) > 0 ==> LastFailed(log, s).Some?
  {
    if log != [] {
      StreakHasFailure(log[..|log| - 1], s);
    }
  }

  /** One call changes the record of `s` only if it names `s` or resets all. */
  function RecordStep(r: Record, config: Config, op: Op, s: string): Record {
    if ResetsAll(op) || (op.Reset? && op.which == Some(s)) then INITIAL
    else if op.Query? && op.source == s then Queried(r, config, op.now)
    else if op.Success? && op.source == s then r.(phase := Closed, failures := 0, halfOpenCalls := 0, lastError := None)
    else if Fails(op, s) then Failed(r, config, op.error, op.now)
    else r
  }

  lemma {:induction false} StepOf(states: States, config: Config, op: Op, s: string)
    ensures Of(Step(states, config, op), s) == RecordStep(Of(states, s), config, op, s)
  {
  }

  /**
   The breaker is a function of its log, for all settings: closed exactly while the failures
   since the last success or reset are below the threshold (at least 1), half open exactly
   when a query since the last failure came after the cooldown; and `half_open_calls` stays 0.
   */
  lemma {:induction false} StateIsLog(config: Config, log: seq<Op>, s: string)
    ensures var r := Of(Run(config, log), s);
      && r.failures == Streak(log, s)
      && r.halfOpenCalls == 0
      && (r.phase.Closed? <==> Streak(log, s) < Max(1, config.threshold))
      && (r.phase.HalfOpen? <==> Probed(config, log, s))
      && (Streak(log, s) > 0 ==> LastFailed(log, s) == Some(r.lastFailure))
  {
    if log != [] {
      var front, op := log[..|log| - 1], log[|log| - 1];
      StateIsLog(config, front, s);
      StreakHasFailure(front, s);
      StepOf(Run(config, front), config, op, s);
    }
  }

  function Time(op: Op): Option<int> {
    match op
    case Query(_, now) => Some(now)
    case Failure(_, _, now) => Some(now)
    case _ => None
  }

  /** The clock never runs backwards over the log, up to `now`. */
  ghost predicate Clocked(log: seq<Op>, now: int) {
    && (forall i :: 0 <= i < |log| && Time(log[i]).Some? ==> Time(log[i]).value <= now)
    && (forall i, j :: 0 <= i < j < |log| && Time(log[i]).Some? && Time(log[j]).Some? ==>
          Time(log[i]).value <= Time(log[j]).value)
  }

  lemma {:induction false} ClockedFront(log: seq<Op>, now: int)
    requires log != [] && Clocked(log, now)
    ensures Clocked(log[..|log| - 1], now)
    ensures Time(log[|log| - 1]).Some? ==> Clocked(log[..|log| - 1], Time(log[|log| - 1]).value)
  {
  }

  lemma {:induction false} ProbedElapsed(config: Config, log: seq<Op>, s: string, now: int)
    requires Clocked(log, now) && Probed(config, log, s)
    ensures Tripped(config, log, s) && Elapsed(config, log, s, now)
  {
    var front, op := log[..|log| - 1], log[|log| - 1];
    ClockedFront(log, now);
    if Probed(config, front, s) {
      ProbedElapsed(config, front, s, now);
    }
  }

  /**
   With a clock that never runs backwards, `is_available` answers: below the threshold, or the
   cooldown has elapsed since the last failure and, when the half-open limit is not positive,
   nobody has asked since.
   */
  lemma {:induction false} AnswerIsLog(config: Config, log: seq<Op>, s: string, now: int)
    requires Clocked(log, now)
    ensures Answer(Of(Run(config, log), s), config, now)
       <==> || !Tripped(config, log, s)
            || (Elapsed(config, log, s, now) && (config.halfOpenMax >= 1 || !Probed(config, log, s)))
  {
    StateIsLog(config, log, s);
    StreakHasFailure(log, s);
    if Probed(config, log, s) {
      ProbedElapsed(config, log, s, now);
    }
  }

  /** With a threshold and a limit of at least 1, exactly the documented answer. */
  lemma {:induction false} Available(config: Config, log: seq<Op>, s: string, now: int)
    requires Clocked(log, now) && config.threshold >= 1 && config.halfOpenMax >= 1
    ensures Of(Run(config, log), s).phase.Closed? <==> Streak(log, s) < config.threshold
    ensures Answer(Of(Run(config, log), s), config, now)
       <==> Streak(log, s) < config.threshold || Elapsed(config, log, s, now)
  {
    AnswerIsLog(config, log, s, now);
    StateIsLog(config, log, s);
  }

  // ---------------------------------------------------------------- independence

  predicate Concerns(op: Op, s: string) {
    match op
    case Query(x, _) => x == s
    case Success(x) => x == s
    case Failure(x, _, _) => x == s
    case Reset(_) => ResetsAll(op) || op.which == Some(s)
  }

  function Restrict(log: seq<Op>, s: string): seq<Op> {
    if log == [] then []
    else
      var op := log[|log| - 1];
      if Concerns(op, s) then Restrict(log[..|log| - 1], s) + [op] else Restrict(log[..|log| - 1], s)
  }

  /** Sources do not influence one another: a source's record depends only on the calls that concern it. */
  lemma {:induction false} Independent(config: Config, log: seq<Op>, s: string)
    ensures Of(Run(config, log), s) == Of(Run(config, Restrict(log, s)), s)
  {
    if log != [] {
      var front, op := log[..|log| - 1], log[|log| - 1];
      Independent(config, front, s);
      StepOf(Run(config, front), config, op, s);
      if Concerns(op, s) {
        var own := Restrict(front, s);
        assert (own + [op])[..|own|] == own;
        StepOf(Run(config, own), config, op, s);
      }
    }
  }

  // ---------------------------------------------------------------- the half-open limit

  function Queries(s: string, n: nat, now: int): seq<Op> {
    if n == 0 then [] else Queries(s, n - 1, now) + [Query(s, now)]
  }

  lemma {:induction false} OneMoreQuery(config: Config, log: seq<Op>, s: string, n: nat, now: int)
    ensures Of(Run(config, log + Queries(s, n + 1, now)), s) ==
              Queried(Of(Run(config, log + Queries(s, n, now)), s), config, now)
  {
    var before, all := log + Queries(s, n, now), log + Queries(s, n + 1, now);
    assert all == before + [Query(s, now)] && all[..|all| - 1] == before;
  }

  /** While half open, any number of queries is answered, whatever positive limit is set. */
  lemma {:induction false} HalfOpenLimitNeverBites(config: Config, log: seq<Op>, s: string, n: nat, now: int)
    requires config.halfOpenMax >= 1 && Tripped(config, log, s) && Elapsed(config, log, s, now)
    ensures var r := Of(Run(config, log + Queries(s, n, now)), s);
      && Answer(r, config, now) && !r.phase.Closed? && r.halfOpenCalls == 0
      && (n >= 1 ==> r.phase.HalfOpen?)
  {
    if n == 0 {
      assert log + Queries(s, 0, now) == log;
      StateIsLog(config, log, s);
    } else {
      hide Run, Queries, Tripped, Elapsed, Of;
      HalfOpenLimitNeverBites(config, log, s, n - 1, now);
      OneMoreQuery(config, log, s, n - 1, now);
    }
  }
}
