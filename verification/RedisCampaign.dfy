/**
 Campaign correlation over Redis: the lock protocol of `CampaignLock` around the evaluation of
 `Campaign`.
 */
module RedisCampaign {
  import opened Wrappers
  import opened CampaignLock
  import C = Campaign

  /** What one update does to the state it read. A call carries one id for each policy. */
  function Update(c: C.Config): (C.State, C.Call) -> (C.State, C.Outcome) {
    (st: C.State, call: C.Call) =>
      if |call.ids| == |c.policies| then C.Evaluated(st, c, call) else (st, C.OutcomeOf([]))
  }

  type Trace = CampaignLock.Run<C.State, C.Call, C.Outcome>

  /** Processes that share a store with this configuration; each call carries one id for each policy. */
  ghost predicate IsTrace(t: Trace, c: C.Config) {
    IsRun(t, Update(c), C.EMPTY_STATE) && forall i :: 0 <= i < |t.steps| && Stores(t, i) ==>
      C.Callable(c, t.steps[i].input)
  }

  /** The processes' clock readings never go back from one write to the next. */
  ghost predicate ClocksAgree(t: Trace)
    requires Shaped(t)
  {
    forall i, j :: 0 <= i < j < |t.steps| && Stores(t, i) && Stores(t, j) ==>
      t.steps[i].input.now <= t.steps[j].input.now
  }

  /** From `start` to `end` the log holds writes only, and the state key was absent before. */
  ghost predicate IsStretch(t: Trace, log: seq<nat>, start: nat, end: nat)
    requires Shaped(t) && Ordered(t, |t.steps|, log)
  {
    && start <= end <= |log| && (start > 0 ==> t.steps[log[start - 1]].Expire?)
    && forall p :: start <= p < end ==> Stores(t, log[p])
  }

  /** A run of the in-memory store from empty that makes the calls of the stretch: it gives them the
      outcomes their processes got, and ends in the state the history has then. */
  ghost predicate IsRunOf(run: C.Run, c: C.Config, t: Trace, log: seq<nat>, start: nat, end: nat)
    requires Shaped(t) && Ordered(t, |t.steps|, log) && IsStretch(t, log, start, end)
  {
    && C.IsRun(c, run) && |run.calls| == end - start && run.states[0] == C.EMPTY_STATE
    && run.states[end - start] == Value(Fold(t.steps, log[..end], Update(c), C.EMPTY_STATE), C.EMPTY_STATE)
    && forall i :: 0 <= i < end - start ==> Makes(run, t, log, start, i)
  }

  /** The i-th call of the run and its outcome are those of the log's entry start + i. */
  ghost predicate Makes(run: C.Run, t: Trace, log: seq<nat>, start: nat, i: nat)
    requires Shaped(t) && i < |run.calls| && i < |run.outcomes| && start + i < |log| && log[start + i] < |t.steps|
  {
    var step := t.steps[log[start + i]];
    && step.Store? && run.calls[i] == step.input && HasOutcome(t.worlds[|t.steps|], step.token)
    && run.outcomes[i] == t.worlds[|t.steps|].phases[step.token].outcome.value
  }

  lemma {:induction false} OneMoreCall(c: C.Config, before: C.Run, call: C.Call, state: C.State, outcome: C.Outcome)
    returns (run: C.Run)
    requires C.IsRun(c, before) && C.Callable(c, call)
    requires (state, outcome) == C.Evaluated(before.states[|before.calls|], c, call)
    ensures run == C.Run(before.calls + [call], before.states + [state], before.outcomes + [outcome]) && C.IsRun(c, run)
  {
    run := C.Run(before.calls + [call], before.states + [state], before.outcomes + [outcome]);
    forall i | 0 <= i < |run.calls| ensures C.Follows(c, run, i) {
      if i < |before.calls| { assert C.Follows(c, before, i); }
    }
  }

  ghost predicate IsHistory(t: Trace, c: C.Config, log: seq<nat>) {
    && IsTrace(t, c) && Ordered(t, |t.steps|, log)
    && forall p :: 0 <= p < |log| ==> IsSequential(t, log, p, Update(c), C.EMPTY_STATE)
  }

  lemma {:induction false} StretchGrows(before: C.Run, c: C.Config, t: Trace, log: seq<nat>, start: nat, p: nat)
    returns (run: C.Run)
    requires IsHistory(t, c, log) && IsStretch(t, log, start, p) && IsStretch(t, log, start, p + 1)
    requires IsRunOf(before, c, t, log, start, p)
    ensures IsRunOf(run, c, t, log, start, p + 1)
  {
    var step, token := t.steps[log[p]], t.steps[log[p]].token;
    assert log[..p + 1] == log[..p] + [log[p]];
    FoldOfMore(t.steps, log[..p], log[p], Update(c), C.EMPTY_STATE);
    assert IsSequential(t, log, p, Update(c), C.EMPTY_STATE) && Stores(t, log[p]);
    var state := Value(Fold(t.steps, log[..p + 1], Update(c), C.EMPTY_STATE), C.EMPTY_STATE);
    run := OneMoreCall(c, before, step.input, state, t.worlds[|t.steps|].phases[token].outcome.value);
    forall i | 0 <= i < p + 1 - start ensures Makes(run, t, log, start, i) {
      if i < p - start { assert Makes(before, t, log, start, i); }
    }
  }

  lemma {:induction false} StretchIsRun(c: C.Config, t: Trace, log: seq<nat>, start: nat, end: nat) returns (run: C.Run)
    requires IsHistory(t, c, log) && IsStretch(t, log, start, end)
    ensures IsRunOf(run, c, t, log, start, end)
    decreases end
  {
    if end == start {
      run := C.Run([], [C.EMPTY_STATE], []);
      if start > 0 { assert log[..start][start - 1] == log[start - 1]; }
    } else {
      run := StretchIsRun(c, t, log, start, end - 1);
      run := StretchGrows(run, c, t, log, start, end - 1);
    }
  }

  lemma {:induction false} StretchIsTimed(run: C.Run, c: C.Config, t: Trace, log: seq<nat>, start: nat, end: nat)
    requires Shaped(t) && Ordered(t, |t.steps|, log) && IsStretch(t, log, start, end)
    requires IsRunOf(run, c, t, log, start, end)
    requires ClocksAgree(t)
    ensures C.Timed(run)
  {
    forall i, j | 0 <= i < j < |run.calls| ensures run.calls[i].now <= run.calls[j].now {
      assert Makes(run, t, log, start, i) && Makes(run, t, log, start, j);
      assert Stores(t, log[start + i]) && Stores(t, log[start + j]);
    }
  }

  /** Processes that share campaigns over Redis and write before their leases end work as one
      in-memory store: in their serial history, of all writes and of the expiries of the state key that
      no update masked, each stretch without an expiry is a run of that store. */
  lemma {:induction false} RedisWorksAsMemory(c: C.Config, t: Trace) returns (log: seq<nat>)
    requires IsTrace(t, c) && AllInTime(t)
    ensures Ordered(t, |t.steps|, log) && forall i :: 0 <= i < |t.steps| && Stores(t, i) ==> i in log
    ensures forall j :: 0 <= j < |t.steps| && t.steps[j].Expire? ==> (j in log <==> !Masked(t, j, |t.steps|))
    ensures t.worlds[|t.steps|].stored == Fold(t.steps, log, Update(c), C.EMPTY_STATE)
    ensures forall start, end :: IsStretch(t, log, start, end) ==>
      exists run :: IsRunOf(run, c, t, log, start, end) && (ClocksAgree(t) ==> C.Timed(run))
  {
    log := UpdatesSerialise(t, Update(c), C.EMPTY_STATE);
    forall start: nat, end: nat | IsStretch(t, log, start, end)
      ensures exists run :: IsRunOf(run, c, t, log, start, end) && (ClocksAgree(t) ==> C.Timed(run))
    {
      var run := StretchIsRun(c, t, log, start, end);
      if ClocksAgree(t) { StretchIsTimed(run, c, t, log, start, end); }
    }
  }

  /** As long as the state key does not expire, they are a single run of one in-memory store: all
      writes, in their order, from empty to what the server holds. */
  lemma {:induction false} WithoutExpiryOneStore(c: C.Config, t: Trace) returns (log: seq<nat>, run: C.Run)
    requires IsTrace(t, c) && AllInTime(t) && forall j :: 0 <= j < |t.steps| ==> !t.steps[j].Expire?
    ensures Ordered(t, |t.steps|, log) && forall i :: 0 <= i < |t.steps| ==> (i in log <==> Stores(t, i))
    ensures IsStretch(t, log, 0, |log|) && IsRunOf(run, c, t, log, 0, |log|)
    ensures run.states[|log|] == Value(t.worlds[|t.steps|].stored, C.EMPTY_STATE)
    ensures ClocksAgree(t) ==> C.Timed(run)
  {
    log := UpdatesSerialise(t, Update(c), C.EMPTY_STATE);
    run := StretchIsRun(c, t, log, 0, |log|);
    if ClocksAgree(t) { StretchIsTimed(run, c, t, log, 0, |log|); }
    assert log[..|log|] == log;
  }

  // ----- one process, step by step -----

  /** The server, and one process using it without interruption. */
  class RedisCampaignStore {
    const config: C.Config
    var clock: nat
    var lock: Option<Lease>
    var stored: Option<C.State>

    constructor (config: C.Config)
      ensures this.config == config && lock == None && stored == None
    {
      this.config, clock, lock, stored := config, 0, None, None;
    }

    /** Tries for 99 pauses: fails exactly when another lease outlasts them. */
    method Acquire(token: string) returns (ok: bool)
      modifies this`lock, this`clock
      ensures ok <==> !Visible(old(lock), old(clock) + 99 * 20)
      ensures lock == if ok then Some(Lease(token, clock + 5000)) else old(lock)
      ensures ok ==> old(clock) <= clock < old(clock) + 2000 && (clock - old(clock)) % 20 == 0
      ensures ok ==> !Visible(old(lock), clock) && (clock > old(clock) ==> Visible(old(lock), clock - 20))
      ensures !ok ==> clock == old(clock) + 2000
    {
      var attempts := 0;
      while attempts < MAX_ATTEMPTS
        invariant attempts <= MAX_ATTEMPTS && lock == old(lock) && clock == old(clock) + attempts * PAUSE
        invariant attempts > 0 ==> Visible(lock, old(clock) + (attempts - 1) * PAUSE)
      {
        if !Visible(lock, clock) {
          lock := Some(Lease(token, clock + LEASE));
          return true;
        }
        clock := clock + PAUSE;
        attempts := attempts + 1;
      }
      return false;
    }

    /** Locked, read, evaluated, written and released without interruption, an update is one evaluation
        of the stored state; without the lock it changes nothing but the time. */
    method Evaluate(token: string, call: C.Call) returns (outcome: Option<C.Outcome>)
      requires C.Callable(config, call) && config.maxEvents > 0
      modifies this
      ensures outcome.None? <==> Visible(old(lock), old(clock) + 99 * 20)
      ensures outcome.None? ==> stored == old(stored) && lock == old(lock)
      ensures outcome.Some? ==> stored.Some? && lock == None
      ensures outcome.Some? ==>
        (Value(stored, C.EMPTY_STATE), outcome.value) == Update(config)(Value(old(stored), C.EMPTY_STATE), call)
    {
      var acquired := Acquire(token);
      if !acquired { return None; }
      var state := new C.MemoryCampaignStore();
      if stored.Some? { state.events, state.active := stored.value.events, stored.value.active; }
      var result := state.Evaluate(config, call);
      stored := Some(C.State(state.events, state.active));
      lock := Released(lock, clock, token);
      outcome := Some(result);
    }
  }
}
