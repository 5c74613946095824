/**
 The Redis campaign store of src/campaign/mod.rs and its lock of src/campaign/eval.rs: any number of
 processes that each lock, read, evaluate, write and release, in any interleaving. What an update does
 to the state is a parameter; times are milliseconds on the server's clock.
 */
module CampaignLock {
  import opened Wrappers

  const LEASE: nat := 5000
  const MAX_ATTEMPTS: nat := 100
  const PAUSE: nat := 20

  datatype Lease = Lease(token: string, expiresAt: nat)

  /** Where one update is: waiting for the lock, holding it, holding it with the state it read, done
      with the state (written, or given up with an error), or finished. `acquiredAt` and `loadedAt`
      are the numbers of the steps that did so. */
  datatype Phase<S, O> =
    | Waiting(attempts: nat)
    | Held(leaseEnd: nat, acquiredAt: nat)
    | Loaded(leaseEnd: nat, acquiredAt: nat, loadedAt: nat, state: S)
    | Spent(outcome: Option<O>)
    | Finished(outcome: Option<O>)

  /** The server and the updates under way, by token, after `step` steps. */
  datatype World<S, O> = World(
    step: nat, clock: nat, lock: Option<Lease>, stored: Option<S>, phases: map<string, Phase<S, O>>)

  /** The last two are the clock and the expiry of the state key. */
  datatype Step<R> =
    | Start(token: string)
    | TryAcquire(token: string)
    | Load(token: string)
    | Store(token: string, input: R)
    | Fail(token: string)
    | Release(token: string)
    | Tick(ms: nat)
    | Expire

  // ----- the protocol -----

  /** Does the server still hold the lease? */
  predicate Visible(lock: Option<Lease>, clock: nat) { lock.Some? && clock < lock.value.expiresAt }

  function Value<S>(stored: Option<S>, init: S): S { if stored.Some? then stored.value else init }

  predicate Holds<S, O>(p: Phase<S, O>) { p.Held? || p.Loaded? }

  /** SET NX PX, tried at most `MAX_ATTEMPTS` times. */
  function Acquired<S, O>(w: World<S, O>, token: string, attempts: nat): World<S, O> {
    if !Visible(w.lock, w.clock) then
      w.(lock := Some(Lease(token, w.clock + LEASE)), phases := w.phases[token := Held(w.clock + LEASE, w.step)])
    else w.(phases := w.phases[token := if attempts + 1 < MAX_ATTEMPTS then Waiting(attempts + 1) else Finished(None)])
  }

  /** Compare and delete. */
  function Released(lock: Option<Lease>, clock: nat, token: string): Option<Lease> {
    if Visible(lock, clock) && lock.value.token == token then None else lock
  }

  /** A step that the phase of its token does not allow changes nothing. */
  function Moved<S, R, O>(w: World<S, O>, step: Step<R>, f: (S, R) -> (S, O), init: S): World<S, O> {
    match step
    case Tick(ms) => w.(clock := w.clock + ms)
    case Expire => w.(stored := None)
    case Start(t) => if t in w.phases then w else w.(phases := w.phases[t := Waiting(0)])
    case TryAcquire(t) =>
      if t in w.phases && w.phases[t].Waiting? then Acquired(w, t, w.phases[t].attempts) else w
    case Load(t) =>
      if t in w.phases && w.phases[t].Held? then
        var p := w.phases[t];
        w.(phases := w.phases[t := Loaded(p.leaseEnd, p.acquiredAt, w.step, Value(w.stored, init))])
      else w
    case Store(t, input) =>
      if t in w.phases && w.phases[t].Loaded? then
        var (state, outcome) := f(w.phases[t].state, input);
        w.(stored := Some(state), phases := w.phases[t := Spent(Some(outcome))])
      else w
    case Fail(t) =>
      if t in w.phases && Holds(w.phases[t]) then w.(phases := w.phases[t := Spent(None)]) else w
    case Release(t) =>
      if t in w.phases && w.phases[t].Spent? then
        w.(lock := Released(w.lock, w.clock, t), phases := w.phases[t := Finished(w.phases[t].outcome)])
      else w
  }

  function Next<S, R, O>(w: World<S, O>, step: Step<R>, f: (S, R) -> (S, O), init: S): World<S, O> {
    Moved(w, step, f, init).(step := w.step + 1)
  }

  function Initial<S, O>(): World<S, O> { World(0, 0, None, None, map[]) }

  // ----- runs -----

  /** The steps of any number of updates, interleaved, and the worlds before and after each. */
  datatype Run<S, R, O> = Run(steps: seq<Step<R>>, worlds: seq<World<S, O>>)

  ghost predicate Follows<S, R, O(!new)>(r: Run<S, R, O>, i: nat, f: (S, R) -> (S, O), init: S)
    requires i < |r.steps| < |r.worlds|
  {
    r.worlds[i + 1] == Next(r.worlds[i], r.steps[i], f, init)
  }

  ghost predicate Shaped<S, R, O>(r: Run<S, R, O>) { |r.worlds| == |r.steps| + 1 }

  ghost predicate IsRun<S, R, O(!new)>(r: Run<S, R, O>, f: (S, R) -> (S, O), init: S) {
    Shaped(r) && r.worlds[0] == Initial() && forall i :: 0 <= i < |r.steps| ==> Follows(r, i, f, init)
  }

  // ----- an update gives up after a hundred refusals -----

  /** Does step `j` ask for the lease on behalf of `t`? */
  ghost predicate Asks<S, R, O>(r: Run<S, R, O>, t: string, j: nat)
    requires j < |r.steps| < |r.worlds|
  {
    r.steps[j] == TryAcquire(t) && t in r.worlds[j].phases && r.worlds[j].phases[t].Waiting?
  }

  /** How often, before step `i`, `t` asked while a lease was out (`refused`), or while none was. */
  ghost function Answers<S, R, O>(r: Run<S, R, O>, t: string, i: nat, refused: bool): nat
    requires i <= |r.steps| < |r.worlds|
  {
    if i == 0 then 0
    else
      var w := r.worlds[i - 1];
      Answers(r, t, i - 1, refused)
      + if Asks(r, t, i - 1) && refused == (w.lock.Some? && w.clock < w.lock.value.expiresAt) then 1 else 0
  }

  /** In every run an update takes the first lease it finds free, and has given up exactly if it found 100 taken. */
  lemma {:induction false} GivesUpAtHundred<S, R, O(!new)>(
      r: Run<S, R, O>, i: nat, t: string, f: (S, R) -> (S, O), init: S)
    requires IsRun(r, f, init) && i <= |r.steps|
    ensures t !in r.worlds[i].phases ==> Answers(r, t, i, true) == Answers(r, t, i, false) == 0
    ensures Answers(r, t, i, true) <= 100 && Answers(r, t, i, false) <= 1
    ensures Answers(r, t, i, true) < 100 || Answers(r, t, i, false) == 0
    ensures t in r.worlds[i].phases ==>
      && (r.worlds[i].phases[t].Waiting? <==> Answers(r, t, i, true) < 100 && Answers(r, t, i, false) == 0)
      && (r.worlds[i].phases[t].Waiting? ==> r.worlds[i].phases[t].attempts == Answers(r, t, i, true))
      && (r.worlds[i].phases[t] == Finished(None) && Answers(r, t, i, false) == 0 <==> Answers(r, t, i, true) == 100)
    decreases i
  {
    if i > 0 {
      GivesUpAtHundred(r, i - 1, t, f, init);
      assert Follows(r, i - 1, f, init);
    }
  }

  /** An update that failed under its lease never writes: all that is left to it is to release. */
  lemma {:induction false} FailedNeverWrites<S, R, O(!new)>(
      r: Run<S, R, O>, j: nat, i: nat, t: string, f: (S, R) -> (S, O), init: S)
    requires IsRun(r, f, init) && j < i <= |r.steps| && r.steps[j] == Fail(t)
    requires t in r.worlds[j].phases && (r.worlds[j].phases[t].Held? || r.worlds[j].phases[t].Loaded?)
    ensures t in r.worlds[i].phases
    ensures r.worlds[i].phases[t] == Spent(None) || r.worlds[i].phases[t] == Finished(None)
    decreases i
  {
    if j + 1 < i { FailedNeverWrites(r, j, i - 1, t, f, init); }
    assert Follows(r, i - 1, f, init);
  }

  /** In every run the lease out was granted to an update that is neither waiting nor over, and runs out five
      seconds after that update asked for it. */
  lemma {:induction false} OnlyLeasersHold<S, R, O(!new)>(
      r: Run<S, R, O>, i: nat, t: string, f: (S, R) -> (S, O), init: S)
    returns (asked: nat)
    requires IsRun(r, f, init) && i <= |r.steps|
    requires var w := r.worlds[i]; w.lock.Some? && w.lock.value.token == t && w.clock < w.lock.value.expiresAt
    ensures t in r.worlds[i].phases && !r.worlds[i].phases[t].Finished? && !r.worlds[i].phases[t].Waiting?
    ensures asked < i && Asks(r, t, asked) && r.worlds[i].lock.value.expiresAt == r.worlds[asked].clock + 5000
    decreases i
  {
    assert i > 0;
    assert Follows(r, i - 1, f, init);
    asked := i - 1;
    var w := r.worlds[asked];
    if w.lock.Some? && w.lock.value.token == t && w.clock < w.lock.value.expiresAt {
      asked := OnlyLeasersHold(r, asked, t, f, init);
    }
  }

  // ----- a lease ends by its own token or by time -----

  /** The update is inside its lease. */
  predicate IsLive<S, O>(w: World<S, O>, t: string) {
    t in w.phases && Holds(w.phases[t]) && w.clock < w.phases[t].leaseEnd
  }

  ghost predicate Locked<S, O>(w: World<S, O>) {
    forall t :: IsLive(w, t) ==> w.lock == Some(Lease(t, w.phases[t].leaseEnd))
  }

  lemma {:induction false} StepIsSafe<S, R, O>(w: World<S, O>, step: Step<R>, f: (S, R) -> (S, O), init: S)
    requires Locked(w)
    ensures Locked(Next(w, step, f, init))
    ensures w.lock.Some? && Next(w, step, f, init).lock != w.lock ==>
      w.lock.value.expiresAt <= w.clock || step == Release(w.lock.value.token)
  {
  }

  /** In every run, a lease stays until its own token releases it or its time is up, and updates
      inside their lease hold the lock: at most one at a time. */
  lemma {:induction false} LeaseIsSafe<S, R, O(!new)>(r: Run<S, R, O>, k: nat, f: (S, R) -> (S, O), init: S)
    requires IsRun(r, f, init) && k <= |r.steps|
    ensures Locked(r.worlds[k])
    ensures k < |r.steps| && r.worlds[k].lock.Some? && r.worlds[k + 1].lock != r.worlds[k].lock ==>
      r.worlds[k].lock.value.expiresAt <= r.worlds[k].clock || r.steps[k] == Release(r.worlds[k].lock.value.token)
    ensures forall t, u :: IsLive(r.worlds[k], t) && IsLive(r.worlds[k], u) ==> t == u
    decreases k
  {
    if k > 0 {
      LeaseIsSafe(r, k - 1, f, init);
      assert Follows(r, k - 1, f, init);
      StepIsSafe(r.worlds[k - 1], r.steps[k - 1], f, init);
    }
    if k < |r.steps| {
      assert Follows(r, k, f, init);
      StepIsSafe(r.worlds[k], r.steps[k], f, init);
    }
  }

  // ----- where an update comes from -----

  /** Step i writes the state. */
  ghost predicate Stores<S, R, O>(r: Run<S, R, O>, i: nat)
    requires Shaped(r) && i < |r.steps|
  {
    r.steps[i].Store? && r.steps[i].token in r.worlds[i].phases && r.worlds[i].phases[r.steps[i].token].Loaded?
  }

  ghost function WriterOf<S, R, O>(r: Run<S, R, O>, i: nat): Phase<S, O>
    requires Shaped(r) && i < |r.steps| && Stores(r, i)
  {
    r.worlds[i].phases[r.steps[i].token]
  }

  /** Step i acquires the lock for the token. */
  ghost predicate Acquires<S, R, O>(r: Run<S, R, O>, i: nat, t: string)
    requires Shaped(r) && i < |r.steps|
  {
    && r.steps[i] == TryAcquire(t) && t in r.worlds[i].phases && r.worlds[i].phases[t].Waiting?
    && !Visible(r.worlds[i].lock, r.worlds[i].clock)
  }

  /** An update that holds or held a lease acquired it at the numbered step and has held it since; what
      it has read, it read at the numbered step. */
  ghost predicate Sourced<S, R, O>(r: Run<S, R, O>, k: nat, t: string, init: S)
    requires Shaped(r) && k <= |r.steps| && t in r.worlds[k].phases && Holds(r.worlds[k].phases[t])
  {
    var p := r.worlds[k].phases[t];
    && p.acquiredAt < k && Acquires(r, p.acquiredAt, t) && p.leaseEnd == r.worlds[p.acquiredAt].clock + LEASE
    && (forall m :: p.acquiredAt < m <= k ==> SameLease(r, m, t, p.acquiredAt, p.leaseEnd))
    && (p.Loaded? ==>
         && p.acquiredAt < p.loadedAt < k && r.steps[p.loadedAt] == Load(t)
         && p.state == Value(r.worlds[p.loadedAt].stored, init))
  }

  ghost predicate SameLease<S, R, O>(r: Run<S, R, O>, m: nat, t: string, acquiredAt: nat, leaseEnd: nat)
    requires Shaped(r) && m <= |r.steps|
  {
    && t in r.worlds[m].phases && Holds(r.worlds[m].phases[t])
    && r.worlds[m].phases[t].acquiredAt == acquiredAt && r.worlds[m].phases[t].leaseEnd == leaseEnd
  }

  lemma {:induction false} StepsAreNumbered<S, R, O(!new)>(r: Run<S, R, O>, k: nat, f: (S, R) -> (S, O), init: S)
    requires IsRun(r, f, init) && k <= |r.steps|
    ensures r.worlds[k].step == k
    decreases k
  {
    if k > 0 {
      StepsAreNumbered(r, k - 1, f, init);
      assert Follows(r, k - 1, f, init);
    }
  }

  lemma {:induction false} HoldersAreSourced<S, R, O(!new)>(
    r: Run<S, R, O>, k: nat, t: string, f: (S, R) -> (S, O), init: S)
    requires IsRun(r, f, init) && k <= |r.steps| && t in r.worlds[k].phases && Holds(r.worlds[k].phases[t])
    ensures Sourced(r, k, t, init)
    decreases k
  {
    if k > 0 {
      assert Follows(r, k - 1, f, init);
      StepsAreNumbered(r, k - 1, f, init);
      if t in r.worlds[k - 1].phases && Holds(r.worlds[k - 1].phases[t]) {
        HoldersAreSourced(r, k - 1, t, f, init);
      }
    }
  }

  lemma {:induction false} ClockGrows<S, R, O(!new)>(r: Run<S, R, O>, i: nat, j: nat, f: (S, R) -> (S, O), init: S)
    requires IsRun(r, f, init) && i <= j <= |r.steps|
    ensures r.worlds[i].clock <= r.worlds[j].clock
    decreases j
  {
    if i < j {
      ClockGrows(r, i, j - 1, f, init);
      assert Follows(r, j - 1, f, init);
    }
  }

  // ----- the history that stands -----

  /** Every write comes after the read it builds on. */
  ghost predicate Numbered<S, R, O>(r: Run<S, R, O>) {
    Shaped(r) && forall i :: 0 <= i < |r.steps| && Stores(r, i) ==> WriterOf(r, i).loadedAt < i
  }

  lemma {:induction false} RunsAreNumbered<S, R, O(!new)>(r: Run<S, R, O>, f: (S, R) -> (S, O), init: S)
    requires IsRun(r, f, init)
    ensures Numbered(r)
  {
    forall i | 0 <= i < |r.steps| && Stores(r, i) ensures WriterOf(r, i).loadedAt < i {
      HoldersAreSourced(r, i, r.steps[i].token, f, init);
    }
  }

  /** The writes and expiries, by step number, that the state after k steps shows. A write builds on the
      state its update read, so it puts itself behind what stood then. */
  ghost function Standing<S, R, O>(r: Run<S, R, O>, k: nat): seq<nat>
    requires Numbered(r) && k <= |r.steps|
    decreases k
  {
    if k == 0 then []
    else if Stores(r, k - 1) then Standing(r, WriterOf(r, k - 1).loadedAt) + [k - 1]
    else if r.steps[k - 1].Expire? then Standing(r, k - 1) + [k - 1]
    else Standing(r, k - 1)
  }

  /** Increasing numbers of steps before k that write, or expire the state key. */
  ghost predicate Ordered<S, R, O>(r: Run<S, R, O>, k: nat, log: seq<nat>)
    requires Shaped(r) && k <= |r.steps|
  {
    && (forall p :: 0 <= p < |log| ==> log[p] < k && (Stores(r, log[p]) || r.steps[log[p]].Expire?))
    && forall p, q :: 0 <= p < q < |log| ==> log[p] < log[q]
  }

  lemma {:induction false} StandingIsOrdered<S, R, O>(r: Run<S, R, O>, k: nat)
    requires Numbered(r) && k <= |r.steps|
    ensures Ordered(r, k, Standing(r, k))
    decreases k
  {
    if k > 0 {
      if Stores(r, k - 1) {
        StandingIsOrdered(r, WriterOf(r, k - 1).loadedAt);
      } else {
        StandingIsOrdered(r, k - 1);
      }
    }
  }

  /** What stood when an entry was made still stands before it. */
  lemma {:induction false} StandingPrefix<S, R, O>(r: Run<S, R, O>, k: nat, p: nat)
    requires Numbered(r) && k <= |r.steps| && p < |Standing(r, k)|
    ensures Standing(r, k)[p] < k && Standing(r, k)[..p + 1] == Standing(r, Standing(r, k)[p] + 1)
    decreases k
  {
    var log := Standing(r, k);
    var before := if Stores(r, k - 1) then WriterOf(r, k - 1).loadedAt else k - 1;
    if p < |Standing(r, before)| {
      StandingPrefix(r, before, p);
      assert log[..p + 1] == Standing(r, before)[..p + 1];
    } else {
      assert log[..p + 1] == log;
    }
  }

  /** The stored state that the logged steps give one after the other, each write on what the last left. */
  ghost function Fold<S, R, O>(steps: seq<Step<R>>, log: seq<nat>, f: (S, R) -> (S, O), init: S): Option<S>
    requires forall p :: 0 <= p < |log| ==> log[p] < |steps|
    decreases |log|
  {
    if log == [] then None
    else
      var step := steps[log[|log| - 1]];
      if step.Store? then Some(f(Value(Fold(steps, log[..|log| - 1], f, init), init), step.input).0) else None
  }

  lemma {:induction false} FoldOfMore<S, R, O>(steps: seq<Step<R>>, log: seq<nat>, i: nat, f: (S, R) -> (S, O), init: S)
    requires i < |steps| && forall p :: 0 <= p < |log| ==> log[p] < |steps|
    ensures Fold(steps, log + [i], f, init)
         == if steps[i].Store? then Some(f(Value(Fold(steps, log, f, init), init), steps[i].input).0) else None
  {
    assert (log + [i])[..|log|] == log;
  }

  /** In every run, whatever the leases, the server's state is that of the history that stands. */
  lemma {:induction false} StateIsFold<S, R, O(!new)>(r: Run<S, R, O>, k: nat, f: (S, R) -> (S, O), init: S)
    returns (log: seq<nat>)
    requires IsRun(r, f, init) && Numbered(r) && k <= |r.steps|
    ensures log == Standing(r, k) && Ordered(r, k, log) && r.worlds[k].stored == Fold(r.steps, log, f, init)
    decreases k
  {
    StandingIsOrdered(r, k);
    log := Standing(r, k);
    if k > 0 {
      assert Follows(r, k - 1, f, init);
      var before;
      if Stores(r, k - 1) {
        HoldersAreSourced(r, k - 1, r.steps[k - 1].token, f, init);
        before := StateIsFold(r, WriterOf(r, k - 1).loadedAt, f, init);
        FoldOfMore(r.steps, before, k - 1, f, init);
      } else {
        before := StateIsFold(r, k - 1, f, init);
        if r.steps[k - 1].Expire? { FoldOfMore(r.steps, before, k - 1, f, init); }
      }
    }
  }

  /** The update that writes in step i has, from then on, the outcome it would have on what stood when
      it read, which is what stands before its write. */
  lemma {:induction false} OutcomeIsSequential<S, R, O(!new)>(
    r: Run<S, R, O>, i: nat, k: nat, f: (S, R) -> (S, O), init: S)
    returns (log: seq<nat>)
    requires IsRun(r, f, init) && Numbered(r) && i < k <= |r.steps| && Stores(r, i)
    ensures log == Standing(r, WriterOf(r, i).loadedAt) && Ordered(r, i, log)
    ensures HasOutcome(r.worlds[k], r.steps[i].token)
    ensures r.worlds[k].phases[r.steps[i].token].outcome.value
         == f(Value(Fold(r.steps, log, f, init), init), r.steps[i].input).1
  {
    HoldersAreSourced(r, i, r.steps[i].token, f, init);
    log := StateIsFold(r, WriterOf(r, i).loadedAt, f, init);
    OutcomeStays(r, i, k, f, init);
  }

  lemma {:induction false} OutcomeStays<S, R, O(!new)>(r: Run<S, R, O>, i: nat, k: nat, f: (S, R) -> (S, O), init: S)
    requires IsRun(r, f, init) && i < k <= |r.steps| && Stores(r, i)
    ensures HasOutcome(r.worlds[k], r.steps[i].token)
    ensures r.worlds[k].phases[r.steps[i].token].outcome.value == f(WriterOf(r, i).state, r.steps[i].input).1
    decreases k
  {
    assert Follows(r, k - 1, f, init);
    if k > i + 1 { OutcomeStays(r, i, k - 1, f, init); }
  }

  ghost predicate HasOutcome<S, O>(w: World<S, O>, token: string) {
    token in w.phases && (w.phases[token].Spent? || w.phases[token].Finished?) && w.phases[token].outcome.Some?
  }

  lemma {:induction false} OutcomesAreWritten<S, R, O(!new)>(
    r: Run<S, R, O>, k: nat, t: string, f: (S, R) -> (S, O), init: S)
    returns (i: nat)
    requires IsRun(r, f, init) && k <= |r.steps| && HasOutcome(r.worlds[k], t)
    ensures i < k && Stores(r, i) && r.steps[i].token == t
    decreases k
  {
    assert k > 0 && Follows(r, k - 1, f, init);
    if HasOutcome(r.worlds[k - 1], t) { i := OutcomesAreWritten(r, k - 1, t, f, init); } else { i := k - 1; }
  }

  // ----- what a write undoes -----

  /** No other update has written since this one read. */
  ghost predicate Undisturbed<S, R, O>(r: Run<S, R, O>, i: nat)
    requires Shaped(r) && i < |r.steps| && Stores(r, i)
  {
    forall j :: WriterOf(r, i).loadedAt <= j < i ==> !Stores(r, j)
  }

  ghost predicate AllUndisturbed<S, R, O>(r: Run<S, R, O>, k: nat)
    requires Shaped(r) && k <= |r.steps|
  {
    forall i :: 0 <= i < k && Stores(r, i) ==> Undisturbed(r, i)
  }

  ghost predicate AllStand<S, R, O>(r: Run<S, R, O>, k: nat)
    requires Numbered(r) && k <= |r.steps|
  {
    forall i :: 0 <= i < k && Stores(r, i) ==> i in Standing(r, k)
  }

  /** While nothing is written, expiries are all that is added. */
  lemma {:induction false} QuietStretch<S, R, O>(r: Run<S, R, O>, a: nat, b: nat)
    requires Numbered(r) && a <= b <= |r.steps| && forall j :: a <= j < b ==> !Stores(r, j)
    ensures Standing(r, a) <= Standing(r, b)
    ensures forall i :: i in Standing(r, b) && i !in Standing(r, a) ==> i < |r.steps| && r.steps[i].Expire?
    decreases b
  {
    if a < b { QuietStretch(r, a, b - 1); }
  }

  lemma {:induction false} LastWrite<S, R, O>(r: Run<S, R, O>, a: nat, b: nat) returns (m: nat)
    requires Shaped(r) && a <= b <= |r.steps| && exists j :: a <= j < b && Stores(r, j)
    ensures a <= m < b && Stores(r, m) && forall j :: m < j < b ==> !Stores(r, j)
    decreases b
  {
    m := b - 1;
    if !Stores(r, m) { m := LastWrite(r, a, m); }
  }

  /** For every run: a write puts the history back to what its update read, with itself behind it.
      Everything made since that read is undone; no other update's write is, exactly when there was
      none since the read. */
  lemma {:induction false} WriteRestoresItsRead<S, R, O>(r: Run<S, R, O>, k: nat)
    requires Numbered(r) && k < |r.steps| && Stores(r, k)
    ensures Standing(r, k + 1) == Standing(r, WriterOf(r, k).loadedAt) + [k]
    ensures forall i :: i in Standing(r, k) && WriterOf(r, k).loadedAt <= i ==> i !in Standing(r, k + 1)
    ensures (forall i :: 0 <= i < k && Stores(r, i) && i in Standing(r, k) ==> i in Standing(r, k + 1)) <==>
      Undisturbed(r, k)
  {
    var at := WriterOf(r, k).loadedAt;
    StandingIsOrdered(r, at);
    StandingIsOrdered(r, k);
    if Undisturbed(r, k) {
      QuietStretch(r, at, k);
      forall i | 0 <= i < k && Stores(r, i) && i in Standing(r, k)
        ensures i in Standing(r, k + 1)
      {
        assert !r.steps[i].Expire?;
      }
    } else {
      var m := LastWrite(r, at, k);
      QuietStretch(r, m + 1, k);
      assert Standing(r, m + 1)[|Standing(r, m + 1)| - 1] == m;
      assert m in Standing(r, k) && m !in Standing(r, k + 1);
    }
  }

  lemma {:induction false} OneMoreUndisturbed<S, R, O>(r: Run<S, R, O>, last: nat, at: nat)
    requires Numbered(r) && last < |r.steps| && Stores(r, last) && at == WriterOf(r, last).loadedAt
    ensures at <= last
    ensures AllUndisturbed(r, last + 1) <==> AllUndisturbed(r, at) && Undisturbed(r, last)
  {
    if Undisturbed(r, last) {
      assert forall i :: at <= i < last ==> !Stores(r, i);
    } else {
      assert !AllUndisturbed(r, last + 1);
    }
  }

  lemma {:induction false} OneMoreStands<S, R, O>(r: Run<S, R, O>, last: nat, at: nat, earlier: seq<nat>)
    requires Numbered(r) && last < |r.steps| && Stores(r, last) && at == WriterOf(r, last).loadedAt <= last
    requires earlier == Standing(r, at) && Ordered(r, at, earlier)
    ensures AllStand(r, last + 1) <==> AllStand(r, at) && Undisturbed(r, last)
  {
    assert Standing(r, last + 1) == earlier + [last];
    if j :| at <= j < last && Stores(r, j) {
      assert j !in earlier && j !in earlier + [last];
      assert !AllStand(r, last + 1);
    } else {
      assert forall i :: at <= i < last ==> !Stores(r, i);
      assert forall i :: i < at && i in earlier + [last] ==> i in earlier;
    }
  }

  lemma {:induction false} WriteDecides<S, R, O>(r: Run<S, R, O>, last: nat) returns (at: nat)
    requires Numbered(r) && last < |r.steps| && Stores(r, last)
    ensures at == WriterOf(r, last).loadedAt <= last
    ensures AllUndisturbed(r, last + 1) <==> AllUndisturbed(r, at) && Undisturbed(r, last)
    ensures AllStand(r, last + 1) <==> AllStand(r, at) && Undisturbed(r, last)
  {
    at := WriterOf(r, last).loadedAt;
    OneMoreUndisturbed(r, last, at);
    StandingIsOrdered(r, at);
    OneMoreStands(r, last, at, Standing(r, at));
  }

  lemma {:induction false} QuietStepDecides<S, R, O>(r: Run<S, R, O>, last: nat)
    requires Numbered(r) && last < |r.steps| && !Stores(r, last)
    ensures AllUndisturbed(r, last + 1) <==> AllUndisturbed(r, last)
    ensures AllStand(r, last + 1) <==> AllStand(r, last)
  {
  }

  /** For every run: all writes stand exactly when each was undisturbed. */
  lemma {:induction false} NothingIsLostIfUndisturbed<S, R, O>(r: Run<S, R, O>, k: nat)
    requires Numbered(r) && k <= |r.steps|
    ensures AllStand(r, k) <==> AllUndisturbed(r, k)
    decreases k
  {
    if k > 0 {
      var last: nat := k - 1;
      if Stores(r, last) {
        var at := WriteDecides(r, last);
        NothingIsLostIfUndisturbed(r, at);
      } else {
        QuietStepDecides(r, last);
        NothingIsLostIfUndisturbed(r, last);
      }
    }
  }

  /** Up to the first loss, a write undoes exactly the writes made since its own read; after it, see
      `RevivedWriteIsUndone`. */
  lemma {:induction false} FirstLoss<S, R, O>(r: Run<S, R, O>, k: nat, i: nat)
    requires Numbered(r) && k < |r.steps| && Stores(r, k) && AllUndisturbed(r, k) && i < k && Stores(r, i)
    ensures i in Standing(r, k) && (i !in Standing(r, k + 1) <==> WriterOf(r, k).loadedAt <= i)
  {
    NothingIsLostIfUndisturbed(r, k);
    NothingIsLostIfUndisturbed(r, WriterOf(r, k).loadedAt);
    StandingIsOrdered(r, WriterOf(r, k).loadedAt);
  }

  /** Some update read before step j and wrote after it, before step k. */
  ghost predicate Masked<S, R, O>(r: Run<S, R, O>, j: nat, k: nat)
    requires Shaped(r) && k <= |r.steps|
  {
    exists m :: j < m < k && Masks(r, j, m)
  }

  ghost predicate Masks<S, R, O>(r: Run<S, R, O>, j: nat, m: nat)
    requires Shaped(r) && m < |r.steps|
  {
    Stores(r, m) && WriterOf(r, m).loadedAt <= j
  }

  lemma {:induction false} MaskedByLast<S, R, O>(r: Run<S, R, O>, j: nat, k: nat)
    requires Shaped(r) && j < k < |r.steps|
    ensures Masked(r, j, k + 1) <==> Masked(r, j, k) || Masks(r, j, k)
  {
  }

  /** If all writes are undisturbed, an expiry stands exactly when no update read before it and wrote
      after it. */
  lemma {:induction false} ExpiriesStand<S, R, O>(r: Run<S, R, O>, k: nat, j: nat)
    requires Numbered(r) && k <= |r.steps| && AllUndisturbed(r, k) && j < k && r.steps[j].Expire?
    ensures j in Standing(r, k) <==> !Masked(r, j, k)
    decreases k
  {
    var last: nat := k - 1;
    if Stores(r, last) {
      var at := WriterOf(r, last).loadedAt;
      StandingIsOrdered(r, at);
      if j < at {
        ExpiriesStand(r, at, j);
        NotMaskedLater(r, j, at, last);
      }
      MaskedByLast(r, j, last);
    } else if j < last {
      ExpiriesStand(r, last, j);
      MaskedByLast(r, j, last);
    }
  }

  lemma {:induction false} NotMaskedLater<S, R, O>(r: Run<S, R, O>, j: nat, at: nat, k: nat)
    requires Shaped(r) && j < at <= k <= |r.steps| && forall m :: at <= m < k ==> !Stores(r, m)
    ensures Masked(r, j, k) <==> Masked(r, j, at)
    decreases k
  {
    if at < k {
      NotMaskedLater(r, j, at, k - 1);
      MaskedByLast(r, j, k - 1);
    }
  }

  // ----- writes inside their leases -----

  /** Every write reaches the server before its lease ends. */
  ghost predicate AllInTime<S, R, O>(r: Run<S, R, O>) {
    Shaped(r) && forall i :: 0 <= i < |r.steps| && Stores(r, i) ==> InTime(r, i)
  }

  ghost predicate InTime<S, R, O>(r: Run<S, R, O>, i: nat)
    requires Shaped(r) && i < |r.steps| && Stores(r, i)
  {
    r.worlds[i].clock < WriterOf(r, i).leaseEnd
  }

  /** While an update that will write in time holds its lease, no other acquires the lock. */
  lemma {:induction false} NoneAcquires<S, R, O(!new)>(
    r: Run<S, R, O>, i: nat, m: nat, t: string, f: (S, R) -> (S, O), init: S)
    requires IsRun(r, f, init) && i < |r.steps| && Stores(r, i) && InTime(r, i) && WriterOf(r, i).acquiredAt < m <= i
    ensures !Acquires(r, m, t)
  {
    var u, p := r.steps[i].token, WriterOf(r, i);
    HoldersAreSourced(r, i, u, f, init);
    assert SameLease(r, m, u, p.acquiredAt, p.leaseEnd);
    ClockGrows(r, m, i, f, init);
    LeaseIsSafe(r, m, f, init);
    assert IsLive(r.worlds[m], u);
  }

  /** Of two writes in time, the later one's update acquired the lock after the earlier write. */
  lemma {:induction false} TurnsDoNotOverlap<S, R, O(!new)>(
    r: Run<S, R, O>, i: nat, j: nat, f: (S, R) -> (S, O), init: S)
    requires IsRun(r, f, init) && i < j < |r.steps| && Stores(r, i) && Stores(r, j) && InTime(r, i) && InTime(r, j)
    ensures i < WriterOf(r, j).acquiredAt < WriterOf(r, j).loadedAt
  {
    var u, v, b, a := r.steps[i].token, r.steps[j].token, WriterOf(r, i).acquiredAt, WriterOf(r, j).acquiredAt;
    HoldersAreSourced(r, i, u, f, init);
    HoldersAreSourced(r, j, v, f, init);
    if a <= i {
      assert SameLease(r, i + 1, v, a, WriterOf(r, j).leaseEnd);
      assert Follows(r, i, f, init);
      assert u != v;
      if b < a { NoneAcquires(r, i, a, v, f, init); } else { NoneAcquires(r, j, b, u, f, init); }
    }
  }

  lemma {:induction false} InTimeIsUndisturbed<S, R, O(!new)>(r: Run<S, R, O>, f: (S, R) -> (S, O), init: S)
    requires IsRun(r, f, init) && AllInTime(r)
    ensures AllUndisturbed(r, |r.steps|)
  {
    forall i, j | 0 <= i < |r.steps| && Stores(r, i) && 0 <= WriterOf(r, i).loadedAt <= j < i ensures !Stores(r, j) {
      if Stores(r, j) { TurnsDoNotOverlap(r, j, i, f, init); }
    }
  }

  /** The p-th entry, if it is a write, has the outcome it would have after the entries before it. */
  ghost predicate IsSequential<S, R, O(!new)>(r: Run<S, R, O>, log: seq<nat>, p: nat, f: (S, R) -> (S, O), init: S)
    requires Shaped(r) && Ordered(r, |r.steps|, log) && p < |log|
  {
    var step := r.steps[log[p]];
    step.Store? ==>
      && HasOutcome(r.worlds[|r.steps|], step.token)
      && r.worlds[|r.steps|].phases[step.token].outcome.value
        == f(Value(Fold(r.steps, log[..p], f, init), init), step.input).1
  }

  /** For every run: what stands gives the server its state, and each standing write its outcome. */
  lemma {:induction false} StandingIsSequential<S, R, O(!new)>(
    r: Run<S, R, O>, f: (S, R) -> (S, O), init: S) returns (log: seq<nat>)
    requires IsRun(r, f, init)
    ensures Numbered(r) && log == Standing(r, |r.steps|) && Ordered(r, |r.steps|, log)
    ensures r.worlds[|r.steps|].stored == Fold(r.steps, log, f, init)
    ensures forall p :: 0 <= p < |log| ==> IsSequential(r, log, p, f, init)
  {
    RunsAreNumbered(r, f, init);
    log := StateIsFold(r, |r.steps|, f, init);
    forall p | 0 <= p < |log| ensures IsSequential(r, log, p, f, init) {
      if r.steps[log[p]].Store? {
        StandingPrefix(r, |r.steps|, p);
        var before := OutcomeIsSequential(r, log[p], |r.steps|, f, init);
        assert log[..p] == log[..p + 1][..p] == before;
      }
    }
  }

  /** Concurrent updates serialise. If every write happens before its lease ends, then for every
      interleaving of any number of updates there is a serial history, in the order of the steps, of
      all writes, and of all expiries of the state key but those an update read before and wrote after.
      It gives the server its state and every update its outcome, and each update in it acquired the
      lock after the one before had written. */
  lemma {:induction false} UpdatesSerialise<S, R, O(!new)>(
    r: Run<S, R, O>, f: (S, R) -> (S, O), init: S) returns (log: seq<nat>)
    requires IsRun(r, f, init) && AllInTime(r)
    ensures Ordered(r, |r.steps|, log) && forall i :: 0 <= i < |r.steps| && Stores(r, i) ==> i in log
    ensures forall j :: 0 <= j < |r.steps| && r.steps[j].Expire? ==> (j in log <==> !Masked(r, j, |r.steps|))
    ensures r.worlds[|r.steps|].stored == Fold(r.steps, log, f, init)
    ensures forall p :: 0 <= p < |log| ==> IsSequential(r, log, p, f, init)
    ensures forall p, q :: 0 <= p < q < |log| && Stores(r, log[p]) && Stores(r, log[q]) ==>
      log[p] < WriterOf(r, log[q]).acquiredAt
    ensures forall t :: HasOutcome(r.worlds[|r.steps|], t) ==>
      exists i :: 0 <= i < |r.steps| && Stores(r, i) && r.steps[i].token == t
  {
    log := StandingIsSequential(r, f, init);
    InTimeIsUndisturbed(r, f, init);
    NothingIsLostIfUndisturbed(r, |r.steps|);
    forall j | 0 <= j < |r.steps| && r.steps[j].Expire?
      ensures j in log <==> !Masked(r, j, |r.steps|)
    {
      ExpiriesStand(r, |r.steps|, j);
    }
    forall p, q | 0 <= p < q < |log| && Stores(r, log[p]) && Stores(r, log[q])
      ensures log[p] < WriterOf(r, log[q]).acquiredAt
    {
      TurnsDoNotOverlap(r, log[p], log[q], f, init);
    }
    forall t | HasOutcome(r.worlds[|r.steps|], t)
      ensures exists i :: 0 <= i < |r.steps| && Stores(r, i) && r.steps[i].token == t
    {
      var i := OutcomesAreWritten(r, |r.steps|, t, f, init);
    }
  }

  // ----- what goes wrong after the end of a lease -----

  /** One update reads and waits out its lease while another runs to its end. */
  function LateStart<R>(late: string, other: string, second: R): seq<Step<R>> {
    [Start(late), TryAcquire(late), Load(late), Tick(LEASE),
     Start(other), TryAcquire(other), Load(other), Store(other, second), Release(other)]
  }

  function LateSteps<R>(late: string, other: string, first: R, second: R): seq<Step<R>> {
    LateStart(late, other, second) + [Store(late, first), Release(late)]
  }

  lemma {:induction false} LateRead<S, R, O(!new)>(
    r: Run<S, R, O>, late: string, other: string, second: R, f: (S, R) -> (S, O), init: S)
    requires late != other && IsRun(r, f, init) && LateStart(late, other, second) <= r.steps
    ensures r.worlds[4] == World(4, LEASE, Some(Lease(late, LEASE)), None, map[late := Loaded(LEASE, 1, 2, init)])
  {
    assert Follows(r, 0, f, init) && Follows(r, 1, f, init) && Follows(r, 2, f, init) && Follows(r, 3, f, init);
    assert r.worlds[1].phases == map[late := Waiting(0)];
    assert r.worlds[2].phases == map[late := Held(LEASE, 1)];
    assert r.worlds[3].phases == map[late := Loaded(LEASE, 1, 2, init)];
  }

  lemma {:induction false} OtherFinishes<S, R, O(!new)>(
    r: Run<S, R, O>, late: string, other: string, second: R, f: (S, R) -> (S, O), init: S)
    requires late != other && IsRun(r, f, init) && LateStart(late, other, second) <= r.steps
    ensures Stores(r, 7) && WriterOf(r, 7).loadedAt == 6
    ensures r.worlds[9] == World(9, LEASE, None, Some(f(init, second).0),
      map[late := Loaded(LEASE, 1, 2, init), other := Finished(Some(f(init, second).1))])
  {
    LateRead(r, late, other, second, f, init);
    var waiting: Phase<S, O> := Loaded(LEASE, 1, 2, init);
    assert Follows(r, 4, f, init) && Follows(r, 5, f, init) && Follows(r, 6, f, init) && Follows(r, 7, f, init)
      && Follows(r, 8, f, init);
    assert r.worlds[5].phases == map[late := waiting, other := Waiting(0)];
    assert r.worlds[6].phases == map[late := waiting, other := Held(2 * LEASE, 5)];
    assert r.worlds[7].phases == map[late := waiting, other := Loaded(2 * LEASE, 5, 6, init)];
    assert r.worlds[8].phases == map[late := waiting, other := Spent(Some(f(init, second).1))];
  }

  /** A run in which a write after its lease is disturbed and undoes a finished update: both end with
      the outcome they would have alone, and the state shows only the late one. */
  lemma {:induction false} LateStoreLosesUpdate<S, R, O(!new)>(
    r: Run<S, R, O>, late: string, other: string, first: R, second: R, f: (S, R) -> (S, O), init: S)
    requires late != other && IsRun(r, f, init) && r.steps == LateSteps(late, other, first, second)
    ensures Stores(r, 9) && !InTime(r, 9) && !Undisturbed(r, 9)
    ensures r.worlds[11].stored == Some(f(init, first).0)
    ensures r.worlds[11].phases
         == map[late := Finished(Some(f(init, first).1)), other := Finished(Some(f(init, second).1))]
  {
    OtherFinishes(r, late, other, second, f, init);
    assert Follows(r, 9, f, init) && Follows(r, 10, f, init);
  }

  /** A third update reads what the other wrote and is late as well. The first late write undoes the
      other's write, the third update's brings it back, and a fourth's, which read in between, undoes
      it again. */
  function RevivingSteps<R>(late: string, other: string, third: string, fourth: string, input: R): seq<Step<R>> {
    LateStart(late, other, input)
    + [Start(third), TryAcquire(third), Load(third), Tick(LEASE), Store(late, input),
       Start(fourth), TryAcquire(fourth), Load(fourth), Store(third, input), Store(fourth, input)]
  }

  lemma {:induction false} ThirdReads<S, R, O(!new)>(
    r: Run<S, R, O>, late: string, other: string, third: string, fourth: string, input: R, f: (S, R) -> (S, O), init: S)
    requires |{late, other, third, fourth}| == 4 && IsRun(r, f, init)
    requires r.steps == RevivingSteps(late, other, third, fourth, input)
    ensures Stores(r, 13) && WriterOf(r, 13).loadedAt == 2
    ensures r.worlds[14].clock == 2 * LEASE && r.worlds[14].lock == Some(Lease(third, 2 * LEASE))
    ensures fourth !in r.worlds[14].phases && third in r.worlds[14].phases
    ensures r.worlds[14].phases[third].Loaded? && r.worlds[14].phases[third].loadedAt == 11
  {
    assert late != other && late != third && other != third && fourth !in {late, other, third};
    OtherFinishes(r, late, other, input, f, init);
    StepsAreNumbered(r, 11, f, init);
    assert Follows(r, 9, f, init) && Follows(r, 10, f, init) && Follows(r, 11, f, init);
    assert third in r.worlds[12].phases && r.worlds[12].phases[third].Loaded?
      && r.worlds[12].phases[third].loadedAt == 11;
    assert Follows(r, 12, f, init) && Follows(r, 13, f, init);
  }

  lemma {:induction false} FourthReads<S, R, O(!new)>(
    r: Run<S, R, O>, late: string, other: string, third: string, fourth: string, input: R, f: (S, R) -> (S, O), init: S)
    requires |{late, other, third, fourth}| == 4 && IsRun(r, f, init)
    requires r.steps == RevivingSteps(late, other, third, fourth, input)
    ensures Stores(r, 17) && WriterOf(r, 17).loadedAt == 11 && Stores(r, 18) && WriterOf(r, 18).loadedAt == 16
  {
    assert third != fourth;
    ThirdReads(r, late, other, third, fourth, input, f, init);
    StepsAreNumbered(r, 16, f, init);
    assert Follows(r, 14, f, init) && Follows(r, 15, f, init) && Follows(r, 16, f, init) && Follows(r, 17, f, init);
    assert fourth in r.worlds[17].phases && r.worlds[17].phases[fourth].Loaded?
      && r.worlds[17].phases[fourth].loadedAt == 16;
  }

  /** Past the first loss a write can undo more than was written since its own read: the last write of
      this run read in step 16 and undoes the write of step 7. */
  lemma {:induction false} RevivedWriteIsUndone<S, R, O(!new)>(
    r: Run<S, R, O>, late: string, other: string, third: string, fourth: string, input: R, f: (S, R) -> (S, O), init: S)
    requires |{late, other, third, fourth}| == 4 && IsRun(r, f, init)
    requires r.steps == RevivingSteps(late, other, third, fourth, input)
    ensures Numbered(r) && Stores(r, 7) && Stores(r, 18) && 7 < WriterOf(r, 18).loadedAt
    ensures 7 in Standing(r, 18) && 7 !in Standing(r, 19)
  {
    RunsAreNumbered(r, f, init);
    assert late != other;
    OtherFinishes(r, late, other, input, f, init);
    ThirdReads(r, late, other, third, fourth, input, f, init);
    FourthReads(r, late, other, third, fourth, input, f, init);
    QuietStretch(r, 0, 2);
    QuietStretch(r, 0, 6);
    QuietStretch(r, 8, 11);
    QuietStretch(r, 14, 16);
    assert Standing(r, 2) == [] && 7 in Standing(r, 8) && 7 in Standing(r, 11);
    assert Standing(r, 14) == Standing(r, 2) + [13];
    assert 7 !in Standing(r, 14) && r.steps[7].Store?;
    assert 7 !in Standing(r, 16);
    assert Standing(r, 18) == Standing(r, 11) + [17] && Standing(r, 19) == Standing(r, 16) + [18];
  }
}
