/**
 Token buckets of src/rate_limit.rs: the in-memory store and the Redis script.
 Token amounts and times are exact reals; the memory store counts seconds, the
 script counts milliseconds.
 */
module RateLimit {
  import opened Wrappers
  import opened RealArithmetic
  import opened TokenBucket

  const U32_MAX: nat := 0xFFFF_FFFF
  type u32 = x: nat | x <= U32_MAX

  datatype Policy = Policy(requestsPerMinute: u32, burst: u32)

  datatype Exceeded = Exceeded(clientId: string, limit: u32, burst: u32, retryAfterSeconds: nat)

  function Ceil(x: real): int { -((-x).Floor) }

  /** `saturating_add` of two u32 values, as a token amount. */
  function Capacity(p: Policy): real {
    var sum := p.requestsPerMinute + p.burst;
    (if sum <= U32_MAX then sum else U32_MAX) as real
  }

  function RefillPerSecond(p: Policy): real { p.requestsPerMinute as real / 60.0 }

  function RefillPerMillisecond(p: Policy): real { p.requestsPerMinute as real / 60000.0 }

  function RetryAfter(tokens: real, refillPerSecond: real): nat {
    if refillPerSecond <= 0.0 then 60
    else
      assert Max(1.0 - tokens, 0.0) / refillPerSecond >= 0.0;
      Ceil(Max(1.0 - tokens, 0.0) / refillPerSecond)
  }

  // ----- one bucket -----

  function MeterOf(p: Policy): Meter {
    Meter(Capacity(p), seconds => Mul(seconds, RefillPerSecond(p)), tokens => RetryAfter(tokens, RefillPerSecond(p)))
  }

  lemma {:induction false} PolicyIsLinear(p: Policy)
    ensures Linear(MeterOf(p))
  {
    var m, r := MeterOf(p), RefillPerSecond(p);
    Units(r);
    forall a, b ensures GainAdds(m, a, b) {
      Adds(a, b, r);
    }
    forall a, b ensures GainGrows(m, a, b) {
      if a <= b { Scale(a, b, r); }
    }
  }

  // ----- retry-after -----

  lemma {:induction false} RefillsHoldOne(p: Policy)
    requires p.requestsPerMinute > 0
    ensures Capacity(p) >= 1.0
    ensures RefillPerSecond(p) > 0.0 && RefillPerMillisecond(p) > 0.0
  {
  }

  lemma {:induction false} CeilBrackets(x: real)
    ensures x <= Ceil(x) as real < x + 1.0
  {
  }

  lemma {:induction false} RetryAfterBrackets(tokens: real, r: real)
    requires tokens < 1.0 && r > 0.0
    ensures tokens + Mul(RetryAfter(tokens, r) as real, r) >= 1.0
    ensures tokens + Mul(RetryAfter(tokens, r) as real, r) < 1.0 + r
  {
    var x, n := (1.0 - tokens) / r, RetryAfter(tokens, r) as real;
    assert Max(1.0 - tokens, 0.0) == 1.0 - tokens;
    assert n == Ceil(x) as real;
    CeilBrackets(x);
    Quotient(1.0 - tokens, r);
    Scale(x, n, r);
    ScaleStrictly(n, x + 1.0, r);
    Adds(x, 1.0, r);
    Units(r);
  }

  /** After a rejection, with nothing admitted meanwhile, a check `retryAfter` seconds later
      or more is admitted exactly when the policy refills at all; a check at least one second
      sooner than that is still rejected. */
  lemma {:induction false} RetryAfterIsExact(w: Option<Window>, p: Policy, times: seq<real>)
    requires Ready(w, MeterOf(p), times) && |times| >= 2
    requires forall i :: 0 <= i < |times| - 1 ==> Drive(w, MeterOf(p), times)[i].Rejected?
    ensures var answers, last := Drive(w, MeterOf(p), times), |times| - 1;
            (var waited, promised := times[last] - times[0], answers[0].retryAfterSeconds as real;
             && (waited >= promised ==> (answers[last].Admitted? <==> p.requestsPerMinute > 0))
             && (waited <= promised - 1.0 ==> answers[last].Rejected?))
  {
    var m := MeterOf(p);
    var waited, level := times[|times| - 1] - times[0], Level(w, m, times[0]);
    LevelThroughRejections(w, m, times);
    assert Drive(w, m, times)[0].Rejected?;
    WaitDecides(p, level, waited);
  }

  /** The same for one key in a run over all keys: among its requests of a stretch, if all but the last
      are rejected, the wait from the first to the last decides about the last. */
  lemma {:induction false} RetryAfterHoldsInRuns(
    meterOf: string -> Meter, p: Policy, before: seq<Request>, part: seq<Request>, answers: seq<Answer>, key: string)
    requires meterOf(key) == MeterOf(p) && Sorted(TimesOf(key, before + part)) && |TimesOf(key, part)| >= 2
    requires answers == Serve(map[], meterOf, before + part)[|before|..] && |answers| == |part|
    requires var own := AnswersOf(key, part, answers); forall i :: 0 <= i < |own| - 1 ==> own[i].Rejected?
    ensures var own, times := AnswersOf(key, part, answers), TimesOf(key, part);
            && |own| == |times| && own[0].Rejected?
            && (var waited, promised := times[|own| - 1] - times[0], own[0].retryAfterSeconds as real;
                && (waited >= promised ==> (own[|own| - 1].Admitted? <==> p.requestsPerMinute > 0))
                && (waited <= promised - 1.0 ==> own[|own| - 1].Rejected?))
  {
    PolicyIsLinear(p);
    var w := ReadyInStretch(meterOf, before, part, answers, key);
    RetryAfterIsExact(w, p, TimesOf(key, part));
  }

  lemma {:induction false} WaitDecides(p: Policy, level: real, waited: real)
    requires level < 1.0
    ensures var later, promised := level + MeterOf(p).gain(waited), MeterOf(p).retryAfter(level) as real;
            && (waited >= promised ==> (Min(later, Capacity(p)) >= 1.0 <==> p.requestsPerMinute > 0))
            && (waited <= promised - 1.0 ==> Min(later, Capacity(p)) < 1.0)
  {
    var promised := RetryAfter(level, RefillPerSecond(p)) as real;
    var r := RefillPerSecond(p);
    assert MeterOf(p).gain(waited) == Mul(waited, r) && MeterOf(p).retryAfter(level) as real == promised;
    if p.requestsPerMinute > 0 {
      RefillsHoldOne(p);
      RetryAfterBrackets(level, r);
      if waited >= promised {
        Scale(promised, waited, r);
      } else if waited + 1.0 <= promised {
        Scale(waited + 1.0, promised, r);
        Adds(waited, 1.0, r);
        Units(r);
      }
    } else {
      assert Mul(waited, 0.0) == 0.0;
    }
  }

  // ----- the memory store: every key has its own bucket -----

  class MemoryRateLimitStore {
    var clients: map<string, Window>

    constructor ()
      ensures clients == map[]
    {
      clients := map[];
    }

    method Check(key: string, clientId: string, policy: Policy, now: real) returns (r: Option<Exceeded>)
      modifies this
      ensures var (next, answer) := ServeOne(old(clients), MeterOf(policy), Request(key, now));
              && clients == next
              && r == (if answer.Admitted? then None
                       else Some(Exceeded(clientId, policy.requestsPerMinute, policy.burst, answer.retryAfterSeconds)))
    {
      var capacity := Capacity(policy);
      var refillPerSecond := RefillPerSecond(policy);
      if key !in clients {
        clients := clients[key := Window(now, capacity)];
      }
      var window := clients[key];
      var elapsedSeconds := Max(0.0, now - window.lastRefillAt);
      Units(refillPerSecond);
      assert Mul(elapsedSeconds, refillPerSecond) == MeterOf(policy).gain(elapsedSeconds);
      window := window.(tokens := Min(window.tokens + Mul(elapsedSeconds, refillPerSecond), capacity));
      window := window.(lastRefillAt := now);
      if window.tokens >= 1.0 {
        window := window.(tokens := window.tokens - 1.0);
        clients := clients[key := window];
        assert clients == old(clients)[key := window];
        return None;
      }
      clients := clients[key := window];
      r := Some(Exceeded(clientId, policy.requestsPerMinute, policy.burst,
                         RetryAfter(window.tokens, refillPerSecond)));
    }
  }

  function MostAdmitted(p: Policy, seconds: real): real {
    (p.requestsPerMinute + p.burst) as real + Mul(seconds, p.requestsPerMinute as real / 60.0)
  }

  lemma {:induction false} PolicyBound(p: Policy, seconds: real)
    ensures MeterOf(p).capacity + MeterOf(p).gain(seconds) <= MostAdmitted(p, seconds)
  {
  }

  /** Admission bound. In every run from the empty store, whatever other keys do and whenever they come,
      the requests of one key within any stretch `part` of the run are admitted at most
      rpm + burst + T * rpm / 60 times, for every T that the forward time of their clock readings does
      not exceed. */
  lemma {:induction false} AdmissionBound(
    meterOf: string -> Meter, p: Policy, before: seq<Request>, part: seq<Request>, answers: seq<Answer>, key: string,
    time: real)
    requires meterOf(key) == MeterOf(p) && ForwardTime(TimesOf(key, part)) <= time
    requires answers == Serve(map[], meterOf, before + part)[|before|..]
    ensures |answers| == |part|
    ensures Admissions(AnswersOf(key, part, answers)) as real <= MostAdmitted(p, time)
  {
    PolicyIsLinear(p);
    PolicyBound(p, time);
    SegmentBound(meterOf, before, part, answers, key, time);
  }

  /** With clock readings in order, T may be the seconds from the key's first request to its last. */
  lemma {:induction false} AdmissionBoundInOrder(
    meterOf: string -> Meter, p: Policy, before: seq<Request>, part: seq<Request>, answers: seq<Answer>, key: string)
    requires meterOf(key) == MeterOf(p) && TimesOf(key, part) != [] && Sorted(TimesOf(key, part))
    requires answers == Serve(map[], meterOf, before + part)[|before|..]
    ensures var times := TimesOf(key, part);
            && |answers| == |part|
            && Admissions(AnswersOf(key, part, answers)) as real <= MostAdmitted(p, times[|times| - 1] - times[0])
  {
    var times := TimesOf(key, part);
    ForwardTimeOfSorted(times);
    AdmissionBound(meterOf, p, before, part, answers, key, times[|times| - 1] - times[0]);
  }

  /** The bound for a time t, with the readings presented n times each. */
  ghost predicate Bounded(m: Meter, times: seq<real>, n: nat, t: real) {
    Admissions(Drive(None, m, Repeated(times, n))) as real <= m.capacity + m.gain(t)
  }

  /** The forward time is exactly what the bound needs: for clock readings in any order, the bound for t
      holds for all linear meters and however often the readings are presented if and only if the
      readings run forwards for at most t. */
  lemma {:induction false} BoundNeedsForwardTime(times: seq<real>, t: real)
    requires times != []
    ensures (forall m, n :: Linear(m) && n > 0 ==> Bounded(m, times, n, t)) <==> ForwardTime(times) <= t
  {
    if ForwardTime(times) <= t {
      forall m: Meter, n: nat | Linear(m) && n > 0 ensures Bounded(m, times, n, t) {
        RepetitionTakesNoTime(times, n);
        DriveIsBounded(None, m, Repeated(times, n));
        assert GainGrows(m, ForwardTime(times), t);
      }
    } else {
      var m, n := ExceedingMeter(times, t);
    }
  }

  /** A rate at which the forward time refills one token more than t does. */
  lemma {:induction false} ExceedingRate(forward: real, t: real) returns (rate: real)
    requires forward > t
    ensures rate > 0.0 && Mul(forward, rate) == Mul(t, rate) + 1.0
  {
    rate := 1.0 / (forward - t);
    Quotient(1.0, forward - t);
    Adds(forward - t, t, rate);
  }

  lemma {:induction false} ExceedingMeter(times: seq<real>, t: real) returns (m: Meter, n: nat)
    requires times != [] && ForwardTime(times) > t
    ensures Linear(m) && n > 0 && !Bounded(m, times, n, t)
  {
    var forward := ForwardTime(times);
    var rate := ExceedingRate(forward, t);
    ForwardTimeIsPositive(times);
    m := MeterAt(rate, 1.0 + Mul(forward, rate));
    n := Ceil(m.capacity);
    CeilBrackets(m.capacity);
    GapsFit(m, times);
    RepetitionSpendsAll(None, m, times, n);
  }

  lemma {:induction false} MeterAt(rate: real, capacity: real) returns (m: Meter)
    requires rate > 0.0 && capacity >= 1.0
    ensures Linear(m) && m.capacity == capacity && forall s :: m.gain(s) == Mul(s, rate)
  {
    m := Meter(capacity, s => Mul(s, rate), _ => 0);
    Units(rate);
    forall a, b ensures GainAdds(m, a, b) { Adds(a, b, rate); }
    forall a, b ensures GainGrows(m, a, b) { if a <= b { Scale(a, b, rate); } }
  }

  /** `check` reads the clock before it takes the lock, so two threads can present readings out of
      order, and then the bound fails in wall-clock time: at one request a minute, a late reading of 0 s
      rewinds the bucket, and the minute that follows is paid for twice. From the empty store three
      requests are admitted in one minute, in which the bound allows two. */
  lemma {:induction false} RewoundClockPaysTwice(key: string, meterOf: string -> Meter)
    requires meterOf(key) == MeterOf(Policy(1, 0))
    ensures var requests := [Request(key, 0.0), Request(key, 60.0), Request(key, 0.0), Request(key, 60.0)];
            var answers := Serve(map[], meterOf, requests);
            && answers == [Admitted, Admitted, Rejected(60), Admitted]
            && Admissions(answers) as real > MostAdmitted(Policy(1, 0), 60.0)
  {
    var times := [0.0, 60.0, 0.0, 60.0];
    var reqs := [Request(key, 0.0), Request(key, 60.0), Request(key, 0.0), Request(key, 60.0)];
    RewoundDrive();
    ServeOfOneKey(key, meterOf, times, reqs);
    assert MostAdmitted(Policy(1, 0), 60.0) == 2.0;
    var answers := [Admitted, Admitted, Rejected(60), Admitted];
    assert answers[1..] == [Admitted, Rejected(60), Admitted] && answers[1..][1..] == [Rejected(60), Admitted];
    assert Admissions([Rejected(60), Admitted]) == 1;
  }

  lemma {:induction false} RewoundDrive()
    ensures Drive(None, MeterOf(Policy(1, 0)), [0.0, 60.0, 0.0, 60.0]) == [Admitted, Admitted, Rejected(60), Admitted]
  {
    var m := MeterOf(Policy(1, 0));
    assert m.gain(60.0) == 1.0 && m.gain(0.0) == 0.0 && m.capacity == 1.0;
    var w := DriveFirst(None, m, 0.0, [60.0, 0.0, 60.0]);
    assert w == Some(Window(0.0, 0.0));
    w := DriveFirst(w, m, 60.0, [0.0, 60.0]);
    assert w == Some(Window(60.0, 0.0));
    w := DriveFirst(w, m, 0.0, [60.0]);
    assert w == Some(Window(0.0, 0.0));
    w := DriveFirst(w, m, 60.0, []);
    assert [0.0] + [60.0, 0.0, 60.0] == [0.0, 60.0, 0.0, 60.0] && [60.0] + [] == [60.0];
    assert [60.0] + [0.0, 60.0] == [60.0, 0.0, 60.0] && [0.0] + [60.0] == [0.0, 60.0];
  }

  lemma {:induction false} ServeOfOneKey(key: string, meterOf: string -> Meter, times: seq<real>, reqs: seq<Request>)
    requires |reqs| == |times| && forall i :: 0 <= i < |reqs| ==> reqs[i] == Request(key, times[i])
    ensures Serve(map[], meterOf, reqs) == Drive(None, meterOf(key), times)
  {
    var answers := Serve(map[], meterOf, reqs);
    KeysAreIndependent(map[], meterOf, reqs, key);
    OwnRequests(key, times, reqs, answers);
  }

  lemma {:induction false} OwnRequests(key: string, times: seq<real>, reqs: seq<Request>, answers: seq<Answer>)
    requires |reqs| == |times| == |answers| && forall i :: 0 <= i < |reqs| ==> reqs[i] == Request(key, times[i])
    ensures TimesOf(key, reqs) == times && AnswersOf(key, reqs, answers) == answers
    decreases |reqs|
  {
    if reqs != [] { OwnRequests(key, times[1..], reqs[1..], answers[1..]); }
  }

  // ----- what is admitted at least -----

  /** The whole requests of a full bucket. */
  function Limit(p: Policy): nat {
    if p.requestsPerMinute + p.burst <= 4294967295 then p.requestsPerMinute + p.burst else 4294967295
  }

  /** Nothing of the key came before, or so long ago that its bucket has filled again. */
  ghost predicate Idle(p: Policy, times: seq<real>, now: real) {
    times == [] || Mul(now - times[|times| - 1], p.requestsPerMinute as real / 60.0) >= Limit(p) as real
  }

  lemma {:induction false} IdleIsFull(
    meterOf: string -> Meter, p: Policy, before: seq<Request>, key: string, now: real) returns (w: Option<Window>)
    requires meterOf(key) == MeterOf(p) && Idle(p, TimesOf(key, before), now)
    requires TimesOf(key, before) != [] ==> TimesOf(key, before)[|TimesOf(key, before)| - 1] <= now
    ensures w == Get(Clients(map[], meterOf, before), key) && Sane(w, MeterOf(p))
    ensures Level(w, MeterOf(p), now) == Limit(p) as real
  {
    PolicyIsLinear(p);
    TokensStayInRange(map[], meterOf, before, key);
    LastRefill(map[], meterOf, before, key);
    w := Get(Clients(map[], meterOf, before), key);
  }

  /** A burst is admitted. After any run in which the key has been idle long enough, or has not come at
      all, of its requests at one clock reading exactly the first rpm + burst are admitted (as far as 32
      bits count). */
  lemma {:induction false} BurstIsAdmitted(
    meterOf: string -> Meter, p: Policy, before: seq<Request>, key: string, now: real, part: seq<Request>,
    answers: seq<Answer>)
    requires meterOf(key) == MeterOf(p) && Idle(p, TimesOf(key, before), now)
    requires TimesOf(key, before) != [] ==> TimesOf(key, before)[|TimesOf(key, before)| - 1] <= now
    requires forall i :: 0 <= i < |part| ==> part[i] == Request(key, now)
    requires answers == Serve(map[], meterOf, before + part)[|before|..]
    ensures |answers| == |part| && forall i :: 0 <= i < |answers| ==> (answers[i].Admitted? <==> i < Limit(p))
  {
    PolicyIsLinear(p);
    var w := IdleIsFull(meterOf, p, before, key, now);
    CopiesAdmit(w, MeterOf(p), now, |part|, Limit(p));
    var clients := Clients(map[], meterOf, before);
    ServeSplits(map[], meterOf, before, part);
    KeysAreIndependent(clients, meterOf, part, key);
    CopiesAt(now, |part|);
    OwnRequests(key, Copies(now, |part|), part, answers);
  }

  lemma {:induction false} CopiesAt(t: real, n: nat)
    ensures |Copies(t, n)| == n && forall i :: 0 <= i < n ==> Copies(t, n)[i] == t
    decreases n
  {
    if n > 0 { CopiesAt(t, n - 1); }
  }

  /** What the policy allows is admitted, to the last whole request: of readings presented to a new key at
      least as often each as the limit, where no refill between two readings is lost to the capacity, the
      integer part of rpm + burst + T * rpm / 60 is admitted, T being the time the readings run forwards. */
  lemma {:induction false} AllowanceIsSpent(
    meterOf: string -> Meter, p: Policy, key: string, times: seq<real>, n: nat, reqs: seq<Request>)
    requires meterOf(key) == MeterOf(p) && times != [] && n > 0 && n >= Limit(p)
    requires forall i: nat :: i + 1 < |times| ==>
      1.0 + Mul(Gap(times, i), p.requestsPerMinute as real / 60.0) <= Limit(p) as real
    requires |reqs| == |Repeated(times, n)|
    requires forall i :: 0 <= i < |reqs| ==> reqs[i] == Request(key, Repeated(times, n)[i])
    ensures Admissions(Serve(map[], meterOf, reqs))
         == (Limit(p) as real + Mul(ForwardTime(times), p.requestsPerMinute as real / 60.0)).Floor
  {
    var m := MeterOf(p);
    PolicyIsLinear(p);
    assert m.capacity == Limit(p) as real;
    forall i: nat | i + 1 < |times| ensures 1.0 + m.gain(Gap(times, i)) <= m.capacity {
      assert m.gain(Gap(times, i)) == Mul(Gap(times, i), p.requestsPerMinute as real / 60.0);
    }
    RepetitionSpendsAll(None, m, times, n);
    RepetitionTakesNoTime(times, n);
    DriveIsBounded(None, m, Repeated(times, n));
    ServeOfOneKey(key, meterOf, Repeated(times, n), reqs);
    var allowed := Limit(p) as real + Mul(ForwardTime(times), p.requestsPerMinute as real / 60.0);
    assert m.gain(ForwardTime(times)) == Mul(ForwardTime(times), p.requestsPerMinute as real / 60.0);
    WholePart(Admissions(Serve(map[], meterOf, reqs)), allowed);
  }

  lemma {:induction false} WholePart(n: nat, x: real)
    requires x - 1.0 < n as real <= x
    ensures n == x.Floor
  {
  }

  // ----- the Redis script -----

  datatype Bucket = Bucket(tokens: real, lastRefillAt: int, expiresAt: int)

  /** Milliseconds until an idle bucket is dropped. */
  function Ttl(p: Policy): int
    requires p.requestsPerMinute > 0
  {
    RefillsHoldOne(p);
    Ceil(Capacity(p) / RefillPerMillisecond(p))
  }

  /** What the script makes of the bucket before it decides. */
  function Filled(bucket: Option<Bucket>, p: Policy, now: int): real {
    var tokens := if bucket.None? then Capacity(p) else bucket.value.tokens;
    var last := if bucket.None? then now else bucket.value.lastRefillAt;
    var elapsed := if now - last >= 0 then now - last else 0;
    Min(Capacity(p), tokens + Mul(elapsed as real, RefillPerMillisecond(p)))
  }

  /** One run of the script at Redis time `now` on the bucket the key still holds, if any. */
  function Script(bucket: Option<Bucket>, p: Policy, now: int): (Bucket, Answer)
    requires p.requestsPerMinute > 0
  {
    RefillsHoldOne(p);
    var tokens := Filled(bucket, p, now);
    if tokens >= 1.0 then
      (Bucket(tokens - 1.0, now, now + Ttl(p)), Admitted)
    else
      assert (1.0 - tokens) / RefillPerMillisecond(p) / 1000.0 >= 0.0;
      (Bucket(tokens, now, now + Ttl(p)), Rejected(Ceil((1.0 - tokens) / RefillPerMillisecond(p) / 1000.0)))
  }

  /** A call of the script for one key. `expired` says whether Redis has dropped the key by then:
      it may from the expiry time on, and must once that time has passed. */
  datatype Call = Call(now: int, expired: bool)

  ghost predicate ExpiryAllowed(bucket: Option<Bucket>, c: Call) {
    bucket.Some? ==>
      && (c.expired ==> c.now >= bucket.value.expiresAt)
      && (c.now > bucket.value.expiresAt ==> c.expired)
  }

  function Visible(bucket: Option<Bucket>, c: Call): Option<Bucket> {
    if c.expired then None else bucket
  }

  /** The answers the script gives to the calls for one key. */
  function ScriptDrive(bucket: Option<Bucket>, p: Policy, calls: seq<Call>): (answers: seq<Answer>)
    requires p.requestsPerMinute > 0
    ensures |answers| == |calls|
    decreases |calls|
  {
    if calls == [] then []
    else
      var (next, answer) := Script(Visible(bucket, calls[0]), p, calls[0].now);
      [answer] + ScriptDrive(Some(next), p, calls[1..])
  }

  ghost predicate ExpiriesAllowed(bucket: Option<Bucket>, p: Policy, calls: seq<Call>)
    requires p.requestsPerMinute > 0
    decreases |calls|
  {
    calls != [] ==>
      && ExpiryAllowed(bucket, calls[0])
      && ExpiriesAllowed(Some(Script(Visible(bucket, calls[0]), p, calls[0].now).0), p, calls[1..])
  }

  /** One call for one key. */
  datatype KeyedCall = KeyedCall(key: string, call: Call)

  function ScriptOne(buckets: map<string, Bucket>, p: Policy, c: KeyedCall): (map<string, Bucket>, Answer)
    requires p.requestsPerMinute > 0
  {
    var (bucket, answer) := Script(Visible(Get(buckets, c.key), c.call), p, c.call.now);
    (buckets[c.key := bucket], answer)
  }

  class RedisRateLimitStore {
    var buckets: map<string, Bucket>

    constructor ()
      ensures buckets == map[]
    {
      buckets := map[];
    }

    method Check(key: string, clientId: string, policy: Policy, now: int, expired: bool) returns (r: Option<Exceeded>)
      requires policy.requestsPerMinute > 0
      modifies this
      ensures var (next, answer) := ScriptOne(old(buckets), policy, KeyedCall(key, Call(now, expired)));
              && buckets == next
              && r == (if answer.Admitted? then None
                       else Some(Exceeded(clientId, policy.requestsPerMinute, policy.burst, answer.retryAfterSeconds)))
    {
      var (bucket, answer) := Script(if expired then None else Get(buckets, key), policy, now);
      buckets := buckets[key := bucket];
      match answer
      case Admitted => return None;
      case Rejected(retryAfter) =>
        return Some(Exceeded(clientId, policy.requestsPerMinute, policy.burst, retryAfter));
    }
  }

  ghost predicate SameWindow(b: Bucket, w: Window, p: Policy)
    requires p.requestsPerMinute > 0
  {
    && b.tokens == w.tokens
    && w.lastRefillAt == b.lastRefillAt as real / 1000.0
    && b.expiresAt == b.lastRefillAt + Ttl(p)
    && 0.0 <= w.tokens <= Capacity(p)
  }

  ghost predicate SameBucket(bucket: Option<Bucket>, w: Option<Window>, p: Policy)
    requires p.requestsPerMinute > 0
  {
    bucket.Some? == w.Some? && (bucket.Some? ==> SameWindow(bucket.value, w.value, p))
  }

  lemma {:induction false} TtlFills(p: Policy)
    requires p.requestsPerMinute > 0
    ensures MeterOf(p).gain(Ttl(p) as real / 1000.0) >= Capacity(p)
  {
    RefillsHoldOne(p);
    var c, r, ttl := Capacity(p), RefillPerMillisecond(p), Ttl(p) as real;
    Quotient(c, r);
    CeilBrackets(c / r);
    Scale(c / r, ttl, r);
    assert RefillPerSecond(p) == r * 1000.0;
    Thousandth(ttl, r);
  }

  /** A bucket idle for its whole time to live is full again. */
  lemma {:induction false} IdleBucketIsFull(w: Window, m: Meter, ttl: real, now: real)
    requires Linear(m) && Sane(Some(w), m) && m.gain(ttl) >= m.capacity
    requires now - w.lastRefillAt >= ttl >= 0.0
    ensures Level(Some(w), m, now) == Level(None, m, now)
  {
    assert GainGrows(m, ttl, now - w.lastRefillAt);
  }

  lemma {:induction false} MillisecondsGain(p: Policy, elapsed: int)
    ensures MeterOf(p).gain(elapsed as real / 1000.0) == Mul(elapsed as real, RefillPerMillisecond(p))
  {
    var e, r := elapsed as real, RefillPerMillisecond(p);
    assert RefillPerSecond(p) == r * 1000.0;
    Thousandth(e, r);
  }

  lemma {:induction false} MillisecondsRetry(p: Policy, filled: real)
    requires p.requestsPerMinute > 0 && filled < 1.0
    ensures RefillPerMillisecond(p) > 0.0
    ensures MeterOf(p).retryAfter(filled) == Ceil((1.0 - filled) / RefillPerMillisecond(p) / 1000.0)
  {
    RefillsHoldOne(p);
    DivideInSteps(1.0 - filled, RefillPerMillisecond(p));
    assert RefillPerSecond(p) == RefillPerMillisecond(p) * 1000.0;
    assert Max(1.0 - filled, 0.0) == 1.0 - filled;
  }

  lemma {:induction false} FilledIsLevel(bucket: Option<Bucket>, w: Option<Window>, p: Policy, now: int)
    requires p.requestsPerMinute > 0
    requires SameBucket(bucket, w, p)
    ensures Filled(bucket, p, now) == Level(w, MeterOf(p), now as real / 1000.0)
  {
    var t := now as real / 1000.0;
    if bucket.None? {
      Units(RefillPerMillisecond(p));
    } else {
      var last := bucket.value.lastRefillAt;
      var elapsed := if now - last >= 0 then now - last else 0;
      assert Max(0.0, t - w.value.lastRefillAt) == elapsed as real / 1000.0;
      MillisecondsGain(p, elapsed);
    }
  }

  lemma {:induction false} ScriptStep(bucket: Option<Bucket>, w: Option<Window>, p: Policy, now: int)
    requires p.requestsPerMinute > 0
    requires SameBucket(bucket, w, p)
    ensures var level, t := Level(w, MeterOf(p), now as real / 1000.0), now as real / 1000.0;
            (var (b, answer) := Script(bucket, p, now);
             answer == Answered(level, MeterOf(p)) && SameWindow(b, After(level, t), p))
  {
    var level := Level(w, MeterOf(p), now as real / 1000.0);
    PolicyIsLinear(p);
    LevelSane(w, MeterOf(p), now as real / 1000.0);
    FilledIsLevel(bucket, w, p, now);
    if level < 1.0 { MillisecondsRetry(p, level); }
  }

  function Seconds(calls: seq<Call>): seq<real> {
    seq(|calls|, i requires 0 <= i < |calls| => calls[i].now as real / 1000.0)
  }

  /** An expired key would have filled up by now. */
  lemma {:induction false} ExpiredIsFull(bucket: Option<Bucket>, w: Option<Window>, p: Policy, c: Call)
    requires p.requestsPerMinute > 0 && SameBucket(bucket, w, p) && ExpiryAllowed(bucket, c) && c.expired
    ensures Level(w, MeterOf(p), c.now as real / 1000.0) == Level(None, MeterOf(p), c.now as real / 1000.0)
  {
    if w.Some? {
      PolicyIsLinear(p);
      TtlFills(p);
      IdleBucketIsFull(w.value, MeterOf(p), Ttl(p) as real / 1000.0, c.now as real / 1000.0);
    }
  }

  lemma {:induction false} CallStep(bucket: Option<Bucket>, w: Option<Window>, p: Policy, c: Call)
    requires p.requestsPerMinute > 0 && SameBucket(bucket, w, p) && ExpiryAllowed(bucket, c)
    ensures var level, t := Level(w, MeterOf(p), c.now as real / 1000.0), c.now as real / 1000.0;
            (var (next, answer) := Script(Visible(bucket, c), p, c.now);
             answer == Answered(level, MeterOf(p)) && SameWindow(next, After(level, t), p))
  {
    if c.expired {
      ExpiredIsFull(bucket, w, p, c);
      ScriptStep(None, None, p, c.now);
    } else {
      ScriptStep(bucket, w, p, c.now);
    }
  }

  lemma {:induction false} SecondsUnfold(calls: seq<Call>)
    requires calls != []
    ensures Seconds(calls)[0] == calls[0].now as real / 1000.0 && Seconds(calls)[1..] == Seconds(calls[1..])
  {
  }

  /** Key expiry is unobservable: on the same millisecond times, and whenever Redis chooses to
      drop the expired key, the script gives the answers the memory store gives. */
  lemma {:induction false} RedisRefinesMemory(
    bucket: Option<Bucket>, w: Option<Window>, p: Policy, calls: seq<Call>)
    requires p.requestsPerMinute > 0 && SameBucket(bucket, w, p) && ExpiriesAllowed(bucket, p, calls)
    ensures ScriptDrive(bucket, p, calls) == Drive(w, MeterOf(p), Seconds(calls))
    decreases |calls|
  {
    if calls != [] {
      var t := calls[0].now as real / 1000.0;
      CallStep(bucket, w, p, calls[0]);
      RedisRefinesMemory(Some(Script(Visible(bucket, calls[0]), p, calls[0].now).0),
                         Some(After(Level(w, MeterOf(p), t), t)), p, calls[1..]);
      SecondsUnfold(calls);
    }
  }

  // ----- the same over all keys -----

  predicate Refills(policyOf: string -> Policy, calls: seq<KeyedCall>) {
    forall i :: 0 <= i < |calls| ==> policyOf(calls[i].key).requestsPerMinute > 0
  }

  /** The answers of the Redis store to a run of calls for any keys. */
  function ScriptServe(buckets: map<string, Bucket>, policyOf: string -> Policy, calls: seq<KeyedCall>)
    : (answers: seq<Answer>)
    requires Refills(policyOf, calls)
    ensures |answers| == |calls|
    decreases |calls|
  {
    if calls == [] then []
    else
      var (next, answer) := ScriptOne(buckets, policyOf(calls[0].key), calls[0]);
      [answer] + ScriptServe(next, policyOf, calls[1..])
  }

  ghost predicate KeyedExpiriesAllowed(buckets: map<string, Bucket>, policyOf: string -> Policy, calls: seq<KeyedCall>)
    requires Refills(policyOf, calls)
    decreases |calls|
  {
    calls != [] ==>
      && ExpiryAllowed(Get(buckets, calls[0].key), calls[0].call)
      && KeyedExpiriesAllowed(ScriptOne(buckets, policyOf(calls[0].key), calls[0]).0, policyOf, calls[1..])
  }

  /** The requests the memory store sees: the same keys, on the same millisecond times. */
  function InSeconds(calls: seq<KeyedCall>): seq<Request> {
    if calls == [] then []
    else [Request(calls[0].key, calls[0].call.now as real / 1000.0)] + InSeconds(calls[1..])
  }

  ghost predicate SameBuckets(
    buckets: map<string, Bucket>, clients: map<string, Window>, policyOf: string -> Policy, calls: seq<KeyedCall>)
    requires Refills(policyOf, calls)
  {
    forall i :: 0 <= i < |calls| ==>
      SameBucket(Get(buckets, calls[i].key), Get(clients, calls[i].key), policyOf(calls[i].key))
  }

  lemma {:induction false} KeyedStep(
    buckets: map<string, Bucket>, clients: map<string, Window>, policyOf: string -> Policy, calls: seq<KeyedCall>)
    requires calls != [] && Refills(policyOf, calls) && SameBuckets(buckets, clients, policyOf, calls)
    requires ExpiryAllowed(Get(buckets, calls[0].key), calls[0].call)
    ensures var p, c := policyOf(calls[0].key), calls[0];
            (var (nextBuckets, answer) := ScriptOne(buckets, p, c);
             var (nextClients, expected) := ServeOne(clients, MeterOf(p), Request(c.key, c.call.now as real / 1000.0));
             answer == expected && SameBuckets(nextBuckets, nextClients, policyOf, calls[1..]))
  {
    var p, c := policyOf(calls[0].key), calls[0];
    CallStep(Get(buckets, c.key), Get(clients, c.key), p, c.call);
    forall i | 0 <= i < |calls| - 1
      ensures SameBucket(Get(ScriptOne(buckets, p, c).0, calls[1..][i].key),
                         Get(ServeOne(clients, MeterOf(p), Request(c.key, c.call.now as real / 1000.0)).0,
                           calls[1..][i].key),
                         policyOf(calls[1..][i].key))
    {
      assert calls[1..][i] == calls[i + 1];
    }
  }

  /** In every run over any keys, whenever Redis drops expired keys, the Redis store gives the answers of
      the memory store; so what is proved of runs of the one holds of the other. */
  lemma {:induction false} RedisStoreRefinesMemory(
    buckets: map<string, Bucket>, clients: map<string, Window>, policyOf: string -> Policy, calls: seq<KeyedCall>)
    requires Refills(policyOf, calls) && SameBuckets(buckets, clients, policyOf, calls)
    requires KeyedExpiriesAllowed(buckets, policyOf, calls)
    ensures ScriptServe(buckets, policyOf, calls) == Serve(clients, key => MeterOf(policyOf(key)), InSeconds(calls))
    decreases |calls|
  {
    if calls != [] {
      var p, c := policyOf(calls[0].key), calls[0];
      var request := Request(c.key, c.call.now as real / 1000.0);
      KeyedStep(buckets, clients, policyOf, calls);
      RedisStoreRefinesMemory(
        ScriptOne(buckets, p, c).0, ServeOne(clients, MeterOf(p), request).0, policyOf, calls[1..]);
      assert InSeconds(calls)[0] == request && InSeconds(calls)[1..] == InSeconds(calls[1..]);
    }
  }
}
