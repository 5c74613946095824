/** One token bucket and a store of them, for any meter. */
module TokenBucket {
  import opened Wrappers

  datatype Window = Window(lastRefillAt: real, tokens: real)

  datatype Answer = Admitted | Rejected(retryAfterSeconds: nat)

  function Min(a: real, b: real): real { if a <= b then a else b }

  function Max(a: real, b: real): real { if a >= b then a else b }

  /** What a policy makes of a bucket: the most it holds, what it gains in some seconds, and the
      waiting time reported at a token level. */
  datatype Meter = Meter(capacity: real, gain: real -> real, retryAfter: real -> nat)

  ghost predicate GainAdds(m: Meter, a: real, b: real) { m.gain(a + b) == m.gain(a) + m.gain(b) }

  ghost predicate GainGrows(m: Meter, a: real, b: real) { a <= b ==> m.gain(a) <= m.gain(b) }

  ghost predicate Linear(m: Meter) {
    && m.capacity >= 0.0
    && m.gain(0.0) == 0.0
    && (forall a, b :: GainAdds(m, a, b))
    && (forall a, b :: GainGrows(m, a, b))
  }

  /** The tokens a bucket holds at time `now`; a bucket that does not exist is full.
      `duration_since` saturates, so a clock that runs backwards refills nothing. */
  function Level(w: Option<Window>, m: Meter, now: real): real {
    match w
    case None => m.capacity
    case Some(w) => Min(w.tokens + m.gain(Max(0.0, now - w.lastRefillAt)), m.capacity)
  }

  function Answered(level: real, m: Meter): Answer {
    if level >= 1.0 then Admitted else Rejected(m.retryAfter(level))
  }

  function After(level: real, now: real): Window {
    Window(now, if level >= 1.0 then level - 1.0 else level)
  }

  /** The answers one bucket gives to checks at the listed times. */
  function Drive(w: Option<Window>, m: Meter, times: seq<real>): (answers: seq<Answer>)
    ensures |answers| == |times|
    decreases |times|
  {
    if times == [] then []
    else
      var level := Level(w, m, times[0]);
      [Answered(level, m)] + Drive(Some(After(level, times[0])), m, times[1..])
  }

  ghost predicate Sane(w: Option<Window>, m: Meter) {
    w.Some? ==> 0.0 <= w.value.tokens <= m.capacity
  }

  ghost predicate Sorted(times: seq<real>) {
    forall i, j :: 0 <= i < j < |times| ==> times[i] <= times[j]
  }

  function Admissions(answers: seq<Answer>): nat {
    if answers == [] then 0
    else (if answers[0].Admitted? then 1 else 0) + Admissions(answers[1..])
  }

  /** The time a clock that may run backwards spends running forwards. */
  function ForwardTime(times: seq<real>): real {
    if |times| <= 1 then 0.0 else Max(0.0, times[1] - times[0]) + ForwardTime(times[1..])
  }

  lemma {:induction false} LevelSane(w: Option<Window>, m: Meter, now: real)
    requires Linear(m) && Sane(w, m)
    ensures 0.0 <= Level(w, m, now) <= m.capacity
    ensures Sane(Some(After(Level(w, m, now), now)), m)
  {
    if w.Some? { assert GainGrows(m, 0.0, Max(0.0, now - w.value.lastRefillAt)); }
  }

  /** Admissions never exceed the tokens at the first check plus what forward time
      refills, whatever the clock does. */
  lemma {:induction false} DriveIsBounded(w: Option<Window>, m: Meter, times: seq<real>)
    requires Linear(m) && Sane(w, m) && times != []
    ensures Admissions(Drive(w, m, times)) as real <= Level(w, m, times[0]) + m.gain(ForwardTime(times))
    decreases |times|
  {
    LevelSane(w, m, times[0]);
    var next := After(Level(w, m, times[0]), times[0]);
    var answers := Drive(w, m, times);
    assert answers[1..] == Drive(Some(next), m, times[1..]);
    if |times| > 1 {
      DriveIsBounded(Some(next), m, times[1..]);
      assert GainAdds(m, Max(0.0, times[1] - times[0]), ForwardTime(times[1..]));
    }
  }

  lemma {:induction false} ForwardTimeOfSorted(times: seq<real>)
    requires times != [] && Sorted(times)
    ensures ForwardTime(times) == times[|times| - 1] - times[0]
  {
    if |times| > 1 {
      ForwardTimeOfSorted(times[1..]);
      assert times[0] <= times[1];
    }
  }

  /** A later level follows from an earlier one alone. */
  lemma {:induction false} LevelLater(w: Option<Window>, m: Meter, t: real, u: real)
    requires Linear(m) && Sane(w, m) && t <= u && (w.Some? ==> w.value.lastRefillAt <= t)
    ensures Level(w, m, u) == Min(Level(w, m, t) + m.gain(u - t), m.capacity)
  {
    assert GainGrows(m, 0.0, u - t);
    if w.Some? {
      var s := w.value.lastRefillAt;
      assert GainAdds(m, t - s, u - t) && (t - s) + (u - t) == u - s;
    }
  }

  // ----- rejected calls are invisible -----

  function Keep<T>(s: seq<T>, kept: seq<bool>): seq<T>
    requires |s| == |kept|
  {
    if s == [] then []
    else if kept[0] then [s[0]] + Keep(s[1..], kept[1..])
    else Keep(s[1..], kept[1..])
  }

  lemma {:induction false} KeepMembers<T>(s: seq<T>, kept: seq<bool>)
    requires |s| == |kept|
    ensures forall x :: x in Keep(s, kept) ==> x in s
  {
    if s != [] { KeepMembers(s[1..], kept[1..]); }
  }

  ghost predicate Ready(w: Option<Window>, m: Meter, times: seq<real>) {
    && Linear(m) && Sane(w, m) && Sorted(times)
    && (times != [] && w.Some? ==> w.value.lastRefillAt <= times[0])
  }

  lemma {:induction false} ReadyAfter(w: Option<Window>, m: Meter, times: seq<real>)
    requires Ready(w, m, times) && times != []
    ensures Ready(Some(After(Level(w, m, times[0]), times[0])), m, times[1..])
    ensures Drive(w, m, times)[1..] == Drive(Some(After(Level(w, m, times[0]), times[0])), m, times[1..])
  {
    LevelSane(w, m, times[0]);
  }

  /** A rejected check leaves nothing behind that a later check can see. */
  lemma {:induction false} SkipRejected(w: Option<Window>, m: Meter, t: real, later: seq<real>)
    requires Linear(m) && Sane(w, m) && (w.Some? ==> w.value.lastRefillAt <= t) && Level(w, m, t) < 1.0
    requires later != [] ==> t <= later[0]
    ensures Drive(Some(After(Level(w, m, t), t)), m, later) == Drive(w, m, later)
  {
    if later != [] {
      var next := Some(After(Level(w, m, t), t));
      LevelSane(w, m, t);
      LevelLater(w, m, t, later[0]);
      LevelLater(next, m, t, later[0]);
      LevelLater(next, m, t, t);
    }
  }

  lemma {:induction false} DropFirst(w: Option<Window>, m: Meter, times: seq<real>, kept: seq<bool>)
    requires Ready(w, m, times) && |kept| == |times| > 0 && !kept[0] && Level(w, m, times[0]) < 1.0
    ensures Drive(w, m, Keep(times, kept))
         == Drive(Some(After(Level(w, m, times[0]), times[0])), m, Keep(times[1..], kept[1..]))
  {
    var tail := Keep(times[1..], kept[1..]);
    assert Keep(times, kept) == tail;
    KeepMembers(times[1..], kept[1..]);
    if tail != [] { assert tail[0] in tail; }
    SkipRejected(w, m, times[0], tail);
  }

  /** Dropping any of the rejected calls from a run leaves every other answer as it was. */
  lemma {:induction false} RejectedCallsAreInvisible(w: Option<Window>, m: Meter, times: seq<real>, kept: seq<bool>)
    requires Ready(w, m, times) && |kept| == |times|
    requires forall i :: 0 <= i < |times| && !kept[i] ==> Drive(w, m, times)[i].Rejected?
    ensures Drive(w, m, Keep(times, kept)) == Keep(Drive(w, m, times), kept)
    decreases |times|
  {
    if times != [] {
      ReadyAfter(w, m, times);
      var next := Some(After(Level(w, m, times[0]), times[0]));
      var rest, restKept, answers := times[1..], kept[1..], Drive(w, m, times);
      assert forall i :: 0 <= i < |rest| ==> answers[1..][i] == answers[i + 1] && restKept[i] == kept[i + 1];
      RejectedCallsAreInvisible(next, m, rest, restKept);
      if kept[0] {
        assert Keep(times, kept)[1..] == Keep(rest, restKept);
      } else {
        assert answers[0].Rejected?;
        DropFirst(w, m, times, kept);
        assert Keep(answers, kept) == Keep(answers[1..], restKept);
      }
    }
  }

  // ----- retry-after -----

  /** While calls are rejected the bucket only refills. */
  lemma {:induction false} LevelThroughRejections(w: Option<Window>, m: Meter, times: seq<real>)
    requires Ready(w, m, times) && times != []
    requires forall i :: 0 <= i < |times| - 1 ==> Drive(w, m, times)[i].Rejected?
    ensures Drive(w, m, times)[|times| - 1]
         == Answered(Min(Level(w, m, times[0]) + m.gain(times[|times| - 1] - times[0]), m.capacity), m)
    decreases |times|
  {
    LevelLater(w, m, times[0], times[0]);
    if |times| > 1 {
      ReadyAfter(w, m, times);
      var next := Some(After(Level(w, m, times[0]), times[0]));
      var answers := Drive(w, m, times);
      assert answers[0].Rejected?;
      assert forall i :: 0 <= i < |answers[1..]| ==> answers[1..][i] == answers[i + 1];
      LevelThroughRejections(next, m, times[1..]);
      LevelLater(next, m, times[0], times[1]);
      LevelLater(next, m, times[0], times[0]);
      var first, last := times[1] - times[0], times[|times| - 1] - times[1];
      assert GainAdds(m, first, last) && first + last == times[|times| - 1] - times[0];
      assert GainGrows(m, 0.0, first) && GainGrows(m, 0.0, last);
    }
  }

  // ----- a store: every key has its own bucket -----

  datatype Request = Request(key: string, now: real)

  function ServeOne(clients: map<string, Window>, m: Meter, r: Request): (map<string, Window>, Answer) {
    var level := Level(Get(clients, r.key), m, r.now);
    (clients[r.key := After(level, r.now)], Answered(level, m))
  }

  /** The answers of a run in which every key keeps its meter. */
  function Serve(clients: map<string, Window>, meterOf: string -> Meter, reqs: seq<Request>): (answers: seq<Answer>)
    ensures |answers| == |reqs|
    decreases |reqs|
  {
    if reqs == [] then []
    else
      var (next, answer) := ServeOne(clients, meterOf(reqs[0].key), reqs[0]);
      [answer] + Serve(next, meterOf, reqs[1..])
  }

  function Clients(clients: map<string, Window>, meterOf: string -> Meter, reqs: seq<Request>): map<string, Window>
    decreases |reqs|
  {
    if reqs == [] then clients
    else Clients(ServeOne(clients, meterOf(reqs[0].key), reqs[0]).0, meterOf, reqs[1..])
  }

  function TimesOf(key: string, reqs: seq<Request>): seq<real> {
    if reqs == [] then []
    else if reqs[0].key == key then [reqs[0].now] + TimesOf(key, reqs[1..])
    else TimesOf(key, reqs[1..])
  }

  function AnswersOf(key: string, reqs: seq<Request>, answers: seq<Answer>): seq<Answer>
    requires |reqs| == |answers|
  {
    if reqs == [] then []
    else if reqs[0].key == key then [answers[0]] + AnswersOf(key, reqs[1..], answers[1..])
    else AnswersOf(key, reqs[1..], answers[1..])
  }

  /** A key is answered as though no other key existed. */
  lemma {:induction false} KeysAreIndependent(
    clients: map<string, Window>, meterOf: string -> Meter, reqs: seq<Request>, key: string)
    ensures AnswersOf(key, reqs, Serve(clients, meterOf, reqs))
         == Drive(Get(clients, key), meterOf(key), TimesOf(key, reqs))
    decreases |reqs|
  {
    if reqs != [] {
      var (next, answer) := ServeOne(clients, meterOf(reqs[0].key), reqs[0]);
      KeysAreIndependent(next, meterOf, reqs[1..], key);
      assert Serve(clients, meterOf, reqs)[1..] == Serve(next, meterOf, reqs[1..]);
      if reqs[0].key == key {
        assert TimesOf(key, reqs)[1..] == TimesOf(key, reqs[1..]);
      } else {
        assert TimesOf(key, reqs) == TimesOf(key, reqs[1..]);
        assert Get(next, key) == Get(clients, key);
      }
    }
  }

  /** In every run, the tokens of a key stay within [0, capacity]. */
  lemma {:induction false} TokensStayInRange(
    clients: map<string, Window>, meterOf: string -> Meter, reqs: seq<Request>, key: string)
    requires Linear(meterOf(key)) && Sane(Get(clients, key), meterOf(key))
    ensures Sane(Get(Clients(clients, meterOf, reqs), key), meterOf(key))
    decreases |reqs|
  {
    if reqs != [] {
      var next := ServeOne(clients, meterOf(reqs[0].key), reqs[0]).0;
      if reqs[0].key == key {
        LevelSane(Get(clients, key), meterOf(key), reqs[0].now);
      } else {
        assert Get(next, key) == Get(clients, key);
      }
      TokensStayInRange(next, meterOf, reqs[1..], key);
    }
  }

  /** A run can be cut anywhere and continued from the store it reached. */
  lemma {:induction false} ServeSplits(
    clients: map<string, Window>, meterOf: string -> Meter, a: seq<Request>, b: seq<Request>)
    ensures Serve(clients, meterOf, a + b)
         == Serve(clients, meterOf, a) + Serve(Clients(clients, meterOf, a), meterOf, b)
    decreases |a|
  {
    if a == [] {
      assert a + b == b;
    } else {
      assert (a + b)[1..] == a[1..] + b;
      ServeSplits(ServeOne(clients, meterOf(a[0].key), a[0]).0, meterOf, a[1..], b);
    }
  }

  /** The answers to a stretch of a run from the empty store, as one key sees them. */
  lemma {:induction false} StretchOfKey(
    meterOf: string -> Meter, before: seq<Request>, part: seq<Request>, answers: seq<Answer>, key: string)
    returns (w: Option<Window>)
    requires Linear(meterOf(key)) && answers == Serve(map[], meterOf, before + part)[|before|..]
    ensures |answers| == |part| && AnswersOf(key, part, answers) == Drive(w, meterOf(key), TimesOf(key, part))
    ensures Sane(w, meterOf(key)) && w == Get(Clients(map[], meterOf, before), key)
  {
    var clients := Clients(map[], meterOf, before);
    TokensStayInRange(map[], meterOf, before, key);
    ServeSplits(map[], meterOf, before, part);
    KeysAreIndependent(clients, meterOf, part, key);
    w := Get(clients, key);
  }

  /** In every run from the empty store, whatever other keys do and whenever they come, the admissions
      of one key within a stretch of the run are bounded by a full bucket and what it gains in any time
      that the key's clock readings do not exceed while they run forwards. */
  lemma {:induction false} SegmentBound(
    meterOf: string -> Meter, before: seq<Request>, part: seq<Request>, answers: seq<Answer>, key: string, time: real)
    requires Linear(meterOf(key)) && ForwardTime(TimesOf(key, part)) <= time
    requires answers == Serve(map[], meterOf, before + part)[|before|..]
    ensures |answers| == |part|
    ensures Admissions(AnswersOf(key, part, answers)) as real <= meterOf(key).capacity + meterOf(key).gain(time)
  {
    var m, times := meterOf(key), TimesOf(key, part);
    var w := StretchOfKey(meterOf, before, part, answers, key);
    ForwardTimeIsPositive(times);
    assert GainGrows(m, ForwardTime(times), time) && GainGrows(m, 0.0, time);
    if times != [] {
      DriveIsBounded(w, m, times);
      LevelSane(w, m, times[0]);
    }
  }

  lemma {:induction false} ForwardTimeIsPositive(times: seq<real>)
    ensures ForwardTime(times) >= 0.0
  {
    if |times| > 1 { ForwardTimeIsPositive(times[1..]); }
  }

  // ----- the bound is tight -----

  lemma {:induction false} DriveFirst(w: Option<Window>, m: Meter, t: real, rest: seq<real>)
    returns (next: Option<Window>)
    ensures next == Some(After(Level(w, m, t), t))
    ensures Drive(w, m, [t] + rest) == [Answered(Level(w, m, t), m)] + Drive(next, m, rest)
  {
    next := Some(After(Level(w, m, t), t));
    assert ([t] + rest)[1..] == rest;
  }

  function Copies(t: real, n: nat): seq<real> { if n == 0 then [] else [t] + Copies(t, n - 1) }

  /** Every clock reading presented n times. */
  function Repeated(times: seq<real>, n: nat): seq<real> {
    if times == [] then [] else Copies(times[0], n) + Repeated(times[1..], n)
  }

  /** As many checks at one time as there are tokens take all whole tokens. */
  lemma {:induction false} CopiesDrain(w: Option<Window>, m: Meter, t: real, n: nat, rest: seq<real>)
    returns (left: real)
    requires Linear(m) && Sane(w, m) && n > 0 && n as real >= Level(w, m, t)
    ensures 0.0 <= left < 1.0 && left <= m.capacity
    ensures Admissions(Drive(w, m, Copies(t, n) + rest)) as real
         == Level(w, m, t) - left + Admissions(Drive(Some(Window(t, left)), m, rest)) as real
    decreases n
  {
    var level := Level(w, m, t);
    LevelSane(w, m, t);
    var next := After(level, t);
    var later := Copies(t, n - 1) + rest;
    assert Copies(t, n) + rest == [t] + later && ([t] + later)[1..] == later;
    assert Drive(w, m, [t] + later)[1..] == Drive(Some(next), m, later);
    assert Level(Some(next), m, t) == next.tokens;
    if n == 1 {
      left := next.tokens;
      assert later == rest;
    } else {
      left := CopiesDrain(Some(next), m, t, n - 1, rest);
    }
  }

  /** Of checks at one time exactly the first are admitted, as many as there are whole tokens. */
  lemma {:induction false} CopiesAdmit(w: Option<Window>, m: Meter, t: real, n: nat, tokens: nat)
    requires Linear(m) && Sane(w, m) && Level(w, m, t) == tokens as real
    ensures |Copies(t, n)| == n
    ensures forall i :: 0 <= i < n ==> (Drive(w, m, Copies(t, n))[i].Admitted? <==> i < tokens)
    decreases n
  {
    if n > 0 {
      LevelSane(w, m, t);
      var next := Some(After(Level(w, m, t), t));
      assert Level(next, m, t) == next.value.tokens;
      CopiesAdmit(next, m, t, n - 1, if tokens > 0 then tokens - 1 else 0);
      assert Copies(t, n)[1..] == Copies(t, n - 1);
      assert Drive(w, m, Copies(t, n))[1..] == Drive(next, m, Copies(t, n - 1));
      assert forall i :: 1 <= i < n ==> Drive(w, m, Copies(t, n))[i] == Drive(w, m, Copies(t, n))[1..][i - 1];
    }
  }

  /** The time from one reading to the next, if the clock runs forwards. */
  function Gap(times: seq<real>, i: nat): real
    requires i + 1 < |times|
  {
    Max(0.0, times[i + 1] - times[i])
  }

  /** No refill between one reading and the next takes a drained bucket over its capacity. */
  ghost predicate NoneOverflows(m: Meter, times: seq<real>) {
    forall i: nat :: i + 1 < |times| ==> 1.0 + m.gain(Gap(times, i)) <= m.capacity
  }

  lemma {:induction false} NoneOverflowsLater(m: Meter, times: seq<real>)
    requires NoneOverflows(m, times) && |times| > 1
    ensures NoneOverflows(m, times[1..]) && 1.0 + m.gain(Max(0.0, times[1] - times[0])) <= m.capacity
  {
    assert 1.0 + m.gain(Gap(times, 0)) <= m.capacity;
    forall i: nat | i + 1 < |times[1..]| ensures 1.0 + m.gain(Gap(times[1..], i)) <= m.capacity {
      assert Gap(times[1..], i) == Gap(times, i + 1);
    }
  }

  /** Where no refill is lost to the capacity, repeated checks admit all but one token of what there was
      and what the forward time refills. */
  lemma {:induction false} RepetitionSpendsAll(w: Option<Window>, m: Meter, times: seq<real>, n: nat)
    requires Linear(m) && Sane(w, m) && times != [] && n > 0 && n as real >= m.capacity
    requires NoneOverflows(m, times)
    ensures Admissions(Drive(w, m, Repeated(times, n))) as real > Level(w, m, times[0])
      + m.gain(ForwardTime(times)) - 1.0
    decreases |times|
  {
    LevelSane(w, m, times[0]);
    var rest := times[1..];
    var left := CopiesDrain(w, m, times[0], n, Repeated(rest, n));
    if rest == [] {
      assert Drive(Some(Window(times[0], left)), m, Repeated(rest, n)) == [];
    } else {
      var step := Max(0.0, times[1] - times[0]);
      NoneOverflowsLater(m, times);
      assert GainAdds(m, step, ForwardTime(rest)) && GainGrows(m, 0.0, step);
      assert Level(Some(Window(times[0], left)), m, times[1]) == left + m.gain(step);
      RepetitionSpendsAll(Some(Window(times[0], left)), m, rest, n);
    }
  }

  lemma {:induction false} GapsFit(m: Meter, times: seq<real>)
    requires Linear(m) && 1.0 + m.gain(ForwardTime(times)) <= m.capacity
    ensures NoneOverflows(m, times)
    decreases |times|
  {
    if |times| > 1 {
      var step, rest := Max(0.0, times[1] - times[0]), times[1..];
      ForwardTimeIsPositive(rest);
      assert GainAdds(m, step, ForwardTime(rest)) && GainGrows(m, 0.0, step) && GainGrows(m, 0.0, ForwardTime(rest));
      GapsFit(m, rest);
      forall i: nat | i + 1 < |times| ensures 1.0 + m.gain(Gap(times, i)) <= m.capacity {
        if i > 0 { assert Gap(times, i) == Gap(rest, i - 1); }
      }
    }
  }

  lemma {:induction false} CopiesTakeNoTime(t: real, n: nat, rest: seq<real>)
    requires n > 0
    ensures ForwardTime(Copies(t, n) + rest) == ForwardTime([t] + rest)
    decreases n
  {
    var all := Copies(t, n) + rest;
    if n > 1 {
      CopiesTakeNoTime(t, n - 1, rest);
      assert Copies(t, n) == [t] + Copies(t, n - 1) && Copies(t, n - 1) == [t] + Copies(t, n - 2);
      var fewer := Copies(t, n - 1) + rest;
      assert all == [t] + fewer && fewer == [t] + (Copies(t, n - 2) + rest);
      assert all[1..] == fewer;
    } else {
      assert Copies(t, 1) == [t];
      assert all == [t] + rest;
    }
  }

  /** Repeating readings takes no time. */
  lemma {:induction false} RepetitionTakesNoTime(times: seq<real>, n: nat)
    requires n > 0
    ensures ForwardTime(Repeated(times, n)) == ForwardTime(times)
    ensures times != [] ==> Repeated(times, n) != [] && Repeated(times, n)[0] == times[0]
    decreases |times|
  {
    if times != [] {
      var rest := times[1..];
      RepetitionTakesNoTime(rest, n);
      CopiesTakeNoTime(times[0], n, Repeated(rest, n));
      if rest != [] {
        assert ([times[0]] + Repeated(rest, n))[1..] == Repeated(rest, n);
      } else {
        assert [times[0]] + Repeated(rest, n) == [times[0]];
      }
    }
  }

  // ----- rejected calls, over all keys -----

  /** Which of one key's requests are kept. */
  function KeptOf(key: string, reqs: seq<Request>, kept: seq<bool>): seq<bool>
    requires |reqs| == |kept|
  {
    if reqs == [] then []
    else if reqs[0].key == key then [kept[0]] + KeptOf(key, reqs[1..], kept[1..])
    else KeptOf(key, reqs[1..], kept[1..])
  }

  lemma {:induction false} SameLengths(key: string, reqs: seq<Request>, answers: seq<Answer>, kept: seq<bool>)
    requires |reqs| == |answers| == |kept|
    ensures |TimesOf(key, reqs)| == |AnswersOf(key, reqs, answers)| == |KeptOf(key, reqs, kept)|
    ensures |Keep(reqs, kept)| == |Keep(answers, kept)|
    decreases |reqs|
  {
    if reqs != [] { SameLengths(key, reqs[1..], answers[1..], kept[1..]); }
  }

  /** Keeping some requests and looking at one key can be done in either order. */
  lemma {:induction false} TimesOfKept(key: string, reqs: seq<Request>, kept: seq<bool>)
    requires |reqs| == |kept| && |TimesOf(key, reqs)| == |KeptOf(key, reqs, kept)|
    ensures TimesOf(key, Keep(reqs, kept)) == Keep(TimesOf(key, reqs), KeptOf(key, reqs, kept))
    decreases |reqs|
  {
    if reqs != [] {
      TimesOfKept(key, reqs[1..], kept[1..]);
      if kept[0] { assert Keep(reqs, kept)[1..] == Keep(reqs[1..], kept[1..]); }
      if reqs[0].key == key {
        assert TimesOf(key, reqs)[1..] == TimesOf(key, reqs[1..])
          && KeptOf(key, reqs, kept)[1..] == KeptOf(key, reqs[1..], kept[1..]);
      }
    }
  }

  lemma {:induction false} AnswersOfKept(key: string, reqs: seq<Request>, answers: seq<Answer>, kept: seq<bool>)
    requires |reqs| == |answers| == |kept| && |Keep(reqs, kept)| == |Keep(answers, kept)|
    requires |AnswersOf(key, reqs, answers)| == |KeptOf(key, reqs, kept)|
    ensures AnswersOf(key, Keep(reqs, kept), Keep(answers, kept))
         == Keep(AnswersOf(key, reqs, answers), KeptOf(key, reqs, kept))
    decreases |reqs|
  {
    if reqs != [] {
      AnswersOfKept(key, reqs[1..], answers[1..], kept[1..]);
      if kept[0] {
        assert Keep(reqs, kept)[1..] == Keep(reqs[1..], kept[1..])
          && Keep(answers, kept)[1..] == Keep(answers[1..], kept[1..]);
      }
      if reqs[0].key == key {
        assert AnswersOf(key, reqs, answers)[1..] == AnswersOf(key, reqs[1..], answers[1..]);
        assert KeptOf(key, reqs, kept)[1..] == KeptOf(key, reqs[1..], kept[1..]);
      }
    }
  }

  /** Answers that agree for every key agree. */
  lemma {:induction false} AnswersAreByKey(reqs: seq<Request>, a: seq<Answer>, b: seq<Answer>)
    requires |reqs| == |a| == |b|
    requires forall key :: AnswersOf(key, reqs, a) == AnswersOf(key, reqs, b)
    ensures a == b
    decreases |reqs|
  {
    if reqs != [] {
      forall key ensures AnswersOf(key, reqs[1..], a[1..]) == AnswersOf(key, reqs[1..], b[1..]) {
        assert AnswersOf(key, reqs, a) == AnswersOf(key, reqs, b);
        if reqs[0].key == key {
          assert AnswersOf(key, reqs, a)[1..] == AnswersOf(key, reqs[1..], a[1..]);
          assert AnswersOf(key, reqs, b)[1..] == AnswersOf(key, reqs[1..], b[1..]);
        }
      }
      assert AnswersOf(reqs[0].key, reqs, a)[0] == AnswersOf(reqs[0].key, reqs, b)[0];
      AnswersAreByKey(reqs[1..], a[1..], b[1..]);
    }
  }

  /** The rejected calls among one key's answers are those rejected in the run. */
  lemma {:induction false} DroppedOfKey(key: string, reqs: seq<Request>, answers: seq<Answer>, kept: seq<bool>)
    requires |reqs| == |answers| == |kept|
    requires forall i :: 0 <= i < |reqs| && !kept[i] ==> answers[i].Rejected?
    ensures |AnswersOf(key, reqs, answers)| == |KeptOf(key, reqs, kept)|
    ensures forall i :: 0 <= i < |KeptOf(key, reqs, kept)| && !KeptOf(key, reqs, kept)[i] ==>
      AnswersOf(key, reqs, answers)[i].Rejected?
    decreases |reqs|
  {
    if reqs != [] {
      assert forall i :: 0 <= i < |reqs| - 1 ==> kept[1..][i] == kept[i + 1] && answers[1..][i] == answers[i + 1];
      DroppedOfKey(key, reqs[1..], answers[1..], kept[1..]);
    }
  }

  /** Dropping any of the rejected calls from a run over all keys leaves every other answer as it was,
      if the clock readings of each key are in order. */
  lemma {:induction false} RejectedRequestsAreInvisible(meterOf: string -> Meter, reqs: seq<Request>, kept: seq<bool>)
    requires |kept| == |reqs| && forall key :: Linear(meterOf(key)) && Sorted(TimesOf(key, reqs))
    requires forall i :: 0 <= i < |reqs| && !kept[i] ==> Serve(map[], meterOf, reqs)[i].Rejected?
    ensures Serve(map[], meterOf, Keep(reqs, kept)) == Keep(Serve(map[], meterOf, reqs), kept)
  {
    var answers, fewer := Serve(map[], meterOf, reqs), Keep(reqs, kept);
    var others := Serve(map[], meterOf, fewer);
    SameLengths("", reqs, answers, kept);
    forall key ensures AnswersOf(key, fewer, others) == AnswersOf(key, fewer, Keep(answers, kept)) {
      assert Linear(meterOf(key)) && Sorted(TimesOf(key, reqs));
      SameLengths(key, reqs, answers, kept);
      TimesOfKept(key, reqs, kept);
      AnswersOfKept(key, reqs, answers, kept);
      DroppedOfKey(key, reqs, answers, kept);
      KeysAreIndependent(map[], meterOf, reqs, key);
      KeysAreIndependent(map[], meterOf, fewer, key);
      RejectedCallsAreInvisible(Get(map[], key), meterOf(key), TimesOf(key, reqs), KeptOf(key, reqs, kept));
    }
    AnswersAreByKey(fewer, others, Keep(answers, kept));
  }

  // ----- what a key's bucket remembers -----

  lemma {:induction false} TimesOfBoth(key: string, a: seq<Request>, b: seq<Request>)
    ensures TimesOf(key, a + b) == TimesOf(key, a) + TimesOf(key, b)
    decreases |a|
  {
    if a == [] {
      assert a + b == b;
    } else {
      assert (a + b)[1..] == a[1..] + b;
      TimesOfBoth(key, a[1..], b);
    }
  }

  /** The bucket of a key was refilled last at the key's last request. */
  lemma {:induction false} LastRefill(
    clients: map<string, Window>, meterOf: string -> Meter, reqs: seq<Request>, key: string)
    ensures var w, times := Get(Clients(clients, meterOf, reqs), key), TimesOf(key, reqs);
            if times == [] then w == Get(clients, key) else w.Some? && w.value.lastRefillAt == times[|times| - 1]
    decreases |reqs|
  {
    if reqs != [] {
      var next := ServeOne(clients, meterOf(reqs[0].key), reqs[0]).0;
      LastRefill(next, meterOf, reqs[1..], key);
      if reqs[0].key == key {
        assert TimesOf(key, reqs)[1..] == TimesOf(key, reqs[1..]);
      } else {
        assert Get(next, key) == Get(clients, key) && TimesOf(key, reqs) == TimesOf(key, reqs[1..]);
      }
    }
  }

  /** In a stretch of a run, a key finds its bucket ready for its requests if its clock readings are in
      order throughout. */
  lemma {:induction false} ReadyInStretch(
    meterOf: string -> Meter, before: seq<Request>, part: seq<Request>, answers: seq<Answer>, key: string)
    returns (w: Option<Window>)
    requires Linear(meterOf(key)) && Sorted(TimesOf(key, before + part))
    requires answers == Serve(map[], meterOf, before + part)[|before|..]
    ensures |answers| == |part| && AnswersOf(key, part, answers) == Drive(w, meterOf(key), TimesOf(key, part))
    ensures Ready(w, meterOf(key), TimesOf(key, part))
  {
    w := StretchOfKey(meterOf, before, part, answers, key);
    LastRefill(map[], meterOf, before, key);
    TimesOfBoth(key, before, part);
    var earlier, times := TimesOf(key, before), TimesOf(key, part);
    assert forall i :: 0 <= i < |times| ==> (earlier + times)[|earlier| + i] == times[i];
    if earlier != [] && times != [] { assert (earlier + times)[|earlier| - 1] == earlier[|earlier| - 1]; }
  }
}
