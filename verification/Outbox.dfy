/**
 The Console outbox of src/console/outbox.rs and the delivery of its events in
 src/console/client/requests.rs. The outbox file is the sequence of its lines; the Console's
 reply is an input.
 */
module Outbox {
  import opened Wrappers

  datatype Event = Event(requestId: string, body: string)

  datatype Request = Request(batchId: string, keys: seq<string>)

  datatype Acknowledgement = Acknowledgement(
    batchId: string, accepted: seq<string>, duplicate: seq<string>, rejected: seq<string>, retry: seq<string>)

  datatype AckError = BatchMismatch | UnknownKey | MultipleOutcomes

  /** What comes back for a batch: nothing, or a status with a body that may decode. */
  datatype Reply = NoReply | Reply(status: nat, body: Option<Acknowledgement>)

  // ----- keys -----

  function Ids(events: seq<Event>): seq<string> {
    seq(|events|, i requires 0 <= i < |events| => events[i].requestId)
  }

  ghost predicate Distinct(keys: seq<string>) {
    forall i, j :: 0 <= i < j < |keys| ==> keys[i] != keys[j]
  }

  function KeySet(keys: seq<string>): set<string> { set k | k in keys }

  function FirstOf<T>(s: seq<T>, limit: nat): seq<T> { if limit <= |s| then s[..limit] else s }

  function IdSet(events: seq<Event>): set<string> { set e | e in events :: e.requestId }

  /** The lines `remove_terminal` keeps. */
  function Without(events: seq<Event>, keys: set<string>): seq<Event> {
    if events == [] then []
    else (if events[0].requestId in keys then [] else [events[0]]) + Without(events[1..], keys)
  }

  lemma {:induction false} WithoutAppend(a: seq<Event>, b: seq<Event>, keys: set<string>)
    ensures Without(a + b, keys) == Without(a, keys) + Without(b, keys)
  {
    if a == [] {
      assert a + b == b;
    } else {
      assert (a + b)[1..] == a[1..] + b;
      WithoutAppend(a[1..], b, keys);
    }
  }

  lemma {:induction false} WithoutMembers(events: seq<Event>, keys: set<string>)
    ensures forall e :: e in Without(events, keys) <==> e in events && e.requestId !in keys
    ensures |Without(events, keys)| <= |events|
    ensures Without(events, keys) == events <==> IdSet(events) !! keys
    ensures Without(events, keys) == [] <==> IdSet(events) <= keys
  {
    if events != [] {
      WithoutMembers(events[1..], keys);
      assert events == [events[0]] + events[1..];
      assert IdSet(events) == {events[0].requestId} + IdSet(events[1..]);
      if events[0].requestId in keys {
        assert |Without(events, keys)| < |events|;
      }
    }
  }

  lemma {:induction false} WithoutMore(events: seq<Event>, a: set<string>, b: set<string>)
    ensures Without(Without(events, a), b) == Without(events, a + b)
  {
    if events != [] {
      WithoutMore(events[1..], a, b);
      WithoutAppend(if events[0].requestId in a then [] else [events[0]], Without(events[1..], a), b);
    }
  }

  // ----- acknowledgements -----

  function Outcomes(ack: Acknowledgement): seq<string> {
    ack.accepted + ack.duplicate + ack.rejected + ack.retry
  }

  /** The first fault met when the outcome lists are read in order. */
  function FirstFault(keys: seq<string>, requested: set<string>, observed: set<string>): Option<AckError>
    decreases |keys|
  {
    if keys == [] then None
    else if keys[0] !in requested then Some(UnknownKey)
    else if keys[0] in observed then Some(MultipleOutcomes)
    else FirstFault(keys[1..], requested, observed + {keys[0]})
  }

  function TerminalKeys(request: Request, ack: Acknowledgement): Result<set<string>, AckError> {
    if ack.batchId != request.batchId then Err(BatchMismatch)
    else
      var fault := FirstFault(Outcomes(ack), KeySet(request.keys), {});
      if fault.Some? then Err(fault.value) else Ok(KeySet(ack.accepted + ack.duplicate + ack.rejected))
  }

  lemma {:induction false} DistinctCons(keys: seq<string>)
    requires keys != []
    ensures Distinct(keys) <==> Distinct(keys[1..]) && keys[0] !in keys[1..]
  {
  }

  lemma {:induction false} NoFault(keys: seq<string>, requested: set<string>, observed: set<string>)
    ensures FirstFault(keys, requested, observed).None?
       <==> Distinct(keys) && forall k :: k in keys ==> k in requested && k !in observed
    decreases |keys|
  {
    if keys != [] {
      NoFault(keys[1..], requested, observed + {keys[0]});
      DistinctCons(keys);
      assert forall k :: k in keys <==> k == keys[0] || k in keys[1..];
    }
  }

  lemma {:induction false} FaultOfTwo(a: seq<string>, b: seq<string>, requested: set<string>, observed: set<string>)
    ensures FirstFault(a + b, requested, observed)
         == if FirstFault(a, requested, observed).Some? then FirstFault(a, requested, observed)
            else FirstFault(b, requested, observed + KeySet(a))
    decreases |a|
  {
    if a == [] {
      assert a + b == b && observed + KeySet(a) == observed;
    } else {
      assert (a + b)[1..] == a[1..] + b;
      assert observed + {a[0]} + KeySet(a[1..]) == observed + KeySet(a) by { assert a == [a[0]] + a[1..]; }
      FaultOfTwo(a[1..], b, requested, observed + {a[0]});
    }
  }

  lemma {:induction false} DisjointParts(a: seq<string>, b: seq<string>)
    requires Distinct(a + b)
    ensures KeySet(a) !! KeySet(b)
  {
    forall i, j | 0 <= i < |a| && 0 <= j < |b| ensures a[i] != b[j] {
      assert (a + b)[i] == a[i] && (a + b)[|a| + j] == b[j];
    }
  }

  /** An acknowledgement is taken exactly when it is for this batch and gives each key of the batch
      at most one outcome and no other key any; what it ends is a part of the batch. */
  lemma {:induction false} AcceptedAcknowledgements(request: Request, ack: Acknowledgement)
    ensures TerminalKeys(request, ack).Ok? <==>
      ack.batchId == request.batchId && Distinct(Outcomes(ack)) && forall k :: k in Outcomes(ack) ==> k in request.keys
    ensures TerminalKeys(request, ack).Ok? ==>
      && TerminalKeys(request, ack).value <= KeySet(request.keys)
      && TerminalKeys(request, ack).value !! KeySet(ack.retry)
  {
    NoFault(Outcomes(ack), KeySet(request.keys), {});
    var terminal := ack.accepted + ack.duplicate + ack.rejected;
    assert Outcomes(ack) == terminal + ack.retry;
    if TerminalKeys(request, ack).Ok? { DisjointParts(terminal, ack.retry); }
  }

  /** The inner loop: one list of keys that share an outcome. */
  method ReadKeys(
    keys: seq<string>, isTerminal: bool, requested: set<string>, observed0: set<string>, terminal0: set<string>)
    returns (fault: Option<AckError>, observed: set<string>, terminal: set<string>)
    ensures fault == FirstFault(keys, requested, observed0)
    ensures fault.None? ==> observed == observed0 + KeySet(keys)
    ensures fault.None? ==> terminal == terminal0 + if isTerminal then KeySet(keys) else {}
  {
    observed, terminal := observed0, terminal0;
    var i := 0;
    while i < |keys|
      invariant 0 <= i <= |keys|
      invariant FirstFault(keys[i..], requested, observed) == FirstFault(keys, requested, observed0)
      invariant observed == observed0 + KeySet(keys[..i])
      invariant terminal == terminal0 + if isTerminal then KeySet(keys[..i]) else {}
    {
      assert keys[i..][1..] == keys[i + 1..] && keys[..i + 1] == keys[..i] + [keys[i]];
      if keys[i] !in requested { return Some(UnknownKey), observed, terminal; }
      if keys[i] in observed { return Some(MultipleOutcomes), observed, terminal; }
      observed := observed + {keys[i]};
      if isTerminal { terminal := terminal + {keys[i]}; }
      i := i + 1;
    }
    assert keys[..i] == keys;
    fault := None;
  }

  /** The outcome lists from the l-th on. */
  function OutcomesFrom(ack: Acknowledgement, l: nat): seq<string> {
    (if l == 0 then ack.accepted else []) + (if l <= 1 then ack.duplicate else [])
    + (if l <= 2 then ack.rejected else []) + (if l <= 3 then ack.retry else [])
  }

  method TerminalAcknowledgementKeys(request: Request, ack: Acknowledgement) returns (r: Result<set<string>, AckError>)
    ensures r == TerminalKeys(request, ack)
  {
    if ack.batchId != request.batchId { return Err(BatchMismatch); }
    var requested := KeySet(request.keys);
    var observed, terminal: set<string> := {}, {};
    var lists := [(ack.accepted, true), (ack.duplicate, true), (ack.rejected, true), (ack.retry, false)];
    var l := 0;
    assert OutcomesFrom(ack, 0) == Outcomes(ack);
    while l < 4
      invariant 0 <= l <= 4
      invariant FirstFault(OutcomesFrom(ack, l), requested, observed) == FirstFault(Outcomes(ack), requested, {})
      invariant terminal == (if l > 0 then KeySet(ack.accepted) else {}) + (if l > 1 then KeySet(ack.duplicate) else {})
                          + if l > 2 then KeySet(ack.rejected) else {}
    {
      var (keys, isTerminal) := lists[l];
      FaultOfTwo(keys, OutcomesFrom(ack, l + 1), requested, observed);
      assert keys + OutcomesFrom(ack, l + 1) == OutcomesFrom(ack, l);
      var fault: Option<AckError>;
      fault, observed, terminal := ReadKeys(keys, isTerminal, requested, observed, terminal);
      if fault.Some? { return Err(fault.value); }
      l := l + 1;
    }
    assert terminal == KeySet(ack.accepted + ack.duplicate + ack.rejected);
    return Ok(terminal);
  }

  // ----- one delivery -----

  /** `EventIngestRequest::validate(500)`; the other checks it makes are an input. */
  ghost predicate ValidBatch(request: Request, otherChecks: bool) {
    0 < |request.keys| <= 500 && Distinct(request.keys) && otherChecks
  }

  /** The keys a reply ends, or None when delivery fails. */
  function Ended(request: Request, reply: Reply): Option<set<string>> {
    if reply.NoReply? || !(200 <= reply.status < 300 || reply.status == 429 || reply.status == 503) || reply.body.None?
    then None
    else
      var terminal := TerminalKeys(request, reply.body.value);
      if terminal.Ok? then Some(terminal.value) else None
  }

  /** Is the status one that a batch is answered with? */
  ghost predicate Answers(status: nat) {
    (status >= 200 && status <= 299) || status == 429 || status == 503
  }

  /** Does the reply give keys of this batch outcomes, and no key two? */
  ghost predicate Fits(request: Request, reply: Reply) {
    && reply.Reply? && Answers(reply.status) && reply.body.Some? && reply.body.value.batchId == request.batchId
    && Distinct(Outcomes(reply.body.value))
    && forall k :: k in Outcomes(reply.body.value) ==> k in request.keys
  }

  /** A reply ends keys exactly if it fits the batch, and then those that were accepted, known already or
      rejected: whether other keys are to be retried or not. */
  lemma {:induction false} RepliesEndKeys(request: Request, reply: Reply)
    ensures Ended(request, reply).Some? <==> Fits(request, reply)
    ensures Fits(request, reply) ==>
      forall k :: k in Ended(request, reply).value <==>
        || k in reply.body.value.accepted || k in reply.body.value.duplicate || k in reply.body.value.rejected
  {
    if reply.Reply? && reply.body.Some? { AcceptedAcknowledgements(request, reply.body.value); }
  }

  /** The first fault of an acknowledgement: the first key that is not of the batch or was there before. */
  lemma {:induction false} FaultIsFirst(keys: seq<string>, requested: set<string>, observed: set<string>)
    returns (i: nat)
    ensures i <= |keys|
    ensures forall j :: 0 <= j < i ==> keys[j] in requested && keys[j] !in observed && keys[j] !in keys[..j]
    ensures i == |keys| <==> FirstFault(keys, requested, observed) == None
    ensures i < |keys| ==>
      && (keys[i] !in requested || keys[i] in observed || keys[i] in keys[..i])
      && FirstFault(keys, requested, observed) == Some(if keys[i] in requested then MultipleOutcomes else UnknownKey)
    decreases |keys|
  {
    if keys == [] || keys[0] !in requested || keys[0] in observed {
      i := 0;
    } else {
      i := FaultIsFirst(keys[1..], requested, observed + {keys[0]});
      i := i + 1;
      assert forall j :: 0 < j < i ==> keys[j] == keys[1..][j - 1] && keys[..j] == [keys[0]] + keys[1..][..j - 1];
      if i < |keys| { assert keys[..i] == [keys[0]] + keys[1..][..i - 1]; }
    }
  }

  /** What concluding a batch makes of the outbox, as it stands by then. */
  function Concluded(events: seq<Event>, request: Request, reply: Reply): seq<Event> {
    match Ended(request, reply)
    case None => events
    case Some(keys) => Without(events, keys)
  }

  class ConsoleOutbox {
    var events: seq<Event>

    constructor ()
      ensures events == []
    {
      events := [];
    }

    method Append(e: Event)
      modifies this
      ensures events == old(events) + [e]
    {
      events := events + [e];
    }

    method Batch(limit: nat) returns (batch: seq<Event>)
      ensures batch == FirstOf(events, limit)
    {
      batch := [];
      var i := 0;
      while i < |events| && i < limit
        invariant 0 <= i <= |events| && i <= limit && batch == events[..i]
      {
        batch := batch + [events[i]];
        i := i + 1;
      }
    }

    method RemoveTerminal(keys: set<string>)
      modifies this
      ensures events == Without(old(events), keys)
    {
      if keys == {} {
        WithoutMembers(events, keys);
        return;
      }
      var target: seq<Event> := [];
      var i := 0;
      assert events[..0] == [];
      while i < |events|
        invariant 0 <= i <= |events| && events == old(events) && target == Without(events[..i], keys)
      {
        WithoutAppend(events[..i], [events[i]], keys);
        assert events[..i + 1] == events[..i] + [events[i]];
        if events[i].requestId !in keys { target := target + [events[i]]; }
        i := i + 1;
      }
      assert events[..i] == events;
      events := target;
    }
  }

  // ----- conservation over every interleaving -----

  /** Appends, batches taken by any number of deliveries, and the replies to them, in any order. */
  datatype Step =
    | AppendStep(e: Event)
    | TakeStep(delivery: nat, limit: nat, batchId: string, otherChecks: bool)
    | ConcludeStep(delivery: nat, reply: Reply)

  datatype State = State(events: seq<Event>, inFlight: map<nat, Request>)

  ghost function Next(s: State, step: Step): State {
    match step
    case AppendStep(e) => s.(events := s.events + [e])
    case TakeStep(d, limit, batchId, otherChecks) =>
      var request := Request(batchId, Ids(FirstOf(s.events, limit)));
      if ValidBatch(request, otherChecks) then s.(inFlight := s.inFlight[d := request]) else s
    case ConcludeStep(d, reply) =>
      if d !in s.inFlight then s
      else State(Concluded(s.events, s.inFlight[d], reply), s.inFlight - {d})
  }

  /** The keys the step ends: sent in a batch, and given a terminal outcome by an accepted reply. */
  function EndedBy(s: State, step: Step): set<string> {
    if step.ConcludeStep? && step.delivery in s.inFlight && Ended(s.inFlight[step.delivery], step.reply).Some?
    then Ended(s.inFlight[step.delivery], step.reply).value else {}
  }

  ghost function Run(s: State, steps: seq<Step>): State
    decreases |steps|
  {
    if steps == [] then s else Run(Next(s, steps[0]), steps[1..])
  }

  ghost function EndedIn(s: State, steps: seq<Step>): set<string>
    decreases |steps|
  {
    if steps == [] then {} else EndedBy(s, steps[0]) + EndedIn(Next(s, steps[0]), steps[1..])
  }

  function AppendedBy(step: Step): seq<Event> { if step.AppendStep? then [step.e] else [] }

  function AppendedIn(steps: seq<Step>): seq<Event> {
    if steps == [] then [] else AppendedBy(steps[0]) + AppendedIn(steps[1..])
  }

  /** The outbox is the history less what ended, and batches in flight hold keys of the history. */
  ghost predicate Conserved(s: State, history: seq<Event>, ended: set<string>) {
    && s.events == Without(history, ended)
    && ended <= IdSet(history)
    && forall d :: d in s.inFlight ==> KeySet(s.inFlight[d].keys) <= IdSet(history)
  }

  lemma {:induction false} TakenKeys(events: seq<Event>, history: seq<Event>, ended: set<string>, limit: nat)
    requires events == Without(history, ended)
    ensures KeySet(Ids(FirstOf(events, limit))) <= IdSet(history)
  {
    WithoutMembers(history, ended);
    var keys := Ids(FirstOf(events, limit));
    forall k | k in keys ensures k in IdSet(history) {
      var i :| 0 <= i < |keys| && keys[i] == k;
      assert events[i] in events;
    }
  }

  lemma {:induction false} StepConserves(s: State, step: Step, history: seq<Event>, ended: set<string>)
    requires Conserved(s, history, ended)
    requires step.AppendStep? ==> step.e.requestId !in IdSet(history)
    ensures Conserved(Next(s, step), history + AppendedBy(step), ended + EndedBy(s, step))
  {
    match step
    case AppendStep(e) =>
      assert ended + {} == ended;
      WithoutAppend(history, [e], ended);
      assert IdSet(history + [e]) == IdSet(history) + {e.requestId};
    case TakeStep(d, limit, batchId, otherChecks) =>
      TakenKeys(s.events, history, ended, limit);
      assert history + [] == history && ended + {} == ended;
    case ConcludeStep(d, reply) =>
      assert history + [] == history && ended + {} == ended;
      if d in s.inFlight && Ended(s.inFlight[d], reply).Some? {
        AcceptedAcknowledgements(s.inFlight[d], reply.body.value);
        WithoutMore(history, ended, EndedBy(s, step));
      }
  }

  lemma {:induction false} RunConserves(s: State, steps: seq<Step>, history: seq<Event>, ended: set<string>)
    requires Conserved(s, history, ended) && Distinct(Ids(history + AppendedIn(steps)))
    ensures Conserved(Run(s, steps), history + AppendedIn(steps), ended + EndedIn(s, steps))
    decreases |steps|
  {
    if steps == [] {
      assert history + [] == history && ended + {} == ended;
    } else {
      var first, rest := AppendedBy(steps[0]), AppendedIn(steps[1..]);
      assert history + AppendedIn(steps) == history + first + rest;
      if steps[0].AppendStep? { FreshId(history, steps[0].e, rest); }
      StepConserves(s, steps[0], history, ended);
      RunConserves(Next(s, steps[0]), steps[1..], history + first, ended + EndedBy(s, steps[0]));
      assert ended + EndedIn(s, steps) == ended + EndedBy(s, steps[0]) + EndedIn(Next(s, steps[0]), steps[1..]);
    }
  }

  lemma {:induction false} FreshId(history: seq<Event>, e: Event, rest: seq<Event>)
    requires Distinct(Ids(history + [e] + rest))
    ensures e.requestId !in IdSet(history)
  {
    var all := Ids(history + [e] + rest);
    assert all[|history|] == e.requestId;
    forall i | 0 <= i < |history| ensures history[i].requestId != e.requestId { assert all[i] == history[i].requestId; }
  }

  /** Outbox conservation. From an empty outbox, whatever interleaving of appends, batches and
      replies, if all appended request ids differ, the outbox is what was appended, in order, less
      exactly the keys that were sent and given a terminal outcome. */
  lemma {:induction false} OutboxConservesEvents(steps: seq<Step>)
    requires Distinct(Ids(AppendedIn(steps)))
    ensures Run(State([], map[]), steps).events == Without(AppendedIn(steps), EndedIn(State([], map[]), steps))
  {
    assert [] + AppendedIn(steps) == AppendedIn(steps);
    RunConserves(State([], map[]), steps, [], {});
    assert {} + EndedIn(State([], map[]), steps) == EndedIn(State([], map[]), steps);
  }

  /** The uniqueness check of `EventIngestRequest::validate`. */
  method KeysDiffer(keys: seq<string>) returns (differ: bool)
    ensures differ == Distinct(keys)
  {
    var unique: set<string> := {};
    var i := 0;
    while i < |keys|
      invariant 0 <= i <= |keys| && unique == KeySet(keys[..i]) && Distinct(keys[..i])
    {
      if keys[i] in unique { return false; }
      assert keys[..i + 1] == keys[..i] + [keys[i]];
      unique := unique + {keys[i]};
      i := i + 1;
    }
    assert keys[..i] == keys;
    return true;
  }

  /** One `deliver_batch` without interruption is a take followed by its conclusion. The count it
      returns is the number of keys that ended; None stands for its errors. */
  method DeliverBatch(
    outbox: ConsoleOutbox, batchSize: nat, batchId: string, otherChecks: bool, respond: Request -> Reply)
    returns (delivered: Option<nat>)
    modifies outbox
    ensures var taken := Next(State(old(outbox.events), map[]), TakeStep(0, batchSize, batchId, otherChecks));
            var request := Request(batchId, Ids(FirstOf(old(outbox.events), batchSize)));
            && outbox.events == Next(taken, ConcludeStep(0, respond(request))).events
            && (delivered == if FirstOf(old(outbox.events), batchSize) == [] then Some(0)
                             else if 0 in taken.inFlight && Ended(request, respond(request)).Some?
                             then Some(|Ended(request, respond(request)).value|) else None)
  {
    var events := outbox.Batch(batchSize);
    if events == [] { return Some(0); }
    var request := Request(batchId, Ids(events));
    var differ := KeysDiffer(request.keys);
    if !otherChecks || |request.keys| > 500 || !differ { return None; }
    match respond(request)
    case NoReply => return None;
    case Reply(status, body) =>
      if !(200 <= status < 300 || status == 429 || status == 503) || body.None? { return None; }
      var terminal := TerminalAcknowledgementKeys(request, body.value);
      if terminal.Err? { return None; }
      outbox.RemoveTerminal(terminal.value);
      return Some(|terminal.value|);
  }

  // ----- what goes wrong when two records share an id -----

  /** Concluding a batch takes nothing but lines of the batch exactly when no later line carries a
      key that ends. */
  lemma {:induction false} TakesOnlyTheBatch(batch: seq<Event>, later: seq<Event>, ended: set<string>)
    ensures Without(batch + later, ended) == Without(batch, ended) + later <==> IdSet(later) !! ended
  {
    WithoutAppend(batch, later, ended);
    WithoutMembers(later, ended);
    var kept := Without(batch, ended);
    assert (kept + Without(later, ended))[|kept|..] == Without(later, ended) && (kept + later)[|kept|..] == later;
  }

  /** A monitored request that fails validation is recorded twice under one id. If a batch boundary
      separates the two records, acknowledging the first removes the second unsent. */
  lemma {:induction false} SecondRecordIsLost(id: string, first: string, second: string)
    ensures var request := Request("batch", [id]);
            var taken := State([Event(id, first), Event(id, second)], map[0 := request]);
            && taken == Next(State([Event(id, first), Event(id, second)], map[]), TakeStep(0, 1, "batch", true))
            && Next(taken, ConcludeStep(0, Reply(200, Some(Acknowledgement("batch", [id], [], [], []))))).events == []
  {
    var events, request := [Event(id, first), Event(id, second)], Request("batch", [id]);
    var ack := Acknowledgement("batch", [id], [], [], []);
    assert Ids(FirstOf(events, 1)) == [id];
    AcceptedAcknowledgements(request, ack);
    assert Outcomes(ack) == [id] && ack.accepted + ack.duplicate + ack.rejected == [id];
    assert Ended(request, Reply(200, Some(ack))) == Some(KeySet([id]));
    WithoutMembers(events, KeySet([id]));
  }

  /** No request with the first `limit` events validates: an id is repeated, or there are over 500. */
  ghost predicate Stuck(events: seq<Event>, limit: nat) {
    !Distinct(Ids(FirstOf(events, limit))) || |FirstOf(events, limit)| > 500
  }

  /** If the two records share a batch, or a batch may hold more than 500, the request never validates:
      from then on no delivery of that size or more removes anything, whatever is appended and however
      the Console replies. */
  lemma {:induction false} SharedBatchStalls(s: State, steps: seq<Step>, limit: nat)
    requires s.inFlight == map[] && Stuck(s.events, limit)
    requires forall i :: 0 <= i < |steps| && steps[i].TakeStep? ==> steps[i].limit >= limit
    ensures Run(s, steps) == State(s.events + AppendedIn(steps), map[])
    decreases |steps|
  {
    if steps == [] {
      assert s.events + [] == s.events;
    } else {
      var first, rest := AppendedBy(steps[0]), AppendedIn(steps[1..]);
      StalledStep(s, steps[0], limit);
      SharedBatchStalls(State(s.events + first, map[]), steps[1..], limit);
      assert s.events + first + rest == s.events + (first + rest);
    }
  }

  lemma {:induction false} StuckWithMore(events: seq<Event>, more: seq<Event>, limit: nat, larger: nat)
    requires Stuck(events, limit) && larger >= limit
    ensures Stuck(events + more, larger)
  {
    var keys, next := Ids(FirstOf(events, limit)), FirstOf(events + more, larger);
    assert forall i :: 0 <= i < |keys| ==> next[i] == events[i] && Ids(next)[i] == keys[i];
  }

  lemma {:induction false} StalledStep(s: State, step: Step, limit: nat)
    requires s.inFlight == map[] && Stuck(s.events, limit)
    requires step.TakeStep? ==> step.limit >= limit
    ensures Next(s, step) == State(s.events + AppendedBy(step), map[])
    ensures Stuck(Next(s, step).events, limit)
  {
    assert s.events + [] == s.events;
    StuckWithMore(s.events, AppendedBy(step), limit, limit);
    if step.TakeStep? { StuckWithMore(s.events, [], limit, step.limit); }
  }

  // ----- draining -----

  /** One delivery: what the batch is called, whether it passes the other checks, and the reply. */
  datatype Round = Round(batchId: string, otherChecks: bool, reply: Reply)

  /** The deliveries of the rounds, one after the other and with nothing in between. */
  function Deliveries(limit: nat, rounds: seq<Round>): seq<Step> {
    if rounds == [] then []
    else
      [TakeStep(0, limit, rounds[0].batchId, rounds[0].otherChecks), ConcludeStep(0, rounds[0].reply)]
      + Deliveries(limit, rounds[1..])
  }

  /** The reply is for the batch and gives each of its keys one terminal outcome. */
  ghost predicate Settles(reply: Reply, request: Request) {
    && reply.Reply? && (200 <= reply.status < 300 || reply.status == 429 || reply.status == 503) && reply.body.Some?
    && var ack := reply.body.value;
       ack.batchId == request.batchId && ack.retry == [] && Distinct(Outcomes(ack))
       && KeySet(ack.accepted + ack.duplicate + ack.rejected) == KeySet(request.keys)
  }

  /** The batch of the round, if there is one, passes the other checks and is settled by the reply. */
  ghost predicate RoundSettles(events: seq<Event>, limit: nat, round: Round) {
    events != [] ==>
      round.otherChecks && Settles(round.reply, Request(round.batchId, Ids(FirstOf(events, limit))))
  }

  /** The events after the first total of them. */
  function Beyond(events: seq<Event>, total: nat): seq<Event> {
    events[if total <= |events| then total else |events|..]
  }

  /** Each round settles the next batch of the limit that the events are cut into. */
  ghost predicate AllSettle(events: seq<Event>, limit: nat, rounds: seq<Round>)
    decreases |rounds|
  {
    rounds == [] ||
    (RoundSettles(events, limit, rounds[0]) && AllSettle(Beyond(events, limit), limit, rounds[1..]))
  }

  lemma {:induction false} SettledEndsAll(request: Request, reply: Reply)
    requires Settles(reply, request)
    ensures Ended(request, reply) == Some(KeySet(request.keys))
  {
    var ack := reply.body.value;
    var terminal := ack.accepted + ack.duplicate + ack.rejected;
    assert Outcomes(ack) == terminal + [] == terminal;
    forall k | k in Outcomes(ack) ensures k in request.keys { assert k in KeySet(terminal); }
    AcceptedAcknowledgements(request, ack);
  }

  /** A settled delivery of a sendable batch leaves the outbox without it. */
  lemma {:induction false} OneRound(events: seq<Event>, limit: nat, round: Round)
    requires Distinct(Ids(events)) && 0 < limit <= 500
    requires RoundSettles(events, limit, round)
    ensures Next(Next(State(events, map[]), TakeStep(0, limit, round.batchId, round.otherChecks)),
                 ConcludeStep(0, round.reply)) == State(Beyond(events, limit), map[])
    ensures Distinct(Ids(Beyond(events, limit)))
  {
    var s, batch := State(events, map[]), FirstOf(events, limit);
    var later, request := events[|batch|..], Request(round.batchId, Ids(batch));
    var taken := Next(s, TakeStep(0, limit, round.batchId, round.otherChecks));
    assert events == batch + later;
    RoundTakesBatch(batch, later);
    if events != [] {
      assert forall i :: 0 <= i < |batch| ==> Ids(batch)[i] == Ids(events)[i];
      SettledEndsAll(request, round.reply);
      assert taken.inFlight == map[0 := request] && map[0 := request] - {0} == map[];
    }
  }

  lemma {:induction false} RoundTakesBatch(batch: seq<Event>, later: seq<Event>)
    requires Distinct(Ids(batch + later))
    ensures Without(batch + later, KeySet(Ids(batch))) == later && Distinct(Ids(later))
  {
    assert Ids(batch + later) == Ids(batch) + Ids(later);
    DisjointParts(Ids(batch), Ids(later));
    SameIds(batch);
    SameIds(later);
    WithoutAppend(batch, later, KeySet(Ids(batch)));
    WithoutMembers(batch, KeySet(Ids(batch)));
    WithoutMembers(later, KeySet(Ids(batch)));
    assert forall i :: 0 <= i < |later| ==> Ids(later)[i] == Ids(batch + later)[|batch| + i];
  }

  lemma {:induction false} SameIds(events: seq<Event>)
    ensures KeySet(Ids(events)) == IdSet(events)
  {
    forall i | 0 <= i < |events| ensures events[i].requestId in Ids(events) {
      assert Ids(events)[i] == events[i].requestId;
    }
  }

  lemma {:induction false} MoreRounds(k: nat, limit: nat)
    requires k > 0
    ensures k * limit == limit + (k - 1) * limit && (k - 1) * limit >= 0
  {
  }

  lemma {:induction false} BeyondTwice(events: seq<Event>, limit: nat, total: nat)
    ensures Beyond(Beyond(events, limit), total) == Beyond(events, limit + total)
  {
  }

  lemma {:induction false} TwoSteps(s: State, take: Step, conclude: Step, rest: seq<Step>)
    ensures Run(s, [take, conclude] + rest) == Run(Next(Next(s, take), conclude), rest)
  {
    var steps := [take, conclude] + rest;
    assert steps[1..] == [conclude] + rest && ([conclude] + rest)[1..] == rest;
    assert Run(s, steps) == Run(Next(s, take), steps[1..]);
  }

  lemma {:induction false} FirstRound(events: seq<Event>, limit: nat, rounds: seq<Round>) returns (next: seq<Event>)
    requires Distinct(Ids(events)) && 0 < limit <= 500
    requires rounds != [] && AllSettle(events, limit, rounds)
    ensures Run(State(events, map[]), Deliveries(limit, rounds))
         == Run(State(next, map[]), Deliveries(limit, rounds[1..]))
    ensures next == Beyond(events, limit) && Distinct(Ids(next)) && AllSettle(next, limit, rounds[1..])
  {
    var round := rounds[0];
    OneRound(events, limit, round);
    next := Beyond(events, limit);
    TwoSteps(State(events, map[]), TakeStep(0, limit, round.batchId, round.otherChecks),
             ConcludeStep(0, round.reply), Deliveries(limit, rounds[1..]));
  }

  /** The events without k batches of the limit. */
  function BeyondRounds(events: seq<Event>, limit: nat, k: nat): seq<Event>
    decreases k
  {
    if k == 0 then events else BeyondRounds(Beyond(events, limit), limit, k - 1)
  }

  /** How many events k batches of the limit hold at most. */
  function Rounded(k: nat, limit: nat): (total: nat) {
    if k == 0 then 0 else limit + Rounded(k - 1, limit)
  }

  lemma {:induction false} RoundedIsProduct(k: nat, limit: nat)
    ensures Rounded(k, limit) == k * limit
    decreases k
  {
    if k > 0 {
      RoundedIsProduct(k - 1, limit);
      MoreRounds(k, limit);
    }
  }

  lemma {:induction false} BeyondRoundsIsBeyond(events: seq<Event>, limit: nat, k: nat)
    ensures BeyondRounds(events, limit, k) == Beyond(events, Rounded(k, limit))
    decreases k
  {
    if k == 0 {
      assert events[0..] == events;
    } else {
      BeyondRoundsIsBeyond(Beyond(events, limit), limit, k - 1);
      BeyondTwice(events, limit, Rounded(k - 1, limit));
    }
  }

  lemma {:induction false} BatchesAreBeyond(events: seq<Event>, limit: nat, k: nat, total: nat)
    requires total == k * limit
    ensures BeyondRounds(events, limit, k) == Beyond(events, total)
    ensures Beyond(events, total) == [] <==> total >= |events|
  {
    BeyondRoundsIsBeyond(events, limit, k);
    RoundedIsProduct(k, limit);
  }

  lemma {:induction false} Drains(events: seq<Event>, limit: nat, rounds: seq<Round>) returns (left: seq<Event>)
    requires 0 < limit <= 500
    ensures left == BeyondRounds(events, limit, |rounds|)
    ensures Distinct(Ids(events)) && AllSettle(events, limit, rounds) ==>
              Run(State(events, map[]), Deliveries(limit, rounds)) == State(left, map[])
    decreases |rounds|
  {
    if rounds == [] {
      left := events;
    } else {
      if Distinct(Ids(events)) && AllSettle(events, limit, rounds) {
        left := FirstRound(events, limit, rounds);
      }
      left := Drains(Beyond(events, limit), limit, rounds[1..]);
    }
  }

  /** With distinct ids, a limit that configuration validation allows, no appends, and a terminal
      outcome for all that is sent, the deliveries of k rounds leave the outbox without its first
      k * limit events: n events are gone exactly when k * limit >= n, after ceil(n / limit) rounds. */
  lemma {:induction false} DrainsInRounds(events: seq<Event>, limit: nat, rounds: seq<Round>, total: nat)
    requires Distinct(Ids(events)) && 0 < limit <= 500 && total == |rounds| * limit
    requires AllSettle(events, limit, rounds)
    ensures Run(State(events, map[]), Deliveries(limit, rounds)) == State(Beyond(events, total), map[])
    ensures Beyond(events, total) == [] <==> total >= |events|
  {
    BatchesAreBeyond(events, limit, |rounds|, total);
    var left := Drains(events, limit, rounds);
  }
}
