/**
 What the unknown-threat learner answers, and what it keeps, at every step of every run: in terms of the
 entry it finds, the respects in which the request deviates from it, and the settings.
 */
module ThreatVerdicts {
  import opened UnknownThreats
  import opened WafTypes
  import opened Wrappers

  // ----- the entry a request is judged by -----

  /** Was the entry last touched more than the retention ago? One without a date never was. */
  ghost predicate Stale(b: Baseline, now: nat, retention: nat) {
    b.lastObservedAt > 0 && b.lastObservedAt + retention < now
  }

  ghost predicate Kept(routes: map<string, Baseline>, shape: string, now: nat, retention: nat) {
    shape in routes && !Stale(routes[shape], now, retention)
  }

  ghost predicate MayLearn(c: Config, r: Request) {
    && c.enabled && (c.mode == Mode.Monitor || c.mode == Mode.Block)
    && r.policy.learningEnabled && r.eligible && r.sourceAllowed && !r.excluded
  }

  /** The entry without dates gets the current time as both. */
  ghost predicate IsDated(b: Baseline, dated: Baseline, now: nat) {
    && dated.firstObservedAt == (if b.firstObservedAt > 0 then b.firstObservedAt else now)
    && dated.lastObservedAt == (if b.lastObservedAt > 0 then b.lastObservedAt else now)
    && dated == b.(firstObservedAt := dated.firstObservedAt, lastObservedAt := dated.lastObservedAt)
  }

  ghost predicate IsBlank(b: Baseline) {
    && b.observations == b.firstObservedAt == b.lastObservedAt == b.bodySizes.maximum == 0
    && b.methods == b.contentTypes == b.queryParameters && b.methods.active == {} && b.methods.pending == map[]
    && b.bodySizes.pending == map[]
  }

  /** The entry of the route if it is kept; a blank one if the request may be learned and fewer routes
      than allowed are kept; else none. */
  ghost predicate IsJudgedBy(routes: map<string, Baseline>, c: Config, r: Request, now: nat, b: Option<Baseline>) {
    if Kept(routes, r.routeShape, now, c.retention) then
      b.Some? && IsDated(routes[r.routeShape], b.value, now)
    else if MayLearn(c, r) && |set k | k in routes && Kept(routes, k, now, c.retention)| < c.maxRoutes then
      b.Some? && IsBlank(b.value)
    else b == None
  }

  // ----- how the request deviates -----

  ghost predicate UnknownMethod(b: Baseline, r: Request) { r.httpMethod !in b.methods.active }

  ghost predicate UnknownContentType(b: Baseline, r: Request) {
    r.contentType != "" && r.contentType !in b.contentTypes.active
  }

  ghost predicate TooLarge(b: Baseline, c: Config, r: Request) {
    && b.bodySizes.maximum > 0
    && (r.bodySize > 18446744073709551615 || r.bodySize > b.bodySizes.maximum * c.bodySizeMultiplier)
  }

  ghost function Respects(b: Baseline, c: Config, r: Request): nat {
    (if UnknownMethod(b, r) then 1 else 0) + (if UnknownContentType(b, r) then 1 else 0)
    + (if CarriesUnknownParameter(b, r) then 1 else 0) + (if TooLarge(b, c, r) then 1 else 0)
  }

  /** The configured points of the respects in which the request deviates. */
  ghost function Points(b: Baseline, c: Config, r: Request): nat {
    (if UnknownMethod(b, r) then c.methodScore else 0)
    + (if UnknownContentType(b, r) then c.contentTypeScore else 0)
    + (if CarriesUnknownParameter(b, r) then c.queryParameterScore else 0)
    + (if TooLarge(b, c, r) then c.bodySizeScore else 0)
  }

  ghost predicate SignalsAre(b: Baseline, c: Config, r: Request, signals: seq<Signal>) {
    && |signals| == Respects(b, c, r)
    && (UnseenMethod in signals <==> UnknownMethod(b, r))
    && (UnseenContentType in signals <==> UnknownContentType(b, r))
    && (UnseenQueryParameter in signals <==> CarriesUnknownParameter(b, r))
    && (BodySizeDeviation in signals <==> TooLarge(b, c, r))
  }

  // ----- the verdict -----

  ghost function Observations(b: Option<Baseline>): nat { if b.Some? then b.value.observations else 0 }

  ghost predicate IsReady(b: Option<Baseline>, r: Request) { Observations(b) >= r.policy.minimumObservations }

  ghost predicate IsAnalysed(b: Option<Baseline>, c: Config, r: Request) {
    b.Some? && IsReady(b, r) && c.enabled && !r.excluded
  }

  ghost predicate IsActive(b: Option<Baseline>, c: Config, r: Request) {
    (c.mode == Mode.Monitor || c.mode == Mode.Block) && c.enabled && !r.excluded && IsReady(b, r)
  }

  ghost predicate OldEnough(b: Option<Baseline>, r: Request, now: nat) {
    r.policy.minimumAge == 0 || (b.Some? && b.value.firstObservedAt + r.policy.minimumAge <= now)
  }

  /** All that a block asks for, but the modes of store and server. */
  ghost predicate Condemns(b: Option<Baseline>, c: Config, r: Request, now: nat, respects: nat, points: nat) {
    && IsActive(b, c, r) && r.policy.highRisk && OldEnough(b, r, now)
    && Observations(b) >= r.policy.minimumBlockObservations
    && respects >= r.policy.minimumSignals && points >= r.policy.blockThreshold
  }

  /** What the outcome reports of the entry and of the request. */
  ghost predicate IsMeasured(b: Option<Baseline>, c: Config, r: Request, now: nat, o: Outcome) {
    && o.score == (if IsAnalysed(b, c, r) then Points(b.value, c, r) else 0)
    && (if IsAnalysed(b, c, r) then SignalsAre(b.value, c, r, o.signals) else o.signals == [])
    && o.baselineObservations == Observations(b) && (o.baselineReady <==> IsReady(b, r))
    && o.baselineAge == (if b.Some? && b.value.firstObservedAt <= now then now - b.value.firstObservedAt else 0)
  }

  /** What the outcome decides. */
  ghost predicate IsDecided(b: Option<Baseline>, c: Config, r: Request, now: nat, o: Outcome) {
    var respects := if IsAnalysed(b, c, r) then Respects(b.value, c, r) else 0;
    var points := if IsAnalysed(b, c, r) then Points(b.value, c, r) else 0;
    var blocks := Condemns(b, c, r, now, respects, points);
    && (o.wouldBlock <==> blocks)
    && (o.action == WafAction.Block <==>
         blocks && c.mode == Mode.Block && (r.serverMode == WafMode.Block || r.serverMode == WafMode.Strict))
    && (o.action == WafAction.Monitor <==>
         o.action != WafAction.Block && IsActive(b, c, r) && points >= r.policy.monitorThreshold)
  }

  /** The outcome, in full. */
  ghost predicate IsVerdict(b: Option<Baseline>, c: Config, r: Request, now: nat, o: Outcome) {
    IsMeasured(b, c, r, now, o) && IsDecided(b, c, r, now, o)
  }

  lemma {:induction false} KeptIsPruned(routes: map<string, Baseline>, now: nat, retention: nat)
    ensures Pruned(routes, now, retention).Keys == set k | k in routes && Kept(routes, k, now, retention)
    ensures forall k :: k in Pruned(routes, now, retention) ==>
      IsDated(routes[k], Pruned(routes, now, retention)[k], now)
  {
  }

  lemma {:induction false} EntryIsJudged(routes: map<string, Baseline>, c: Config, r: Request, now: nat)
    returns (b: Option<Baseline>)
    ensures b == Get(Prepared(routes, c, r, now), r.routeShape) && IsJudgedBy(routes, c, r, now, b)
  {
    KeptIsPruned(routes, now, c.retention);
    var pruned := Pruned(routes, now, c.retention);
    assert |pruned| == |pruned.Keys|;
    b := Get(Prepared(routes, c, r, now), r.routeShape);
  }

  function Listed(raised: bool, signal: Signal): seq<Signal> { if raised then [signal] else [] }

  lemma {:induction false} FourSignals(verb: bool, contentType: bool, parameter: bool, size: bool, c: Config)
    returns (signals: seq<Signal>)
    ensures signals == Listed(verb, UnseenMethod) + Listed(contentType, UnseenContentType)
                       + Listed(parameter, UnseenQueryParameter) + Listed(size, BodySizeDeviation)
    ensures |signals| == Flag(verb) + Flag(contentType) + Flag(parameter) + Flag(size)
    ensures (UnseenMethod in signals <==> verb) && (UnseenContentType in signals <==> contentType)
    ensures (UnseenQueryParameter in signals <==> parameter) && (BodySizeDeviation in signals <==> size)
    ensures ScoreOf(signals, c)
         == (if verb then c.methodScore else 0) + (if contentType then c.contentTypeScore else 0)
            + (if parameter then c.queryParameterScore else 0) + (if size then c.bodySizeScore else 0)
  {
    var two := Listed(verb, UnseenMethod) + Listed(contentType, UnseenContentType);
    var three := two + Listed(parameter, UnseenQueryParameter);
    signals := three + Listed(size, BodySizeDeviation);
    ScoreAdds(Listed(verb, UnseenMethod), Listed(contentType, UnseenContentType), c);
    ScoreAdds(two, Listed(parameter, UnseenQueryParameter), c);
    ScoreAdds(three, Listed(size, BodySizeDeviation), c);
  }

  lemma {:induction false} SignalsAreListed(b: Baseline, c: Config, r: Request)
    ensures Signals(b, c, r)
         == Listed(UnknownMethod(b, r), UnseenMethod) + Listed(UnknownContentType(b, r), UnseenContentType)
            + Listed(CarriesUnknownParameter(b, r), UnseenQueryParameter) + Listed(TooLarge(b, c, r), BodySizeDeviation)
  {
    ParameterIsListed(b, r);
  }

  lemma {:induction false} SignalsAreRespects(b: Baseline, c: Config, r: Request) returns (signals: seq<Signal>)
    ensures signals == Signals(b, c, r) && SignalsAre(b, c, r, signals)
    ensures ScoreOf(signals, c) == Points(b, c, r)
  {
    SignalsAreListed(b, c, r);
    signals := FourSignals(
      UnknownMethod(b, r), UnknownContentType(b, r), CarriesUnknownParameter(b, r), TooLarge(b, c, r), c);
  }

  lemma {:induction false} ParameterIsListed(b: Baseline, r: Request)
    ensures CarriesUnknownParameter(b, r)
       <==> exists i :: 0 <= i < |r.parameters| && r.parameters[i] !in b.queryParameters.active
  {
    if v :| v in r.parameters && v !in b.queryParameters.active {
      var i :| 0 <= i < |r.parameters| && r.parameters[i] == v;
    }
  }

  lemma {:induction false} ScoreAdds(a: seq<Signal>, b: seq<Signal>, c: Config)
    ensures ScoreOf(a + b, c) == ScoreOf(a, c) + ScoreOf(b, c)
    ensures |a| == 1 ==> ScoreOf(a, c) == match a[0]
                                          case UnseenMethod => c.methodScore
                                          case UnseenContentType => c.contentTypeScore
                                          case UnseenQueryParameter => c.queryParameterScore
                                          case BodySizeDeviation => c.bodySizeScore
    decreases |a|
  {
    if a == [] {
      assert a + b == b;
    } else {
      assert (a + b)[1..] == a[1..] + b;
      ScoreAdds(a[1..], b, c);
      assert |a| == 1 ==> a[1..] == [];
    }
  }

  lemma {:induction false} JudgedIsMeasured(b: Option<Baseline>, c: Config, r: Request, now: nat)
    ensures IsMeasured(b, c, r, now, Judged(b, c, r, now))
  {
    if b.Some? { var signals := SignalsAreRespects(b.value, c, r); }
  }

  lemma {:induction false} JudgedIsDecided(b: Option<Baseline>, c: Config, r: Request, now: nat)
    requires IsMeasured(b, c, r, now, Judged(b, c, r, now))
    ensures IsDecided(b, c, r, now, Judged(b, c, r, now))
  {
  }

  lemma {:induction false} JudgedIsVerdict(b: Option<Baseline>, c: Config, r: Request, now: nat)
    ensures IsVerdict(b, c, r, now, Judged(b, c, r, now))
  {
    JudgedIsMeasured(b, c, r, now);
    JudgedIsDecided(b, c, r, now);
  }

  /** Every outcome of every run is the verdict on the entry that the request is judged by. */
  lemma {:induction false} VerdictsAreExact(c: Config, run: Run, n: nat) returns (b: Option<Baseline>)
    requires IsRun(c, run) && n < |run.steps|
    ensures var r, now := run.steps[n].request, run.steps[n].now;
            IsJudgedBy(run.states[n], c, r, now, b) && IsVerdict(b, c, r, now, run.outcomes[n])
  {
    assert Follows(c, run, n);
    b := EntryIsJudged(run.states[n], c, run.steps[n].request, run.steps[n].now);
    JudgedIsVerdict(b, c, run.steps[n].request, run.steps[n].now);
  }

  // ----- what a step leaves -----

  /** The request is learned: it is counted and dated, in its route's entry. */
  ghost predicate IsCounted(b: Baseline, after: Baseline, now: nat) {
    && after.observations == (if b.observations < U64_MAX then b.observations + 1 else b.observations)
    && after.firstObservedAt == (if b.firstObservedAt > 0 then b.firstObservedAt else now)
    && after.lastObservedAt == now
  }

  lemma {:induction false} PreparedEntries(routes: map<string, Baseline>, c: Config, r: Request, now: nat)
    returns (prepared: map<string, Baseline>)
    ensures prepared == Prepared(routes, c, r, now) && IsJudgedBy(routes, c, r, now, Get(prepared, r.routeShape))
    ensures prepared.Keys == (set k | k in routes && Kept(routes, k, now, c.retention))
                             + (if r.routeShape in prepared then {r.routeShape} else {})
    ensures forall k :: k in prepared && k != r.routeShape ==> IsDated(routes[k], prepared[k], now)
  {
    var b := EntryIsJudged(routes, c, r, now);
    KeptIsPruned(routes, now, c.retention);
    prepared := Prepared(routes, c, r, now);
  }

  lemma {:induction false} LearnIsCounted(b: Baseline, r: Request, c: Config, now: nat)
    ensures IsCounted(b, Learn(b, r, c, now), now)
  {
  }

  /** What a step leaves of the entries: those kept and the one judged, and no others; only the judged one
      can change but for its dates, and does exactly if the request may be learned and raised no signal. */
  ghost predicate Leaves(
    before: map<string, Baseline>, after: map<string, Baseline>, c: Config, r: Request, now: nat,
    b: Option<Baseline>, signals: seq<Signal>)
  {
    && after.Keys == (set k | k in before && Kept(before, k, now, c.retention))
                     + (if b.Some? then {r.routeShape} else {})
    && (forall k :: k in after && k != r.routeShape ==> IsDated(before[k], after[k], now))
    && (b.Some? ==> if MayLearn(c, r) && signals == [] then IsCounted(b.value, after[r.routeShape], now)
                    else after[r.routeShape] == b.value)
  }

  lemma {:induction false} PreparedLeaves(
    before: map<string, Baseline>, prepared: map<string, Baseline>, c: Config, r: Request, now: nat,
    signals: seq<Signal>)
    requires prepared.Keys == (set k | k in before && Kept(before, k, now, c.retention))
                              + (if r.routeShape in prepared then {r.routeShape} else {})
    requires forall k :: k in prepared && k != r.routeShape ==> IsDated(before[k], prepared[k], now)
    ensures var b := Get(prepared, r.routeShape);
            var absorbs := b.Some? && MayLearn(c, r) && signals == [];
            var after := if absorbs then prepared[r.routeShape := Learn(b.value, r, c, now)] else prepared;
            Leaves(before, after, c, r, now, b, signals)
  {
    if r.routeShape in prepared { LearnIsCounted(prepared[r.routeShape], r, c, now); }
  }

  lemma {:induction false} StepsKeepAndLearn(c: Config, run: Run, n: nat) returns (b: Option<Baseline>)
    requires IsRun(c, run) && n < |run.steps|
    ensures var r, now := run.steps[n].request, run.steps[n].now;
            && IsJudgedBy(run.states[n], c, r, now, b)
            && Leaves(run.states[n], run.states[n + 1], c, r, now, b, run.outcomes[n].signals)
  {
    var r, now := run.steps[n].request, run.steps[n].now;
    assert Follows(c, run, n);
    var prepared := PreparedEntries(run.states[n], c, r, now);
    b := Get(prepared, r.routeShape);
    PreparedLeaves(run.states[n], prepared, c, r, now, run.outcomes[n].signals);
  }
}
