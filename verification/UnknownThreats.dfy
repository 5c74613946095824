/**
 The unknown-threat baseline learner of src/unknown_threats/eval.rs. A request carries its
 normalized features and the route policy resolved for its path; times are positive seconds.
 */
module UnknownThreats {
  import opened Wrappers
  import opened WafTypes

  const USIZE_MAX: nat := U64_MAX
  const MAX_BODY_BUCKETS: nat := 32

  datatype Mode = Off | Monitor | Block

  datatype Signal = UnseenMethod | UnseenContentType | UnseenQueryParameter | BodySizeDeviation

  /** `Config` is fixed for a store. */
  datatype Config = Config(
    enabled: bool, mode: Mode, retention: nat, promotion: nat, maxRoutes: nat,
    maxMethods: nat, maxContentTypes: nat, maxQueryParameters: nat, bodySizeMultiplier: nat,
    methodScore: nat, contentTypeScore: nat, queryParameterScore: nat, bodySizeScore: nat)

  /** The route settings in force for a path: overrides where the path has them. */
  datatype RoutePolicy = RoutePolicy(
    minimumObservations: nat, monitorThreshold: nat, blockThreshold: nat, minimumSignals: nat,
    minimumAge: nat, minimumBlockObservations: nat, highRisk: bool, learningEnabled: bool)

  /** `contentType` is empty when absent; `parameters` are distinct names in order. */
  datatype Request = Request(
    routeShape: string, httpMethod: string, contentType: string, parameters: seq<string>, bodySize: nat,
    eligible: bool, sourceAllowed: bool, excluded: bool, serverMode: WafMode, policy: RoutePolicy)

  /** A bounded set of learned values and the counts of values not yet promoted. */
  datatype Features = Features(active: set<string>, pending: map<string, nat>)

  /** The learned body size and the counts of larger size buckets. */
  datatype BodySizes = BodySizes(maximum: nat, pending: map<nat, nat>)

  datatype Baseline = Baseline(
    observations: nat, firstObservedAt: nat, lastObservedAt: nat,
    methods: Features, contentTypes: Features, queryParameters: Features, bodySizes: BodySizes)

  const EMPTY_FEATURES := Features({}, map[])
  const NEW_BASELINE := Baseline(0, 0, 0, EMPTY_FEATURES, EMPTY_FEATURES, EMPTY_FEATURES, BodySizes(0, map[]))

  datatype Outcome = Outcome(
    action: WafAction, score: nat, signals: seq<Signal>, baselineObservations: nat, baselineAge: nat,
    baselineReady: bool, wouldBlock: bool)

  // ----- learning -----

  function SatAdd(n: nat): nat { if n < U64_MAX then n + 1 else n }

  function ObserveFeature(f: Features, value: string, promotion: nat, maximum: nat): Features {
    if value in f.active || |f.active| >= maximum then f
    else if value !in f.pending && |f.pending| >= 2 * maximum then f
    else
      var count := SatAdd(if value in f.pending then f.pending[value] else 0);
      if count >= promotion then Features(f.active + {value}, f.pending - {value})
      else f.(pending := f.pending[value := count])
  }

  function ObserveAll(f: Features, values: seq<string>, promotion: nat, maximum: nat): Features
    decreases |values|
  {
    if values == [] then f
    else ObserveAll(ObserveFeature(f, values[0], promotion, maximum), values[1..], promotion, maximum)
  }

  function NextPowerOfTwo(n: nat, power: nat): nat
    requires power > 0
    decreases if power >= n then 0 else n - power
  {
    if power >= n then power else NextPowerOfTwo(n, 2 * power)
  }

  /** The next power of two that a 64-bit size can hold, or the largest size. */
  function BodySizeBucket(bodySize: nat): nat {
    if bodySize == 0 then 0
    else
      var bucket := NextPowerOfTwo(bodySize, 1);
      if bucket <= USIZE_MAX then bucket else USIZE_MAX
  }

  function Above(pending: map<nat, nat>, bucket: nat): map<nat, nat> {
    map k | k in pending && k > bucket :: pending[k]
  }

  function ObserveBody(sizes: BodySizes, bucket: nat, promotion: nat): BodySizes {
    if bucket == 0 || sizes.maximum >= bucket then sizes
    else if bucket !in sizes.pending && |sizes.pending| >= MAX_BODY_BUCKETS then sizes
    else
      var count := SatAdd(if bucket in sizes.pending then sizes.pending[bucket] else 0);
      var pending := sizes.pending[bucket := count];
      if count >= promotion then BodySizes(bucket, Above(pending, bucket)) else sizes.(pending := pending)
  }

  function Learn(b: Baseline, r: Request, c: Config, now: nat): Baseline {
    Baseline(
      SatAdd(b.observations),
      if b.firstObservedAt == 0 then now else b.firstObservedAt,
      now,
      ObserveFeature(b.methods, r.httpMethod, c.promotion, c.maxMethods),
      if r.contentType == "" then b.contentTypes
      else ObserveFeature(b.contentTypes, r.contentType, c.promotion, c.maxContentTypes),
      ObserveAll(b.queryParameters, r.parameters, c.promotion, c.maxQueryParameters),
      ObserveBody(b.bodySizes, BodySizeBucket(r.bodySize), c.promotion))
  }

  // ----- evaluation -----

  function Dated(b: Baseline, now: nat): Baseline {
    b.(firstObservedAt := if b.firstObservedAt == 0 then now else b.firstObservedAt,
       lastObservedAt := if b.lastObservedAt == 0 then now else b.lastObservedAt)
  }

  function Pruned(routes: map<string, Baseline>, now: nat, retention: nat): map<string, Baseline> {
    map k | k in routes && SatSub(now, Dated(routes[k], now).lastObservedAt) <= retention :: Dated(routes[k], now)
  }

  predicate Learns(c: Config, r: Request) {
    c.enabled && c.mode != Mode.Off && !r.excluded && r.policy.learningEnabled && r.eligible && r.sourceAllowed
  }

  /** Adds an empty entry for a route that may be learned, while there is room. */
  function Allocated(routes: map<string, Baseline>, c: Config, r: Request): map<string, Baseline> {
    if Learns(c, r) && r.routeShape !in routes && |routes| < c.maxRoutes
    then routes[r.routeShape := NEW_BASELINE]
    else routes
  }

  function Signals(b: Baseline, c: Config, r: Request): seq<Signal> {
    (if r.httpMethod !in b.methods.active then [UnseenMethod] else [])
    + (if r.contentType != "" && r.contentType !in b.contentTypes.active then [UnseenContentType] else [])
    + (if exists i :: 0 <= i < |r.parameters| && r.parameters[i] !in b.queryParameters.active
       then [UnseenQueryParameter]
       else [])
    + (if b.bodySizes.maximum > 0 && r.bodySize > BodyLimit(b, c) then [BodySizeDeviation] else [])
  }

  /** `saturating_mul` */
  function BodyLimit(b: Baseline, c: Config): nat {
    var limit := b.bodySizes.maximum * c.bodySizeMultiplier;
    if limit <= USIZE_MAX then limit else USIZE_MAX
  }

  function ScoreOf(signals: seq<Signal>, c: Config): nat {
    if signals == [] then 0
    else (match signals[0]
          case UnseenMethod => c.methodScore
          case UnseenContentType => c.contentTypeScore
          case UnseenQueryParameter => c.queryParameterScore
          case BodySizeDeviation => c.bodySizeScore) + ScoreOf(signals[1..], c)
  }

  predicate GatesOpen(p: RoutePolicy, observations: nat, age: nat, signals: nat, score: nat) {
    p.highRisk && observations >= p.minimumBlockObservations && age >= p.minimumAge
    && signals >= p.minimumSignals && score >= p.blockThreshold
  }

  function Judged(b: Option<Baseline>, c: Config, r: Request, now: nat): Outcome {
    var observations := if b.Some? then b.value.observations else 0;
    var ready := observations >= r.policy.minimumObservations;
    var age := if b.Some? then SatSub(now, b.value.firstObservedAt) else 0;
    var signals := if c.enabled && !r.excluded && ready && b.Some? then Signals(b.value, c, r) else [];
    var score := ScoreOf(signals, c);
    var active := c.enabled && c.mode != Mode.Off && !r.excluded;
    var wouldBlock := active && ready && GatesOpen(r.policy, observations, age, |signals|, score);
    var action :=
      if wouldBlock && c.mode == Mode.Block && (r.serverMode == WafMode.Block || r.serverMode == WafMode.Strict)
      then WafAction.Block
      else if active && ready && score >= r.policy.monitorThreshold then WafAction.Monitor
      else WafAction.Allow;
    Outcome(action, score, signals, observations, age, ready, wouldBlock)
  }

  function Prepared(routes: map<string, Baseline>, c: Config, r: Request, now: nat): map<string, Baseline> {
    Allocated(Pruned(routes, now, c.retention), c, r)
  }

  /** Does this evaluation absorb the request into the baseline? */
  predicate Absorbs(prepared: map<string, Baseline>, c: Config, r: Request, now: nat) {
    Learns(c, r) && r.routeShape in prepared && Judged(Get(prepared, r.routeShape), c, r, now).signals == []
  }

  function Evaluated(routes: map<string, Baseline>, c: Config, r: Request, now: nat): (map<string, Baseline>, Outcome) {
    var prepared := Prepared(routes, c, r, now);
    (if Absorbs(prepared, c, r, now)
     then prepared[r.routeShape := Learn(prepared[r.routeShape], r, c, now)]
     else prepared,
     Judged(Get(prepared, r.routeShape), c, r, now))
  }

  /** Of what the learner does the server mode changes the action alone: it learns and signals the same,
      and a stricter mode gets no lesser action. Only in modes Block and Strict does it block. */
  lemma {:induction false} ModeOnlyRaisesAction(
    routes: map<string, Baseline>, c: Config, r: Request, mode: WafMode, now: nat)
    requires r.serverMode.Rank() <= mode.Rank()
    ensures Evaluated(routes, c, r.(serverMode := mode), now).0 == Evaluated(routes, c, r, now).0
    ensures var low, high := Evaluated(routes, c, r, now).1, Evaluated(routes, c, r.(serverMode := mode), now).1;
            && high == low.(action := high.action) && low.action.Rank() <= high.action.Rank()
            && (low.action == WafAction.Block ==> r.serverMode == WafMode.Block || r.serverMode == WafMode.Strict)
  {
    var prepared, entry := Prepared(routes, c, r, now), Get(Prepared(routes, c, r, now), r.routeShape);
    JudgedInMode(entry, c, r, mode, now);
    LearnedInMode(prepared, c, r, mode, now);
  }

  lemma {:induction false} JudgedInMode(b: Option<Baseline>, c: Config, r: Request, mode: WafMode, now: nat)
    requires r.serverMode.Rank() <= mode.Rank()
    ensures var low, high := Judged(b, c, r, now), Judged(b, c, r.(serverMode := mode), now);
            && high == low.(action := high.action) && low.action.Rank() <= high.action.Rank()
            && (low.action == WafAction.Block ==> r.serverMode == WafMode.Block || r.serverMode == WafMode.Strict)
  {
    if b.Some? { assert Signals(b.value, c, r.(serverMode := mode)) == Signals(b.value, c, r); }
  }

  lemma {:induction false} LearnedInMode(
    prepared: map<string, Baseline>, c: Config, r: Request, mode: WafMode, now: nat)
    ensures r.routeShape in prepared ==>
      Learn(prepared[r.routeShape], r.(serverMode := mode), c, now) == Learn(prepared[r.routeShape], r, c, now)
  {
  }

  // ----- what every baseline keeps: bounds -----

  ghost predicate BoundedFeatures(f: Features, promotion: nat, maximum: nat) {
    && |f.active| <= maximum && |f.pending| <= 2 * maximum
    && f.active !! f.pending.Keys
    && forall v :: v in f.pending ==> 1 <= f.pending[v] < promotion
  }

  ghost predicate IsPowerOfTwo(n: nat)
    decreases n
  {
    n == 1 || (n > 1 && n % 2 == 0 && IsPowerOfTwo(n / 2))
  }

  ghost predicate IsBucket(n: nat) { n == 0 || n == USIZE_MAX || IsPowerOfTwo(n) }

  ghost predicate Bounded(b: Baseline, c: Config) {
    && BoundedFeatures(b.methods, c.promotion, c.maxMethods)
    && BoundedFeatures(b.contentTypes, c.promotion, c.maxContentTypes)
    && BoundedFeatures(b.queryParameters, c.promotion, c.maxQueryParameters)
    && BoundedBodies(b.bodySizes, c.promotion)
  }

  ghost predicate BoundedBodies(sizes: BodySizes, promotion: nat) {
    && IsBucket(sizes.maximum) && |sizes.pending| <= MAX_BODY_BUCKETS
    && forall k :: k in sizes.pending ==> k > sizes.maximum && 1 <= sizes.pending[k] < promotion
  }

  lemma {:induction false} MapSizes<K, V>(m: map<K, V>, k: K, v: V)
    ensures |m[k := v]| == if k in m then |m| else |m| + 1
    ensures k in m ==> |m - {k}| == |m| - 1
  {
  }

  lemma {:induction false} SubmapSize<K, V>(n: map<K, V>, m: map<K, V>)
    requires n.Keys <= m.Keys
    ensures |n| <= |m|
  {
    SubsetSize(n.Keys, m.Keys);
    assert |m.Keys| == |m| && |n.Keys| == |n|;
  }

  lemma {:induction false} SubsetSize<T>(a: set<T>, b: set<T>)
    requires a <= b
    ensures |a| <= |b|
  {
    assert b == a + (b - a);
  }

  lemma {:induction false} ObserveKeepsBounds(f: Features, value: string, promotion: nat, maximum: nat)
    requires BoundedFeatures(f, promotion, maximum)
    ensures BoundedFeatures(ObserveFeature(f, value, promotion, maximum), promotion, maximum)
    ensures f.active <= ObserveFeature(f, value, promotion, maximum).active
  {
  }

  lemma {:induction false} ObserveAllKeepsBounds(f: Features, values: seq<string>, promotion: nat, maximum: nat)
    requires BoundedFeatures(f, promotion, maximum)
    ensures BoundedFeatures(ObserveAll(f, values, promotion, maximum), promotion, maximum)
    decreases |values|
  {
    if values != [] {
      ObserveKeepsBounds(f, values[0], promotion, maximum);
      ObserveAllKeepsBounds(ObserveFeature(f, values[0], promotion, maximum), values[1..], promotion, maximum);
    }
  }

  lemma {:induction false} BucketIsPower(n: nat, power: nat)
    requires IsPowerOfTwo(power)
    ensures IsPowerOfTwo(NextPowerOfTwo(n, power)) && NextPowerOfTwo(n, power) >= n
    decreases if power >= n then 0 else n - power
  {
    if power < n {
      assert 2 * power / 2 == power;
      BucketIsPower(n, 2 * power);
    }
  }

  lemma {:induction false} BodySizeIsBucket(bodySize: nat)
    ensures IsBucket(BodySizeBucket(bodySize))
    ensures bodySize <= USIZE_MAX ==> BodySizeBucket(bodySize) >= bodySize
  {
    if bodySize > 0 {
      assert IsPowerOfTwo(1);
      BucketIsPower(bodySize, 1);
    }
  }

  lemma {:induction false} BodyKeepsBounds(sizes: BodySizes, bucket: nat, promotion: nat)
    requires BoundedBodies(sizes, promotion) && IsBucket(bucket)
    ensures BoundedBodies(ObserveBody(sizes, bucket, promotion), promotion)
  {
    var count := SatAdd(if bucket in sizes.pending then sizes.pending[bucket] else 0);
    var pending := sizes.pending[bucket := count];
    MapSizes(sizes.pending, bucket, count);
    SubmapSize(Above(pending, bucket), pending);
  }

  lemma {:induction false} LearnKeepsBounds(b: Baseline, r: Request, c: Config, now: nat)
    requires Bounded(b, c)
    ensures Bounded(Learn(b, r, c, now), c)
  {
    ObserveKeepsBounds(b.methods, r.httpMethod, c.promotion, c.maxMethods);
    ObserveKeepsBounds(b.contentTypes, r.contentType, c.promotion, c.maxContentTypes);
    ObserveAllKeepsBounds(b.queryParameters, r.parameters, c.promotion, c.maxQueryParameters);
    BodySizeIsBucket(r.bodySize);
    BodyKeepsBounds(b.bodySizes, BodySizeBucket(r.bodySize), c.promotion);
  }

  ghost predicate BoundedRoutes(routes: map<string, Baseline>, c: Config) {
    |routes| <= c.maxRoutes && forall k :: k in routes ==> Bounded(routes[k], c)
  }

  lemma {:induction false} PruningKeepsBounds(routes: map<string, Baseline>, c: Config, now: nat)
    requires BoundedRoutes(routes, c)
    ensures BoundedRoutes(Pruned(routes, now, c.retention), c)
  {
    SubmapSize(Pruned(routes, now, c.retention), routes);
    forall k | k in Pruned(routes, now, c.retention) ensures Bounded(Pruned(routes, now, c.retention)[k], c) {
      assert Bounded(routes[k], c);
    }
  }

  lemma {:induction false} AllocationKeepsBounds(routes: map<string, Baseline>, c: Config, r: Request)
    requires BoundedRoutes(routes, c)
    ensures BoundedRoutes(Allocated(routes, c, r), c)
  {
    MapSizes(routes, r.routeShape, NEW_BASELINE);
    assert Bounded(NEW_BASELINE, c);
  }

  lemma {:induction false} AbsorbingKeepsBounds(routes: map<string, Baseline>, c: Config, r: Request, now: nat)
    requires BoundedRoutes(routes, c) && r.routeShape in routes
    ensures BoundedRoutes(routes[r.routeShape := Learn(routes[r.routeShape], r, c, now)], c)
  {
    LearnKeepsBounds(routes[r.routeShape], r, c, now);
    MapSizes(routes, r.routeShape, Learn(routes[r.routeShape], r, c, now));
  }

  /** Every evaluation keeps the learner bounded and consistent. */
  lemma {:induction false} EvaluationKeepsBounds(routes: map<string, Baseline>, c: Config, r: Request, now: nat)
    requires BoundedRoutes(routes, c)
    ensures BoundedRoutes(Evaluated(routes, c, r, now).0, c)
  {
    PruningKeepsBounds(routes, c, now);
    var pruned := Pruned(routes, now, c.retention);
    AllocationKeepsBounds(pruned, c, r);
    var prepared := Allocated(pruned, c, r);
    if Absorbs(prepared, c, r, now) { AbsorbingKeepsBounds(prepared, c, r, now); }
  }

  /** No evaluation lowers the learned body size of a route it keeps. */
  lemma {:induction false} LearnedSizeNeverFalls(
    routes: map<string, Baseline>, c: Config, r: Request, now: nat, shape: string)
    requires shape in routes && shape in Pruned(routes, now, c.retention)
    ensures var after := Evaluated(routes, c, r, now).0;
            shape in after && after[shape].bodySizes.maximum >= routes[shape].bodySizes.maximum
  {
    var kept, absorbs := EntryAfter(routes, c, r, now, shape);
    SizeNeverFalls(Dated(routes[shape], now), r, c, now);
  }

  lemma {:induction false} SizeNeverFalls(b: Baseline, r: Request, c: Config, now: nat)
    ensures Learn(b, r, c, now).bodySizes.maximum >= b.bodySizes.maximum
  {
  }

  // ----- runs -----

  datatype Step = Step(request: Request, now: nat)

  /** Requests evaluated one after the other, the routes before and after each, and the outcomes. */
  datatype Run = Run(steps: seq<Step>, states: seq<map<string, Baseline>>, outcomes: seq<Outcome>)

  ghost predicate Follows(c: Config, run: Run, i: nat)
    requires i < |run.steps| && |run.states| == |run.steps| + 1 && |run.outcomes| == |run.steps|
  {
    (run.states[i + 1], run.outcomes[i]) == Evaluated(run.states[i], c, run.steps[i].request, run.steps[i].now)
  }

  ghost predicate Shaped(run: Run) {
    |run.states| == |run.steps| + 1 && |run.outcomes| == |run.steps| && run.states[0] == map[]
  }

  /** A run that starts empty. */
  ghost predicate IsRun(c: Config, run: Run) {
    Shaped(run) && forall i :: 0 <= i < |run.steps| ==> Follows(c, run, i)
  }

  /** The bounds hold throughout every run. */
  lemma {:induction false} EveryRunIsBounded(c: Config, run: Run, k: nat)
    requires IsRun(c, run) && k <= |run.steps|
    ensures BoundedRoutes(run.states[k], c)
    decreases k
  {
    if k > 0 {
      EveryRunIsBounded(c, run, k - 1);
      StepKeepsBounds(c, run, k - 1);
    }
  }

  lemma {:induction false} StepKeepsBounds(c: Config, run: Run, k: nat)
    requires IsRun(c, run) && k < |run.steps| && BoundedRoutes(run.states[k], c)
    ensures BoundedRoutes(run.states[k + 1], c)
  {
    assert Follows(c, run, k);
    EvaluationKeepsBounds(run.states[k], c, run.steps[k].request, run.steps[k].now);
  }

  // ----- what a block implies -----

  datatype Kind = HttpMethod | ContentType | Parameter

  predicate Carries(r: Request, kind: Kind, v: string) {
    match kind
    case HttpMethod => r.httpMethod == v
    case ContentType => r.contentType == v
    case Parameter => v in r.parameters
  }

  ghost predicate Within(log: seq<nat>, steps: seq<Step>) {
    forall i :: 0 <= i < |log| ==> log[i] < |steps|
  }

  /** How many of the logged requests carried the value. */
  ghost function Carriers(steps: seq<Step>, log: seq<nat>, kind: Kind, v: string): nat
    requires Within(log, steps)
    decreases |log|
  {
    if log == [] then 0
    else Carriers(steps, log[..|log| - 1], kind, v) + if Carries(steps[log[|log| - 1]].request, kind, v) then 1 else 0
  }

  /** Every promoted value was carried by `promotion` logged requests, every pending one by as many
      as it is counted for. */
  ghost predicate Earned(f: Features, promotion: nat, count: string -> nat) {
    && (forall v :: v in f.active ==> count(v) >= promotion)
    && forall v :: v in f.pending ==> count(v) >= f.pending[v]
  }

  /** The shape has an entry before step i that pruning in step i does not remove. */
  ghost predicate KeptAt(c: Config, run: Run, shape: string, i: nat)
    requires Shaped(run) && i < |run.steps|
  {
    shape in Pruned(run.states[i], run.steps[i].now, c.retention)
  }

  /** The log lists, in order, every learning request for the shape since step log[0] that raised no
      signal. The first of them found no entry, or one that was pruned, and made the entry; no later
      step has pruned it. */
  ghost predicate Absorbed(c: Config, run: Run, k: nat, shape: string, log: seq<nat>)
    requires Shaped(run) && k <= |run.steps|
  {
    && log != []
    && (forall i :: 0 <= i < |log| ==> log[i] < k && IsAbsorbed(c, run, shape, log[i]))
    && (forall i, j :: 0 <= i < j < |log| ==> log[i] < log[j])
    && (forall j :: log[0] <= j < k && IsAbsorbed(c, run, shape, j) ==> j in log)
    && !KeptAt(c, run, shape, log[0]) && forall j :: log[0] < j < k ==> KeptAt(c, run, shape, j)
  }

  ghost predicate IsAbsorbed(c: Config, run: Run, shape: string, i: nat)
    requires Shaped(run) && i < |run.steps|
  {
    run.steps[i].request.routeShape == shape && Learns(c, run.steps[i].request) && run.outcomes[i].signals == []
  }

  ghost predicate FeaturesEarned(b: Baseline, c: Config, steps: seq<Step>, log: seq<nat>)
    requires Within(log, steps)
  {
    && Earned(b.methods, c.promotion, v => Carriers(steps, log, HttpMethod, v))
    && Earned(b.contentTypes, c.promotion, v => Carriers(steps, log, ContentType, v))
    && Earned(b.queryParameters, c.promotion, v => Carriers(steps, log, Parameter, v))
  }

  ghost predicate Explained(b: Baseline, c: Config, steps: seq<Step>, log: seq<nat>)
    requires Within(log, steps)
  {
    && b.observations == (if |log| <= U64_MAX then |log| else U64_MAX)
    && (if log == [] then b == NEW_BASELINE else b.firstObservedAt == steps[log[0]].now && b.lastObservedAt > 0)
    && FeaturesEarned(b, c, steps, log)
  }

  lemma {:induction false} ObserveEarns(
    f: Features, value: string, promotion: nat, maximum: nat, before: string -> nat, after: string -> nat)
    requires Earned(f, promotion, before)
    requires forall v :: after(v) >= before(v)
    requires after(value) >= before(value) + 1
    ensures Earned(ObserveFeature(f, value, promotion, maximum), promotion, after)
  {
  }

  /** A tally: exactly the values counted `promotion` times are active, and pending counts are exact. */
  ghost predicate Exact(f: Features, promotion: nat, count: string -> nat) {
    && (forall v :: v in f.active <==> count(v) >= promotion)
    && (forall v :: v in f.pending <==> 0 < count(v) < promotion)
    && forall v :: v in f.pending ==> f.pending[v] == count(v)
  }

  /** While neither the active nor the pending values have reached their capacity, observing a value
      counts it and nothing else, so the features stay an exact tally. */
  lemma {:induction false} ObserveIsExact(
    f: Features, value: string, promotion: nat, maximum: nat, before: string -> nat, after: string -> nat)
    requires promotion > 0 && Exact(f, promotion, before) && before(value) < U64_MAX
    requires |f.active| < maximum && (value in f.pending || |f.pending| < 2 * maximum)
    requires forall v :: v != value ==> after(v) == before(v)
    requires after(value) == before(value) + 1
    ensures value !in f.active ==> Exact(ObserveFeature(f, value, promotion, maximum), promotion, after)
    ensures value in f.active ==> ObserveFeature(f, value, promotion, maximum) == f
  {
    var g := ObserveFeature(f, value, promotion, maximum);
    if value !in f.active {
      assert before(value) == if value in f.pending then f.pending[value] else 0;
      assert g.active == if after(value) >= promotion then f.active + {value} else f.active;
    }
  }

  /** Observing distinct values: each gains one request, and the values still to come have theirs. */
  lemma {:induction false} ObserveAllEarns(
    f: Features, values: seq<string>, promotion: nat, maximum: nat, before: string -> nat, after: string -> nat)
    requires Earned(f, promotion, v => if v in values then before(v) else after(v))
    requires AreDistinct(values)
    requires forall v :: after(v) >= before(v)
    requires forall v :: v in values ==> after(v) >= before(v) + 1
    ensures Earned(ObserveAll(f, values, promotion, maximum), promotion, after)
    decreases |values|
  {
    if values != [] {
      var rest := values[1..];
      var current := v => if v in values then before(v) else after(v);
      var next := v => if v in rest then before(v) else after(v);
      assert values[0] !in rest;
      assert forall v :: v in values <==> v == values[0] || v in rest;
      ObserveEarns(f, values[0], promotion, maximum, current, next);
      ObserveAllEarns(ObserveFeature(f, values[0], promotion, maximum), rest, promotion, maximum, before, after);
    }
  }

  ghost predicate AreDistinct(values: seq<string>) {
    forall i, j :: 0 <= i < j < |values| ==> values[i] != values[j]
  }

  lemma {:induction false} MoreCarriers(steps: seq<Step>, log: seq<nat>, k: nat, kind: Kind)
    requires Within(log, steps) && k < |steps|
    ensures forall v :: Carriers(steps, log + [k], kind, v)
                     == Carriers(steps, log, kind, v) + if Carries(steps[k].request, kind, v) then 1 else 0
  {
  }

  lemma {:induction false} ObservationEarns(
    f: Features, value: string, c: Config, maximum: nat, steps: seq<Step>, log: seq<nat>, k: nat, kind: Kind)
    requires Within(log, steps) && k < |steps| && Earned(f, c.promotion, v => Carriers(steps, log, kind, v))
    requires Carries(steps[k].request, kind, value)
    ensures Earned(ObserveFeature(f, value, c.promotion, maximum), c.promotion,
        v => Carriers(steps, log + [k], kind, v))
    ensures Earned(f, c.promotion, v => Carriers(steps, log + [k], kind, v))
  {
    MoreCarriers(steps, log, k, kind);
    var before, after := v => Carriers(steps, log, kind, v), v => Carriers(steps, log + [k], kind, v);
    ObserveEarns(f, value, c.promotion, maximum, before, after);
  }

  lemma {:induction false} ParametersEarn(f: Features, c: Config, steps: seq<Step>, log: seq<nat>, k: nat)
    requires Within(log, steps) && k < |steps| && AreDistinct(steps[k].request.parameters)
    requires Earned(f, c.promotion, v => Carriers(steps, log, Parameter, v))
    ensures Earned(ObserveAll(f, steps[k].request.parameters, c.promotion, c.maxQueryParameters), c.promotion,
                   v => Carriers(steps, log + [k], Parameter, v))
  {
    MoreCarriers(steps, log, k, Parameter);
    var before, after := v => Carriers(steps, log, Parameter, v), v => Carriers(steps, log + [k], Parameter, v);
    ObserveAllEarns(f, steps[k].request.parameters, c.promotion, c.maxQueryParameters, before, after);
  }

  lemma {:induction false} LearnEarns(b: Baseline, c: Config, steps: seq<Step>, log: seq<nat>, k: nat)
    requires Within(log, steps) && k < |steps| && AreDistinct(steps[k].request.parameters)
    requires FeaturesEarned(b, c, steps, log)
    ensures FeaturesEarned(Learn(b, steps[k].request, c, steps[k].now), c, steps, log + [k])
  {
    var r := steps[k].request;
    ObservationEarns(b.methods, r.httpMethod, c, c.maxMethods, steps, log, k, HttpMethod);
    ObservationEarns(b.contentTypes, r.contentType, c, c.maxContentTypes, steps, log, k, ContentType);
    ParametersEarn(b.queryParameters, c, steps, log, k);
  }

  lemma {:induction false} LearnIsExplained(b: Baseline, c: Config, steps: seq<Step>, log: seq<nat>, k: nat)
    requires Within(log, steps) && k < |steps| && AreDistinct(steps[k].request.parameters) && steps[k].now > 0
    requires Explained(b, c, steps, log) && (log != [] ==> steps[log[0]].now > 0)
    ensures Explained(Learn(b, steps[k].request, c, steps[k].now), c, steps, log + [k])
  {
    LearnEarns(b, c, steps, log, k);
  }

  /** A new entry absorbs the request it was made for exactly when some observation is required
      before the baseline counts as ready; configuration validation demands that. */
  lemma {:induction false} CreatorIsAbsorbed(routes: map<string, Baseline>, c: Config, r: Request, now: nat)
    requires r.routeShape !in Pruned(routes, now, c.retention) && r.routeShape in Prepared(routes, c, r, now)
    ensures Absorbs(Prepared(routes, c, r, now), c, r, now) <==> r.policy.minimumObservations >= 1
  {
  }

  /** Positive times, distinct parameter names, and what validation demands of the policy in force. */
  ghost predicate WellFormed(steps: seq<Step>) {
    forall i :: 0 <= i < |steps| ==>
      steps[i].now > 0 && AreDistinct(steps[i].request.parameters) && steps[i].request.policy.minimumObservations >= 1
  }

  ghost predicate IsExplainedBy(c: Config, run: Run, k: nat, shape: string, log: seq<nat>)
    requires Shaped(run) && k <= |run.steps|
  {
    && shape in run.states[k] && Absorbed(c, run, k, shape, log) && Explained(run.states[k][shape], c, run.steps, log)
  }

  /** What one evaluation makes of one entry: keeps or creates it, and may absorb the request. */
  lemma {:induction false} EntryAfter(routes: map<string, Baseline>, c: Config, r: Request, now: nat, shape: string)
    returns (kept: bool, absorbs: bool)
    requires shape in Evaluated(routes, c, r, now).0
    ensures kept ==> shape in routes
    ensures kept <==> shape in Pruned(routes, now, c.retention)
    ensures var b := if kept then Dated(routes[shape], now) else NEW_BASELINE;
            Evaluated(routes, c, r, now).0[shape] == if absorbs then Learn(b, r, c, now) else b
    ensures absorbs <==> shape == r.routeShape && Learns(c, r) && Evaluated(routes, c, r, now).1.signals == []
    ensures !kept && r.policy.minimumObservations >= 1 ==> absorbs
  {
    var prepared := Prepared(routes, c, r, now);
    kept, absorbs := shape in Pruned(routes, now, c.retention), shape == r.routeShape && Absorbs(prepared, c, r, now);
    if !kept { CreatorIsAbsorbed(routes, c, r, now); }
  }

  lemma {:induction false} KeptAndAbsorbing(c: Config, run: Run, k: nat, shape: string, log: seq<nat>)
    requires Shaped(run) && k < |run.steps| && Absorbed(c, run, k, shape, log) && KeptAt(c, run, shape, k)
    ensures Absorbed(c, run, k + 1, shape, if IsAbsorbed(c, run, shape, k) then log + [k] else log)
  {
    var longer := log + [k];
    assert forall i :: 0 <= i < |log| ==> longer[i] == log[i];
    assert longer[|log|] == k;
  }

  lemma {:induction false} CreatedAndAbsorbing(c: Config, run: Run, k: nat, shape: string)
    requires Shaped(run) && k < |run.steps| && IsAbsorbed(c, run, shape, k) && !KeptAt(c, run, shape, k)
    ensures Absorbed(c, run, k + 1, shape, [k])
  {
  }

  lemma {:induction false} EntryIsExplained(c: Config, run: Run, k: nat, shape: string, before: seq<nat>)
    returns (log: seq<nat>)
    requires Shaped(run) && k < |run.steps| && Follows(c, run, k) && WellFormed(run.steps)
    requires shape in run.states[k] ==> IsExplainedBy(c, run, k, shape, before)
    requires shape in run.states[k + 1]
    ensures IsExplainedBy(c, run, k + 1, shape, log)
  {
    var kept, absorbs := EntryAfter(run.states[k], c, run.steps[k].request, run.steps[k].now, shape);
    log := if kept then before else [];
    if kept { KeptAndAbsorbing(c, run, k, shape, log); } else { CreatedAndAbsorbing(c, run, k, shape); }
    if absorbs {
      LearnIsExplained(if kept then run.states[k][shape] else NEW_BASELINE, c, run.steps, log, k);
      assert kept || [] + [k] == [k];
      log := log + [k];
    }
  }

  /** In every run, every entry is explained by the requests it has absorbed. */
  lemma {:induction false} EntriesAreExplained(c: Config, run: Run, k: nat, shape: string) returns (log: seq<nat>)
    requires IsRun(c, run) && k <= |run.steps| && WellFormed(run.steps) && shape in run.states[k]
    ensures IsExplainedBy(c, run, k, shape, log)
    decreases k
  {
    if k > 0 {
      assert Follows(c, run, k - 1);
      var before := [];
      if shape in run.states[k - 1] { before := EntriesAreExplained(c, run, k - 1, shape); }
      log := EntryIsExplained(c, run, k - 1, shape, before);
    }
  }

  function Flag(raised: bool): nat { if raised then 1 else 0 }

  ghost predicate CarriesUnknownParameter(b: Baseline, r: Request) {
    exists v :: v in r.parameters && v !in b.queryParameters.active
  }

  /** In how many respects the request deviates from the baseline. */
  ghost function Deviations(b: Baseline, c: Config, r: Request): nat {
    Flag(r.httpMethod !in b.methods.active)
    + Flag(r.contentType != "" && r.contentType !in b.contentTypes.active)
    + Flag(CarriesUnknownParameter(b, r))
    + Flag(b.bodySizes.maximum > 0 && r.bodySize > BodyLimit(b, c))
  }

  /** There is one signal for each respect in which the request deviates. */
  lemma {:induction false} SignalsAreTrue(b: Baseline, c: Config, r: Request)
    ensures |Signals(b, c, r)| == Deviations(b, c, r)
  {
    var unseen := exists i :: 0 <= i < |r.parameters| && r.parameters[i] !in b.queryParameters.active;
    if CarriesUnknownParameter(b, r) {
      var v :| v in r.parameters && v !in b.queryParameters.active;
      var i :| 0 <= i < |r.parameters| && r.parameters[i] == v;
      assert unseen;
    }
  }

  /** What a block proves. In every run of well-formed requests from the empty store, a request is
      blocked only on a high-risk route of a server in Block or Strict mode, and the entry that
      condemned it had absorbed at least the required number of signal-free learning requests since
      it was created, the first of them at least the required age earlier; every method, content
      type or query name the entry holds as known was carried by at least `promotion` of those; and the
      blocked request deviates from what is known in at least the required number of respects. */
  lemma {:induction false} BlockIsEarned(c: Config, run: Run, n: nat) returns (log: seq<nat>)
    requires IsRun(c, run) && n < |run.steps| && WellFormed(run.steps) && run.outcomes[n].action == WafAction.Block
    ensures var r, now := run.steps[n].request, run.steps[n].now;
            && c.mode == Mode.Block && r.policy.highRisk
            && (r.serverMode == WafMode.Block || r.serverMode == WafMode.Strict)
            && r.routeShape in run.states[n]
            && Absorbed(c, run, n, r.routeShape, log) && KeptAt(c, run, r.routeShape, n)
            && Explained(run.states[n][r.routeShape], c, run.steps, log)
            && |log| >= r.policy.minimumBlockObservations && |log| >= r.policy.minimumObservations
            && (r.policy.minimumAge > 0 ==> run.steps[log[0]].now + r.policy.minimumAge <= now)
            && Deviations(run.states[n][r.routeShape], c, r) >= r.policy.minimumSignals
  {
    var r, now := run.steps[n].request, run.steps[n].now;
    assert Follows(c, run, n);
    BlockingEntry(run.states[n], c, r, now);
    log := EntriesAreExplained(c, run, n, r.routeShape);
  }

  lemma {:induction false} BlockingEntry(routes: map<string, Baseline>, c: Config, r: Request, now: nat)
    requires Evaluated(routes, c, r, now).1.action == WafAction.Block && r.policy.minimumObservations >= 1
    ensures c.mode == Mode.Block && r.policy.highRisk
    ensures r.serverMode == WafMode.Block || r.serverMode == WafMode.Strict
    ensures r.routeShape in routes && r.routeShape in Pruned(routes, now, c.retention)
    ensures var b := Dated(routes[r.routeShape], now);
            && b.observations >= r.policy.minimumBlockObservations && b.observations >= r.policy.minimumObservations
            && SatSub(now, b.firstObservedAt) >= r.policy.minimumAge
    ensures Deviations(routes[r.routeShape], c, r) >= r.policy.minimumSignals
  {
    SignalsAreTrue(Dated(routes[r.routeShape], now), c, r);
    assert Deviations(Dated(routes[r.routeShape], now), c, r) == Deviations(routes[r.routeShape], c, r);
  }

  lemma {:induction false} UnseenMethodStays(b: Baseline, c: Config, r: Request, now: nat)
    requires c.enabled && c.mode == Mode.Block && Learns(c, r) && b.methods == EMPTY_FEATURES
    requires SatSub(now, Dated(b, now).lastObservedAt) <= c.retention
    requires r.serverMode == WafMode.Block && r.policy.highRisk && r.policy.minimumObservations == 0
    requires r.policy.minimumBlockObservations == 0 && r.policy.minimumSignals <= 1
    requires r.policy.blockThreshold <= c.methodScore
    ensures Evaluated(map[r.routeShape := b], c, r, now).0 == map[r.routeShape := Dated(b, now)]
    ensures SatSub(now, Dated(b, now).firstObservedAt) >= r.policy.minimumAge ==>
      Evaluated(map[r.routeShape := b], c, r, now).1.action == WafAction.Block
  {
  }

  lemma {:induction false} FirstRequestAllocates(c: Config, r: Request, now: nat)
    requires c.maxRoutes > 0 && Learns(c, r) && r.policy.minimumObservations == 0
    ensures Evaluated(map[], c, r, now).0 == map[r.routeShape := NEW_BASELINE]
  {
    assert Pruned(map[], now, c.retention) == map[];
    assert Prepared(map[], c, r, now) == map[r.routeShape := NEW_BASELINE];
    CreatorIsAbsorbed(map[], c, r, now);
  }

  lemma {:induction false} EntryStays(c: Config, run: Run, i: nat, b: Baseline, r: Request, now: nat)
    requires IsRun(c, run) && i < |run.steps| && run.steps[i] == Step(r, now)
    requires run.states[i] == map[r.routeShape := b]
    requires c.enabled && c.mode == Mode.Block && Learns(c, r) && b.methods == EMPTY_FEATURES
    requires SatSub(now, Dated(b, now).lastObservedAt) <= c.retention
    requires r.serverMode == WafMode.Block && r.policy.highRisk && r.policy.minimumObservations == 0
    requires r.policy.minimumBlockObservations == 0 && r.policy.minimumSignals <= 1
    requires r.policy.blockThreshold <= c.methodScore
    ensures run.states[i + 1] == map[r.routeShape := Dated(b, now)]
    ensures SatSub(now, Dated(b, now).firstObservedAt) >= r.policy.minimumAge ==>
      run.outcomes[i].action == WafAction.Block
  {
    assert Follows(c, run, i);
    UnseenMethodStays(b, c, r, now);
  }

  /** Without a required observation the age gate proves nothing: the entry is dated by pruning,
      never absorbs anything, and its third request can be blocked however old it must be. */
  lemma {:induction false} UnreadyGateProvesNothing(c: Config, r: Request, at: nat, run: Run)
    requires c.enabled && c.mode == Mode.Block && c.maxRoutes > 0 && Learns(c, r) && at > 0
    requires r.serverMode == WafMode.Block && r.policy.highRisk && r.policy.minimumAge <= c.retention
    requires r.policy.minimumObservations == 0 && r.policy.minimumBlockObservations == 0
    requires r.policy.minimumSignals <= 1 && r.policy.blockThreshold <= c.methodScore
    requires IsRun(c, run) && run.steps == [Step(r, at), Step(r, at), Step(r, at + r.policy.minimumAge)]
    ensures run.outcomes[2].action == WafAction.Block
    ensures r.routeShape in run.states[3] && run.states[3][r.routeShape].observations == 0
  {
    assert Follows(c, run, 0);
    FirstRequestAllocates(c, r, at);
    EntryStays(c, run, 1, NEW_BASELINE, r, at);
    EntryStays(c, run, 2, Dated(NEW_BASELINE, at), r, at + r.policy.minimumAge);
  }

  // ----- the store, updated in place -----

  method ObserveInPlace(active0: set<string>, pending0: map<string, nat>, value: string, promotion: nat, maximum: nat)
    returns (active: set<string>, pending: map<string, nat>)
    ensures Features(active, pending) == ObserveFeature(Features(active0, pending0), value, promotion, maximum)
  {
    active, pending := active0, pending0;
    if value in active || |active| >= maximum { return; }
    if value !in pending && |pending| >= maximum * 2 { return; }
    var count := 0;
    if value in pending { count := pending[value]; }
    count := SatAdd(count);
    pending := pending[value := count];
    assert pending - {value} == pending0 - {value};
    if count >= promotion {
      pending := pending - {value};
      active := active + {value};
    }
  }

  method ObserveParameters(features: Features, values: seq<string>, promotion: nat, maximum: nat) returns (f: Features)
    ensures f == ObserveAll(features, values, promotion, maximum)
  {
    f := features;
    var i := 0;
    assert values[0..] == values;
    while i < |values|
      invariant 0 <= i <= |values|
      invariant ObserveAll(f, values[i..], promotion, maximum) == ObserveAll(features, values, promotion, maximum)
    {
      assert values[i..][1..] == values[i + 1..];
      var active, pending := ObserveInPlace(f.active, f.pending, values[i], promotion, maximum);
      f := Features(active, pending);
      i := i + 1;
    }
    assert values[i..] == [];
  }

  method ObserveBodyInPlace(sizes: BodySizes, bucket: nat, promotion: nat)
    returns (maximum: nat, pending: map<nat, nat>)
    ensures BodySizes(maximum, pending) == ObserveBody(sizes, bucket, promotion)
  {
    maximum, pending := sizes.maximum, sizes.pending;
    if bucket > 0 && maximum < bucket {
      if bucket !in pending && |pending| >= MAX_BODY_BUCKETS { return; }
      var count := 0;
      if bucket in pending { count := pending[bucket]; }
      count := SatAdd(count);
      pending := pending[bucket := count];
      if count >= promotion {
        maximum := bucket;
        pending := map k | k in pending && k > bucket :: pending[k];
      }
    }
  }

  class UnknownThreatStore {
    const config: Config
    var routes: map<string, Baseline>

    constructor (config: Config)
      ensures this.config == config && routes == map[]
    {
      this.config := config;
      routes := map[];
    }

    method PruneStaleRoutes(now: nat) returns (pruned: nat)
      modifies this
      ensures routes == Pruned(old(routes), now, config.retention)
      ensures pruned + |routes| == |old(routes)|
    {
      var before := |routes|;
      var undated := routes.Keys;
      while undated != {}
        invariant routes.Keys == old(routes).Keys
        invariant forall k :: k in routes ==>
          routes[k] == if k in undated then old(routes)[k] else Dated(old(routes)[k], now)
      {
        var k :| k in undated;
        if k in routes {
          routes := routes[k := Dated(routes[k], now)];
        }
        undated := undated - {k};
      }
      var kept := map k | k in routes && SatSub(now, routes[k].lastObservedAt) <= config.retention :: routes[k];
      SubmapSize(kept, routes);
      assert |routes.Keys| == |old(routes).Keys| && |routes| == |routes.Keys| && |old(routes)| == |old(routes).Keys|;
      assert kept == Pruned(old(routes), now, config.retention);
      routes := kept;
      pruned := before - |routes|;
    }

    method LearnInPlace(r: Request, now: nat)
      requires r.routeShape in routes
      modifies this
      ensures routes == old(routes)[r.routeShape := Learn(old(routes)[r.routeShape], r, config, now)]
    {
      var b := routes[r.routeShape];
      if b.firstObservedAt == 0 { b := b.(firstObservedAt := now); }
      b := b.(lastObservedAt := now, observations := SatAdd(b.observations));
      var methods, pendingMethods :=
        ObserveInPlace(b.methods.active, b.methods.pending, r.httpMethod, config.promotion, config.maxMethods);
      b := b.(methods := Features(methods, pendingMethods));
      if r.contentType != "" {
        var types, pendingTypes :=
          ObserveInPlace(
            b.contentTypes.active, b.contentTypes.pending, r.contentType, config.promotion, config.maxContentTypes);
        b := b.(contentTypes := Features(types, pendingTypes));
      }
      var names := ObserveParameters(b.queryParameters, r.parameters, config.promotion, config.maxQueryParameters);
      b := b.(queryParameters := names);
      var maximum, pendingSizes := ObserveBodyInPlace(b.bodySizes, BodySizeBucket(r.bodySize), config.promotion);
      b := b.(bodySizes := BodySizes(maximum, pendingSizes));
      routes := routes[r.routeShape := b];
    }

    method Evaluate(r: Request, now: nat) returns (outcome: Outcome)
      modifies this
      ensures (routes, outcome) == Evaluated(old(routes), config, r, now)
    {
      var pruned := PruneStaleRoutes(now);
      var active := config.enabled && config.mode != Mode.Off && !r.excluded;
      var learns := active && r.policy.learningEnabled && r.eligible && r.sourceAllowed;
      var canAllocate := |routes| < config.maxRoutes;
      if learns && r.routeShape !in routes && canAllocate {
        routes := routes[r.routeShape := NEW_BASELINE];
      }
      outcome := Judge(r, now);
      if learns && outcome.signals == [] && r.routeShape in routes { LearnInPlace(r, now); }
    }

    method Judge(r: Request, now: nat) returns (outcome: Outcome)
      ensures outcome == Judged(Get(routes, r.routeShape), config, r, now)
    {
      var observations, age := 0, 0;
      if r.routeShape in routes {
        observations := routes[r.routeShape].observations;
        age := SatSub(now, routes[r.routeShape].firstObservedAt);
      }
      var ready := observations >= r.policy.minimumObservations;
      var signals := [];
      if config.enabled && !r.excluded && ready && r.routeShape in routes {
        signals := Signals(routes[r.routeShape], config, r);
      }
      var score := ScoreOf(signals, config);
      var active := config.enabled && config.mode != Mode.Off && !r.excluded;
      var gates := 0;
      if !r.policy.highRisk { gates := gates + 1; }
      if observations < r.policy.minimumBlockObservations { gates := gates + 1; }
      if age < r.policy.minimumAge { gates := gates + 1; }
      if |signals| < r.policy.minimumSignals { gates := gates + 1; }
      if score < r.policy.blockThreshold { gates := gates + 1; }
      var wouldBlock := active && ready && r.policy.highRisk && gates == 0;
      var action := WafAction.Allow;
      if wouldBlock && config.mode == Mode.Block && (r.serverMode == WafMode.Block || r.serverMode == WafMode.Strict) {
        action := WafAction.Block;
      } else if active && ready && score >= r.policy.monitorThreshold {
        action := WafAction.Monitor;
      }
      outcome := Outcome(action, score, signals, observations, age, ready, wouldBlock);
    }
  }
}
