/**
 What an unknown-threat baseline has learned: with room to spare, an exact tally of the requests its route
 has absorbed.
 */
module ThreatLearning {
  import opened ThreatVerdicts
  import opened UnknownThreats
  import opened Wrappers

  // ----- counting requests -----

  /** How many of the logged requests carried the value; an absent content type counts as none. */
  ghost function Tally(steps: seq<Step>, log: seq<nat>, kind: Kind, v: string): nat
    requires Within(log, steps)
  {
    if kind == ContentType && v == "" then 0 else Carriers(steps, log, kind, v)
  }

  /** How many of the logged requests had a body of this size bucket. */
  ghost function Sizes(steps: seq<Step>, log: seq<nat>, bucket: nat): nat
    requires Within(log, steps)
    decreases |log|
  {
    if log == [] then 0
    else Sizes(steps, log[..|log| - 1], bucket)
         + if BodySizeBucket(steps[log[|log| - 1]].request.bodySize) == bucket then 1 else 0
  }

  ghost function Buckets(steps: seq<Step>, log: seq<nat>): set<nat>
    requires Within(log, steps)
  {
    set i | 0 <= i < |log| && BodySizeBucket(steps[log[i]].request.bodySize) > 0
      :: BodySizeBucket(steps[log[i]].request.bodySize)
  }

  /** There is room for one more value, wherever it would go. */
  ghost predicate HasRoom(f: Features, maximum: nat) { |f.active| + |f.pending| < maximum }

  // ----- one feature -----

  lemma {:induction false} ObservationGrows(f: Features, value: string, promotion: nat, maximum: nat)
    requires BoundedFeatures(f, promotion, maximum)
    ensures var g := ObserveFeature(f, value, promotion, maximum);
            && |g.active| + |g.pending| >= |f.active| + |f.pending|
            && BoundedFeatures(g, promotion, maximum)
  {
    ObserveKeepsBounds(f, value, promotion, maximum);
    MapSizes(f.pending, value, SatAdd(if value in f.pending then f.pending[value] else 0));
  }

  lemma {:induction false} ObservationTallies(
    f: Features, value: string, promotion: nat, maximum: nat, before: string -> nat, after: string -> nat)
    requires 0 < promotion <= U64_MAX && HasRoom(f, maximum) && Exact(f, promotion, before)
    requires forall v :: v != value ==> after(v) == before(v)
    requires after(value) == before(value) + 1
    ensures Exact(ObserveFeature(f, value, promotion, maximum), promotion, after)
  {
    if value !in f.active { ObserveIsExact(f, value, promotion, maximum, before, after); }
  }

  lemma {:induction false} ObservationsGrow(f: Features, values: seq<string>, promotion: nat, maximum: nat)
    requires BoundedFeatures(f, promotion, maximum)
    ensures var g := ObserveAll(f, values, promotion, maximum);
            |g.active| + |g.pending| >= |f.active| + |f.pending|
    decreases |values|
  {
    if values != [] {
      ObservationGrows(f, values[0], promotion, maximum);
      ObservationsGrow(ObserveFeature(f, values[0], promotion, maximum), values[1..], promotion, maximum);
    }
  }

  lemma {:induction false} SameTally(f: Features, promotion: nat, before: string -> nat, after: string -> nat)
    requires Exact(f, promotion, before) && forall v :: after(v) == before(v)
    ensures Exact(f, promotion, after)
  {
  }

  lemma {:induction false} ObservationsTally(
    f: Features, values: seq<string>, promotion: nat, maximum: nat, before: string -> nat, after: string -> nat)
    requires 0 < promotion <= U64_MAX && AreDistinct(values) && BoundedFeatures(f, promotion, maximum)
    requires HasRoom(ObserveAll(f, values, promotion, maximum), maximum) && Exact(f, promotion, before)
    requires forall v :: after(v) == before(v) + if v in values then 1 else 0
    ensures Exact(ObserveAll(f, values, promotion, maximum), promotion, after)
    decreases |values|
  {
    if values == [] {
      SameTally(f, promotion, before, after);
    } else {
      ObservationsGrow(f, values, promotion, maximum);
      var middle := FirstTallies(f, values, promotion, maximum, before, after);
      ObservationGrows(f, values[0], promotion, maximum);
      ObservationsTally(
        ObserveFeature(f, values[0], promotion, maximum), values[1..], promotion, maximum, middle, after);
    }
  }

  lemma {:induction false} FirstTallies(
    f: Features, values: seq<string>, promotion: nat, maximum: nat, before: string -> nat, after: string -> nat)
    returns (middle: string -> nat)
    requires 0 < promotion <= U64_MAX && values != [] && AreDistinct(values)
    requires HasRoom(f, maximum) && Exact(f, promotion, before)
    requires forall v :: after(v) == before(v) + if v in values then 1 else 0
    ensures Exact(ObserveFeature(f, values[0], promotion, maximum), promotion, middle) && AreDistinct(values[1..])
    ensures forall v :: after(v) == middle(v) + if v in values[1..] then 1 else 0
  {
    middle := v => before(v) + if v == values[0] then 1 else 0;
    assert values == [values[0]] + values[1..];
    assert values[0] !in values[1..];
    ObservationTallies(f, values[0], promotion, maximum, before, middle);
  }

  // ----- body sizes -----

  /** The learned size is the largest bucket seen often enough, and pending are the larger ones seen. */
  ghost predicate SizesTallied(sizes: BodySizes, promotion: nat, count: nat -> nat) {
    && (sizes.maximum > 0 ==> count(sizes.maximum) >= promotion)
    && (forall b :: b > sizes.maximum ==> count(b) < promotion)
    && (forall b :: b in sizes.pending <==> b > sizes.maximum && count(b) > 0)
    && forall b :: b in sizes.pending ==> sizes.pending[b] == count(b)
  }

  lemma {:induction false} BodyTallies(
    sizes: BodySizes, bucket: nat, promotion: nat, before: nat -> nat, after: nat -> nat)
    requires 0 < promotion <= U64_MAX && SizesTallied(sizes, promotion, before)
    requires bucket > 0 && (bucket in sizes.pending || |sizes.pending| < 32)
    requires forall b :: after(b) == before(b) + if b == bucket then 1 else 0
    ensures SizesTallied(ObserveBody(sizes, bucket, promotion), promotion, after)
  {
  }

  // ----- one request -----

  ghost predicate FeaturesTallied(b: Baseline, c: Config, steps: seq<Step>, log: seq<nat>)
    requires Within(log, steps)
  {
    && (HasRoom(b.methods, c.maxMethods) ==> Exact(b.methods, c.promotion, v => Tally(steps, log, HttpMethod, v)))
    && (HasRoom(b.contentTypes, c.maxContentTypes) ==>
         Exact(b.contentTypes, c.promotion, v => Tally(steps, log, ContentType, v)))
    && (HasRoom(b.queryParameters, c.maxQueryParameters) ==>
         Exact(b.queryParameters, c.promotion, v => Tally(steps, log, Parameter, v)))
  }

  ghost predicate BodiesTallied(b: Baseline, c: Config, steps: seq<Step>, log: seq<nat>)
    requires Within(log, steps)
  {
    |Buckets(steps, log)| <= 32 ==> SizesTallied(b.bodySizes, c.promotion, SizesOf(steps, log))
  }

  /** The baseline is an exact tally of the log: its promoted values are those that `promotion` of the logged
      requests carried, its pending ones those that fewer did, for each kind with room to spare; and its body
      size is the largest bucket that as many had, if there were no more than 32. */
  ghost predicate Tallied(b: Baseline, c: Config, steps: seq<Step>, log: seq<nat>)
    requires Within(log, steps)
  {
    Bounded(b, c) && FeaturesTallied(b, c, steps, log) && BodiesTallied(b, c, steps, log)
  }

  lemma {:induction false} TallyOneMore(steps: seq<Step>, log: seq<nat>, k: nat, kind: Kind)
    requires Within(log, steps) && k < |steps|
    ensures forall v ::
      Tally(steps, log + [k], kind, v)
      == Tally(steps, log, kind, v)
         + if Carries(steps[k].request, kind, v) && (kind != ContentType || v != "") then 1 else 0
  {
    MoreCarriers(steps, log, k, kind);
  }

  lemma {:induction false} MethodTallied(b: Baseline, c: Config, steps: seq<Step>, log: seq<nat>, k: nat)
    requires Within(log, steps) && k < |steps| && 0 < c.promotion <= U64_MAX && Tallied(b, c, steps, log)
    ensures var after := Learn(b, steps[k].request, c, steps[k].now).methods;
            HasRoom(after, c.maxMethods) ==> Exact(after, c.promotion, v => Tally(steps, log + [k], HttpMethod, v))
  {
    var r := steps[k].request;
    TallyOneMore(steps, log, k, HttpMethod);
    ObservationGrows(b.methods, r.httpMethod, c.promotion, c.maxMethods);
    if HasRoom(b.methods, c.maxMethods) {
      ObservationTallies(b.methods, r.httpMethod, c.promotion, c.maxMethods,
                         v => Tally(steps, log, HttpMethod, v), v => Tally(steps, log + [k], HttpMethod, v));
    }
  }

  lemma {:induction false} ContentTypeTallied(b: Baseline, c: Config, steps: seq<Step>, log: seq<nat>, k: nat)
    requires Within(log, steps) && k < |steps| && 0 < c.promotion <= U64_MAX && Tallied(b, c, steps, log)
    ensures var after := Learn(b, steps[k].request, c, steps[k].now).contentTypes;
            HasRoom(after, c.maxContentTypes) ==>
              Exact(after, c.promotion, v => Tally(steps, log + [k], ContentType, v))
  {
    var r := steps[k].request;
    TallyOneMore(steps, log, k, ContentType);
    ObservationGrows(b.contentTypes, r.contentType, c.promotion, c.maxContentTypes);
    var before, after := v => Tally(steps, log, ContentType, v), v => Tally(steps, log + [k], ContentType, v);
    if HasRoom(b.contentTypes, c.maxContentTypes) {
      if r.contentType == "" {
        SameTally(b.contentTypes, c.promotion, before, after);
      } else {
        ObservationTallies(b.contentTypes, r.contentType, c.promotion, c.maxContentTypes, before, after);
      }
    }
  }

  lemma {:induction false} ParametersTallied(b: Baseline, c: Config, steps: seq<Step>, log: seq<nat>, k: nat)
    requires Within(log, steps) && k < |steps| && 0 < c.promotion <= U64_MAX && Tallied(b, c, steps, log)
    requires AreDistinct(steps[k].request.parameters)
    ensures var after := Learn(b, steps[k].request, c, steps[k].now).queryParameters;
            HasRoom(after, c.maxQueryParameters) ==>
              Exact(after, c.promotion, v => Tally(steps, log + [k], Parameter, v))
  {
    var r := steps[k].request;
    TallyOneMore(steps, log, k, Parameter);
    ObservationsGrow(b.queryParameters, r.parameters, c.promotion, c.maxQueryParameters);
    var g := ObserveAll(b.queryParameters, r.parameters, c.promotion, c.maxQueryParameters);
    if HasRoom(g, c.maxQueryParameters) {
      ObservationsTally(b.queryParameters, r.parameters, c.promotion, c.maxQueryParameters,
                        v => Tally(steps, log, Parameter, v), v => Tally(steps, log + [k], Parameter, v));
    }
  }

  lemma {:induction false} SizesOneMore(steps: seq<Step>, log: seq<nat>, k: nat)
    requires Within(log, steps) && k < |steps|
    ensures forall n ::
      Sizes(steps, log + [k], n)
      == Sizes(steps, log, n) + if BodySizeBucket(steps[k].request.bodySize) == n then 1 else 0
    ensures var bucket := BodySizeBucket(steps[k].request.bodySize);
            Buckets(steps, log + [k]) == Buckets(steps, log) + if bucket > 0 then {bucket} else {}
  {
    var longer := log + [k];
    assert longer[..|longer| - 1] == log && forall i :: 0 <= i < |log| ==> longer[i] == log[i];
    assert longer[|log|] == k;
  }

  lemma {:induction false} CountedIsBucket(steps: seq<Step>, log: seq<nat>, n: nat)
    requires Within(log, steps)
    ensures n > 0 ==> (Sizes(steps, log, n) > 0 <==> n in Buckets(steps, log))
    decreases |log|
  {
    if log != [] {
      var before, k := log[..|log| - 1], log[|log| - 1];
      assert log == before + [k];
      SizesOneMore(steps, before, k);
      CountedIsBucket(steps, before, n);
    }
  }

  lemma {:induction false} PendingAreBuckets(b: Baseline, c: Config, steps: seq<Step>, log: seq<nat>)
    requires Within(log, steps)
    requires SizesTallied(b.bodySizes, c.promotion, SizesOf(steps, log))
    ensures b.bodySizes.pending.Keys <= Buckets(steps, log)
  {
    forall n | n in b.bodySizes.pending ensures n in Buckets(steps, log) { CountedIsBucket(steps, log, n); }
  }

  lemma {:induction false} OneMoreFits(keys: set<nat>, bucket: nat, seen: set<nat>)
    requires keys + {bucket} <= seen && |seen| <= 32 && bucket !in keys
    ensures |keys| < 32
  {
    SubsetSize(keys + {bucket}, seen);
    assert |keys + {bucket}| == |keys| + 1;
  }

  lemma {:induction false} SameSizes(sizes: BodySizes, promotion: nat, before: nat -> nat, after: nat -> nat)
    requires SizesTallied(sizes, promotion, before) && forall n :: after(n) == before(n)
    ensures SizesTallied(sizes, promotion, after)
  {
  }

  lemma {:induction false} SizeTallies(
    sizes: BodySizes, bucket: nat, promotion: nat, before: nat -> nat, after: nat -> nat, seen: set<nat>)
    requires 0 < promotion <= U64_MAX && SizesTallied(sizes, promotion, before)
    requires forall n :: after(n) == before(n) + if n == bucket && bucket > 0 then 1 else 0
    requires sizes.pending.Keys + (if bucket > 0 then {bucket} else {}) <= seen && |seen| <= 32
    ensures SizesTallied(ObserveBody(sizes, bucket, promotion), promotion, after)
  {
    if bucket == 0 {
      SameSizes(sizes, promotion, before, after);
    } else {
      if bucket !in sizes.pending {
        OneMoreFits(sizes.pending.Keys, bucket, seen);
        assert |sizes.pending| == |sizes.pending.Keys|;
      }
      BodyTallies(sizes, bucket, promotion, before, after);
    }
  }

  ghost function SizesOf(steps: seq<Step>, log: seq<nat>): nat -> nat
    requires Within(log, steps)
  {
    (n: nat) => if n == 0 then 0 else Sizes(steps, log, n)
  }

  lemma {:induction false} BodyTallied(b: Baseline, c: Config, steps: seq<Step>, log: seq<nat>, k: nat)
    requires Within(log, steps) && k < |steps| && 0 < c.promotion <= U64_MAX && BodiesTallied(b, c, steps, log)
    ensures BodiesTallied(Learn(b, steps[k].request, c, steps[k].now), c, steps, log + [k])
  {
    SizesOneMore(steps, log, k);
    SubsetSize(Buckets(steps, log), Buckets(steps, log + [k]));
    if |Buckets(steps, log + [k])| <= 32 {
      PendingAreBuckets(b, c, steps, log);
      SizeTallies(b.bodySizes, BodySizeBucket(steps[k].request.bodySize), c.promotion,
                  SizesOf(steps, log), SizesOf(steps, log + [k]), Buckets(steps, log + [k]));
    }
  }

  lemma {:induction false} LearnIsTallied(b: Baseline, c: Config, steps: seq<Step>, log: seq<nat>, k: nat)
    requires Within(log, steps) && k < |steps| && 0 < c.promotion <= U64_MAX && Tallied(b, c, steps, log)
    requires AreDistinct(steps[k].request.parameters)
    ensures Tallied(Learn(b, steps[k].request, c, steps[k].now), c, steps, log + [k])
  {
    LearnKeepsBounds(b, steps[k].request, c, steps[k].now);
    MethodTallied(b, c, steps, log, k);
    ContentTypeTallied(b, c, steps, log, k);
    ParametersTallied(b, c, steps, log, k);
    BodyTallied(b, c, steps, log, k);
  }

  lemma {:induction false} BlankIsTallied(c: Config, steps: seq<Step>)
    requires c.promotion > 0
    ensures Tallied(NEW_BASELINE, c, steps, [])
  {
    assert Buckets(steps, []) == {};
  }

  // ----- whole runs -----

  /** The log of an entry: in order, every request since its creation that may be learned and raised no
      signal; no prune in between. */
  ghost predicate IsLogOf(c: Config, run: Run, k: nat, shape: string, log: seq<nat>)
    requires IsRun(c, run) && k <= |run.steps|
  {
    && log != [] && (forall i, j :: 0 <= i < j < |log| ==> log[i] < log[j])
    && (forall i :: 0 <= i < |log| ==> log[i] < k)
    && (forall j :: log[0] <= j < k ==> (j in log <==> Absorbing(c, run, shape, j)))
    && forall j :: log[0] < j < k ==> Kept(run.states[j], shape, run.steps[j].now, c.retention)
  }

  ghost predicate Absorbing(c: Config, run: Run, shape: string, j: nat)
    requires IsRun(c, run) && j < |run.steps|
  {
    && run.steps[j].request.routeShape == shape && MayLearn(c, run.steps[j].request)
    && run.outcomes[j].signals == []
  }

  lemma {:induction false} EntryIsTallied(c: Config, run: Run, k: nat, shape: string, before: seq<nat>)
    returns (log: seq<nat>)
    requires IsRun(c, run) && k < |run.steps| && WellFormed(run.steps) && 0 < c.promotion <= U64_MAX
    requires shape in run.states[k] ==>
      IsExplainedBy(c, run, k, shape, before) && Tallied(run.states[k][shape], c, run.steps, before)
    requires shape in run.states[k + 1]
    ensures IsExplainedBy(c, run, k + 1, shape, log) && Tallied(run.states[k + 1][shape], c, run.steps, log)
  {
    assert Follows(c, run, k);
    var kept, absorbs := EntryAfter(run.states[k], c, run.steps[k].request, run.steps[k].now, shape);
    log := if kept then before else [];
    if kept { KeptAndAbsorbing(c, run, k, shape, log); } else { CreatedAndAbsorbing(c, run, k, shape); }
    BlankIsTallied(c, run.steps);
    if absorbs {
      var b := if kept then Dated(run.states[k][shape], run.steps[k].now) else NEW_BASELINE;
      LearnIsExplained(if kept then run.states[k][shape] else NEW_BASELINE, c, run.steps, log, k);
      LearnIsTallied(b, c, run.steps, log, k);
      assert kept || [] + [k] == [k];
      log := log + [k];
    }
  }

  lemma {:induction false} EntriesAreTallied(c: Config, run: Run, k: nat, shape: string) returns (log: seq<nat>)
    requires IsRun(c, run) && k <= |run.steps| && WellFormed(run.steps) && 0 < c.promotion <= U64_MAX
    requires shape in run.states[k]
    ensures IsExplainedBy(c, run, k, shape, log) && Tallied(run.states[k][shape], c, run.steps, log)
    decreases k
  {
    var before := [];
    if shape in run.states[k - 1] { before := EntriesAreTallied(c, run, k - 1, shape); }
    log := EntryIsTallied(c, run, k - 1, shape, before);
  }

  lemma {:induction false} ExplainedLog(c: Config, run: Run, k: nat, shape: string, log: seq<nat>)
    requires IsRun(c, run) && k <= |run.steps| && IsExplainedBy(c, run, k, shape, log)
    ensures IsLogOf(c, run, k, shape, log)
  {
    forall j | log[0] <= j < k ensures j in log <==> Absorbing(c, run, shape, j) {
      if j in log { var i :| 0 <= i < |log| && log[i] == j; }
    }
    forall j | log[0] < j < k ensures Kept(run.states[j], shape, run.steps[j].now, c.retention) {
      assert KeptAt(c, run, shape, j);
      KeptIsPruned(run.states[j], run.steps[j].now, c.retention);
    }
  }

  /** In every run of well-formed requests, every entry is an exact tally of its log. */
  lemma {:induction false} BaselinesAreTallies(c: Config, run: Run, k: nat, shape: string) returns (log: seq<nat>)
    requires IsRun(c, run) && k <= |run.steps| && WellFormed(run.steps) && 0 < c.promotion <= U64_MAX
    requires shape in run.states[k]
    ensures IsLogOf(c, run, k, shape, log) && Tallied(run.states[k][shape], c, run.steps, log)
  {
    log := EntriesAreTallied(c, run, k, shape);
    ExplainedLog(c, run, k, shape, log);
  }
}
