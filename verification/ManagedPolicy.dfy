/**
 The policy a Console manages for this WAF: its verification against the local configuration, of
 src/console/client/policy.rs, and the handle that enforces it, of src/console/policy.rs. Signature
 and identity checks, other configuration checks and rule loading are verdicts that come with the
 response.
 */
module ManagedPolicy {
  import opened Wrappers
  import opened WafTypes
  import Text

  const U16_MAX: nat := 65535
  const U8_MAX: nat := 255

  /** A JSON value as the code looks at it: `Other` is neither a string nor an unsigned integer. */
  datatype Json = Absent | Str(text: string) | Num(value: nat) | Other

  datatype JsonList = NoList | NotArray | Items(items: seq<Json>)

  /** `conditions` are the remaining plain conditions; `restValid` says whether the others validate. */
  datatype Exclusion = Exclusion(
    name: Option<string>, ruleIds: seq<string>, categories: seq<string>, conditions: seq<string>, restValid: bool)

  datatype ExclusionList = NoExclusions | Malformed | Exclusions(list: seq<Exclusion>)

  datatype Bundle = Bundle(
    exclusions: ExclusionList, disabledRuleIds: JsonList, disabledCategories: JsonList,
    mode: Json, anomalyThreshold: Json, detection: Json, blocking: Json)

  /** `authentic`: signed by a trusted key and meant for this agent. `restValid`: the rest of the
      resulting configuration validates and its rules load. */
  datatype Response = Response(
    policyKey: string, revision: int, digest: string, authentic: bool, restValid: bool, bundle: Bundle)

  /** The local settings a managed policy can touch, and the rules that are loaded. */
  datatype Config = Config(
    mode: WafMode, anomalyThreshold: nat, paranoia: nat, detection: Option<nat>, blocking: Option<nat>,
    exclusions: seq<Exclusion>, knownRuleIds: set<string>, knownCategories: set<string>)

  function DetectionLevel(c: Config): nat { if c.detection.Some? then c.detection.value else c.paranoia }

  function BlockingLevel(c: Config): nat { if c.blocking.Some? then c.blocking.value else c.paranoia }

  // ----- verification -----

  predicate Blank(s: string) { Text.Trim(s) == "" }

  predicate AllTexts(items: seq<Json>) {
    forall i :: 0 <= i < |items| ==> items[i].Str? && !Blank(items[i].text)
  }

  function TextsOf(items: seq<Json>): seq<string>
    requires AllTexts(items)
  {
    if items == [] then [] else [items[0].text] + TextsOf(items[1..])
  }

  predicate ListsWellFormed(b: Bundle) {
    && !b.exclusions.Malformed?
    && (b.disabledRuleIds.NoList? || (b.disabledRuleIds.Items? && AllTexts(b.disabledRuleIds.items)))
    && (b.disabledCategories.NoList? || (b.disabledCategories.Items? && AllTexts(b.disabledCategories.items)))
  }

  predicate Selects(e: Exclusion) { e.ruleIds != [] || e.categories != [] }

  function Selecting(exclusions: seq<Exclusion>): seq<Exclusion> {
    if exclusions == [] then []
    else (if Selects(exclusions[0]) then [exclusions[0]] else []) + Selecting(exclusions[1..])
  }

  function DisabledRules(b: Bundle): seq<Exclusion>
    requires ListsWellFormed(b)
  {
    if b.disabledRuleIds.NoList? then []
    else [Exclusion(Some("Console-managed disabled rules"), TextsOf(b.disabledRuleIds.items), [], [], true)]
  }

  function DisabledCategories(b: Bundle): seq<Exclusion>
    requires ListsWellFormed(b)
  {
    if b.disabledCategories.NoList? then []
    else [Exclusion(Some("Console-managed disabled categories"), [], TextsOf(b.disabledCategories.items), [], true)]
  }

  /** The exclusions the bundle asks for, without those that select nothing. */
  function ManagedExclusions(b: Bundle): seq<Exclusion>
    requires ListsWellFormed(b)
  {
    Selecting((if b.exclusions.Exclusions? then b.exclusions.list else []) + DisabledRules(b) + DisabledCategories(b))
  }

  predicate KnownLocally(e: Exclusion, c: Config) {
    && (forall i :: 0 <= i < |e.ruleIds| ==> e.ruleIds[i] in c.knownRuleIds)
    && forall i :: 0 <= i < |e.categories| ==> e.categories[i] in c.knownCategories
  }

  function ParseManagedMode(text: string): Option<WafMode> {
    if text == "monitor" then Some(WafMode.Monitor)
    else if text == "block" then Some(WafMode.Block)
    else if text == "strict" then Some(WafMode.Strict)
    else None
  }

  predicate InRange(j: Json, max: nat) { j.Num? ==> j.value <= max }

  function NumberOr(j: Json, fallback: Option<nat>): Option<nat> { if j.Num? then Some(j.value) else fallback }

  /** Does the policy part parse, within range and within what is loaded locally? */
  predicate PolicyParses(b: Bundle, c: Config) {
    && (b.mode.Str? ==> ParseManagedMode(b.mode.text).Some?)
    && InRange(b.anomalyThreshold, U16_MAX) && InRange(b.detection, U8_MAX) && InRange(b.blocking, U8_MAX)
    && (b.detection.Num? ==> b.detection.value <= DetectionLevel(c))
  }

  /** The configuration that is validated: the local one with the policy and its exclusions applied. */
  function Validation(c: Config, b: Bundle, exclusions: seq<Exclusion>): Config
    requires PolicyParses(b, c)
  {
    c.(mode := if b.mode.Str? then ParseManagedMode(b.mode.text).value else c.mode,
       anomalyThreshold := if b.anomalyThreshold.Num? then b.anomalyThreshold.value else c.anomalyThreshold,
       detection := NumberOr(b.detection, c.detection),
       blocking := NumberOr(b.blocking, c.blocking),
       exclusions := c.exclusions + exclusions)
  }

  predicate ValidExclusion(e: Exclusion) {
    && Selects(e) && e.restValid
    && forall s :: s in e.ruleIds + e.categories + e.conditions ==> !Blank(s)
  }

  /** The part of configuration validation that concerns these settings. */
  predicate Valid(c: Config) {
    && c.anomalyThreshold > 0 && c.paranoia > 0 && DetectionLevel(c) > 0 && BlockingLevel(c) > 0
    && BlockingLevel(c) <= DetectionLevel(c)
    && forall i :: 0 <= i < |c.exclusions| ==> ValidExclusion(c.exclusions[i])
  }

  /** Everything a response must meet. */
  predicate Acceptable(r: Response, c: Config) {
    && r.authentic && ListsWellFormed(r.bundle) && PolicyParses(r.bundle, c)
    && (forall i :: 0 <= i < |ManagedExclusions(r.bundle)| ==> KnownLocally(ManagedExclusions(r.bundle)[i], c))
    && Valid(Validation(c, r.bundle, ManagedExclusions(r.bundle))) && r.restValid
  }

  method TextItems(list: JsonList) returns (texts: Option<seq<string>>)
    requires !list.NoList?
    ensures texts.Some? <==> list.Items? && AllTexts(list.items)
    ensures texts.Some? ==> texts.value == TextsOf(list.items)
  {
    if list.NotArray? { return None; }
    var collected: seq<string> := [];
    var i := 0;
    assert list.items[0..] == list.items;
    while i < |list.items|
      invariant 0 <= i <= |list.items| && (forall k :: 0 <= k < i ==> list.items[k].Str? && !Blank(list.items[k].text))
      invariant AllTexts(list.items) ==> collected + TextsOf(list.items[i..]) == TextsOf(list.items)
    {
      if !list.items[i].Str? || Blank(list.items[i].text) { return None; }
      assert list.items[i..][1..] == list.items[i + 1..];
      collected := collected + [list.items[i].text];
      i := i + 1;
    }
    assert list.items[i..] == [] && collected + [] == collected;
    return Some(collected);
  }

  method CheckKnown(exclusions: seq<Exclusion>, c: Config) returns (known: bool)
    ensures known <==> forall i :: 0 <= i < |exclusions| ==> KnownLocally(exclusions[i], c)
  {
    for i := 0 to |exclusions|
      invariant forall k :: 0 <= k < i ==> KnownLocally(exclusions[k], c)
    {
      var e := exclusions[i];
      for j := 0 to |e.ruleIds|
        invariant forall k :: 0 <= k < j ==> e.ruleIds[k] in c.knownRuleIds
      {
        if e.ruleIds[j] !in c.knownRuleIds { return false; }
      }
      for j := 0 to |e.categories|
        invariant forall k :: 0 <= k < j ==> e.categories[k] in c.knownCategories
      {
        if e.categories[j] !in c.knownCategories { return false; }
      }
    }
    return true;
  }

  method CollectExclusions(b: Bundle) returns (result: Option<seq<Exclusion>>)
    ensures result.Some? <==> ListsWellFormed(b)
    ensures result.Some? ==> result.value == ManagedExclusions(b)
  {
    if b.exclusions.Malformed? { return None; }
    var exclusions := if b.exclusions.Exclusions? then b.exclusions.list else [];
    ghost var given := exclusions;
    if !b.disabledRuleIds.NoList? {
      var ids := TextItems(b.disabledRuleIds);
      if ids.None? { return None; }
      exclusions := exclusions + [Exclusion(Some("Console-managed disabled rules"), ids.value, [], [], true)];
    }
    ghost var withRules := exclusions;
    if !b.disabledCategories.NoList? {
      var categories := TextItems(b.disabledCategories);
      if categories.None? { return None; }
      exclusions :=
        exclusions + [Exclusion(Some("Console-managed disabled categories"), [], categories.value, [], true)];
    }
    assert given + [] == given && withRules + [] == withRules;
    assert withRules == given + DisabledRules(b) && exclusions == withRules + DisabledCategories(b);
    return Some(Selecting(exclusions));
  }

  /** Accepts exactly the acceptable responses, and returns their exclusions. */
  method VerifyEffectivePolicy(r: Response, c: Config) returns (result: Option<seq<Exclusion>>)
    ensures result.Some? <==> Acceptable(r, c)
    ensures result.Some? ==> result.value == ManagedExclusions(r.bundle)
  {
    var b := r.bundle;
    if !r.authentic { return None; }
    var collected := CollectExclusions(b);
    if collected.None? { return None; }
    var exclusions := collected.value;
    var known := CheckKnown(exclusions, c);
    if !known { return None; }
    var validation := c;
    if b.mode.Str? {
      var mode := ParseManagedMode(b.mode.text);
      if mode.None? { return None; }
      validation := validation.(mode := mode.value);
    }
    if b.anomalyThreshold.Num? {
      if b.anomalyThreshold.value > U16_MAX { return None; }
      validation := validation.(anomalyThreshold := b.anomalyThreshold.value);
    }
    if b.detection.Num? {
      if b.detection.value > U8_MAX || b.detection.value > DetectionLevel(c) { return None; }
      validation := validation.(detection := Some(b.detection.value));
    }
    if b.blocking.Num? {
      if b.blocking.value > U8_MAX { return None; }
      validation := validation.(blocking := Some(b.blocking.value));
    }
    validation := validation.(exclusions := validation.exclusions + exclusions);
    assert validation == Validation(c, b, exclusions);
    if !Valid(validation) || !r.restValid { return None; }
    return Some(exclusions);
  }

  // ----- the handle -----

  datatype SyncError = OverrideUnreadable | FetchFailed | BadStatus | BadBody | NotVerified | NotPersisted

  datatype Reason = NothingAssigned | Rejected(error: SyncError) | OverrideBy(text: string)

  /** What the handle enforces on top of the local configuration. */
  datatype Enforced = Enforced(
    exclusions: seq<Exclusion>, mode: Option<WafMode>, anomalyThreshold: Option<nat>, detection: Option<nat>,
    blocking: Option<nat>)

  const NOTHING_ENFORCED := Enforced([], None, None, None, None)

  /** What the handle reports as its policy. */
  datatype Identity = Identity(policyKey: Option<string>, revision: Option<int>, digest: Option<string>)

  const NO_IDENTITY := Identity(None, None, None)

  datatype State = State(enforced: Enforced, identity: Identity, lifecycle: string, reason: Option<Reason>)

  const INITIAL_STATE := State(NOTHING_ENFORCED, NO_IDENTITY, "", None)

  datatype Transition = Transition(lifecycle: string, identity: Identity, reason: Option<Reason>)

  function IdentityOf(r: Response): Identity { Identity(Some(r.policyKey), Some(r.revision), Some(r.digest)) }

  /** The fields as activation reads them again from the bundle. */
  function EnforcedFrom(b: Bundle, exclusions: seq<Exclusion>): Enforced {
    Enforced(exclusions,
             if b.mode.Str? then ParseManagedMode(b.mode.text) else None,
             if b.anomalyThreshold.Num? && b.anomalyThreshold.value <= U16_MAX
             then Some(b.anomalyThreshold.value)
             else None,
             if b.detection.Num? && b.detection.value <= U8_MAX then Some(b.detection.value) else None,
             if b.blocking.Num? && b.blocking.value <= U8_MAX then Some(b.blocking.value) else None)
  }

  /** The local configuration with the enforced settings; exclusions are read separately. */
  function EffectiveConfig(e: Enforced, c: Config): Config {
    c.(mode := if e.mode.Some? then e.mode.value else c.mode,
       anomalyThreshold := if e.anomalyThreshold.Some? then e.anomalyThreshold.value else c.anomalyThreshold,
       detection := if e.detection.Some? then e.detection else c.detection,
       blocking := if e.blocking.Some? then e.blocking else c.blocking)
  }

  /** The journal drops a transition that repeats the last one. */
  function Journaled(journal: seq<Transition>, t: Transition): seq<Transition> {
    if journal != [] && journal[|journal| - 1] == t then journal else journal + [t]
  }

  class ManagedPolicyHandle {
    var state: State
    var transitions: seq<Transition>

    /** Startup reads the journal that an earlier process left. */
    constructor (loaded: seq<Transition>)
      ensures state == INITIAL_STATE && transitions == loaded
    {
      state, transitions := INITIAL_STATE, loaded;
    }

    method PersistTransition(t: Transition)
      modifies this`transitions
      ensures transitions == Journaled(old(transitions), t)
    {
      if transitions != [] && transitions[|transitions| - 1] == t { return; }
      transitions := transitions + [t];
    }

    method AcknowledgeTransitions()
      modifies this`transitions
      ensures transitions == []
    {
      transitions := [];
    }

    method ActivateVerified(r: Response, exclusions: seq<Exclusion>)
      modifies this
      ensures state == State(EnforcedFrom(r.bundle, exclusions), IdentityOf(r), "activated", None)
      ensures transitions == Journaled(old(transitions), Transition("activated", IdentityOf(r), None))
    {
      state := State(EnforcedFrom(r.bundle, exclusions), IdentityOf(r), "activated", None);
      PersistTransition(Transition("activated", IdentityOf(r), None));
    }

    method RecordLifecycle(lifecycle: string, reason: Option<Reason>)
      modifies this
      ensures state == old(state).(lifecycle := lifecycle, reason := reason)
      ensures transitions == Journaled(old(transitions), Transition(lifecycle, old(state.identity), reason))
    {
      state := state.(lifecycle := lifecycle, reason := reason);
      PersistTransition(Transition(lifecycle, state.identity, reason));
    }

    method RecordPolicyLifecycle(r: Response, lifecycle: string, reason: Option<Reason>)
      modifies this
      ensures state == old(state).(identity := IdentityOf(r), lifecycle := lifecycle, reason := reason)
      ensures transitions == Journaled(old(transitions), Transition(lifecycle, IdentityOf(r), reason))
    {
      state := state.(identity := IdentityOf(r), lifecycle := lifecycle, reason := reason);
      PersistTransition(Transition(lifecycle, state.identity, reason));
    }

    method ActivateEmergencyOverride(text: string)
      modifies this
      ensures state == INITIAL_STATE.(lifecycle := "rolled_back", reason := Some(OverrideBy(text)))
      ensures transitions == Journaled(old(transitions),
          Transition("rolled_back", old(state.identity), Some(OverrideBy(text))))
    {
      var identity := state.identity;
      state := INITIAL_STATE.(lifecycle := "rolled_back", reason := Some(OverrideBy(text)));
      PersistTransition(Transition("rolled_back", identity, Some(OverrideBy(text))));
    }

    method Fetch(c: Config, reply: Reply, persisted: bool, override: OverrideCheck) returns (error: Option<SyncError>)
      modifies this
      ensures error == FetchError(c, reply, persisted, override)
      ensures (state, transitions) == AfterFetch((old(state), old(transitions)), c, reply, persisted, override)
    {
      RecordLifecycle("resolving", None);
      match reply
      case Unreachable => return Some(FetchFailed);
      case NotFound =>
        RecordLifecycle("resolved", Some(NothingAssigned));
        return None;
      case Status => return Some(BadStatus);
      case Unparsable => return Some(BadBody);
      case Policy(r) =>
        RecordPolicyLifecycle(r, "downloaded", None);
        var exclusions := VerifyEffectivePolicy(r, c);
        if exclusions.None? { return Some(NotVerified); }
        if !persisted { return Some(NotPersisted); }
        if override.Unreadable? { return Some(OverrideUnreadable); }
        if override.Override? {
          ActivateEmergencyOverride(override.text);
          return None;
        }
        ActivateVerified(r, exclusions.value);
        return None;
    }

    /** One turn of the poll loop. */
    method Sync(c: Config, first: OverrideCheck, reply: Reply, persisted: bool, second: OverrideCheck)
      modifies this
      ensures (state, transitions)
           == After((old(state), old(transitions)), c, SyncStep(first, reply, persisted, second))
    {
      if first.Unreadable? {
        RecordLifecycle("rejected", Some(Rejected(OverrideUnreadable)));
        return;
      }
      if first.Override? {
        ActivateEmergencyOverride(first.text);
        return;
      }
      var error := Fetch(c, reply, persisted, second);
      if error.Some? { RecordLifecycle("rejected", Some(Rejected(error.value))); }
    }

    /** Startup with the policy cached on disk, if any. */
    method Start(c: Config, override: OverrideCheck, cached: Option<Response>)
      modifies this
      ensures (state, transitions) == After((old(state), old(transitions)), c, StartStep(override, cached))
    {
      if override.Unreadable? { return; }
      if override.Override? { ActivateEmergencyOverride(override.text); }
      if cached.Some? {
        var exclusions := VerifyEffectivePolicy(cached.value, c);
        if exclusions.Some? && override.NoOverride? { ActivateVerified(cached.value, exclusions.value); }
      }
    }
  }

  // ----- the steps, as functions -----

  /** What reading the emergency override file gives. */
  datatype OverrideCheck = Unreadable | NoOverride | Override(text: string)

  datatype Reply = Unreachable | NotFound | Status | Unparsable | Policy(response: Response)

  datatype Step =
    | StartStep(override: OverrideCheck, cached: Option<Response>)
    | SyncStep(first: OverrideCheck, reply: Reply, persisted: bool, second: OverrideCheck)
    | AcknowledgeStep

  type Handle = (State, seq<Transition>)

  function WithLifecycle(h: Handle, lifecycle: string, reason: Option<Reason>): Handle {
    (h.0.(lifecycle := lifecycle, reason := reason), Journaled(h.1, Transition(lifecycle, h.0.identity, reason)))
  }

  function RolledBack(h: Handle, text: string): Handle {
    (INITIAL_STATE.(lifecycle := "rolled_back", reason := Some(OverrideBy(text))),
     Journaled(h.1, Transition("rolled_back", h.0.identity, Some(OverrideBy(text)))))
  }

  function Activated(h: Handle, r: Response): Handle
    requires ListsWellFormed(r.bundle)
  {
    (State(EnforcedFrom(r.bundle, ManagedExclusions(r.bundle)), IdentityOf(r), "activated", None),
     Journaled(h.1, Transition("activated", IdentityOf(r), None)))
  }

  function FetchError(c: Config, reply: Reply, persisted: bool, override: OverrideCheck): Option<SyncError> {
    match reply
    case Unreachable => Some(FetchFailed)
    case NotFound => None
    case Status => Some(BadStatus)
    case Unparsable => Some(BadBody)
    case Policy(r) =>
      if !Acceptable(r, c) then Some(NotVerified)
      else if !persisted then Some(NotPersisted)
      else if override.Unreadable? then Some(OverrideUnreadable)
      else None
  }

  function AfterFetch(h: Handle, c: Config, reply: Reply, persisted: bool, override: OverrideCheck): Handle {
    var resolving := WithLifecycle(h, "resolving", None);
    match reply
    case NotFound => WithLifecycle(resolving, "resolved", Some(NothingAssigned))
    case Policy(r) =>
      var downloaded := WithLifecycle((resolving.0.(identity := IdentityOf(r)), resolving.1), "downloaded", None);
      if FetchError(c, reply, persisted, override).Some? then downloaded
      else if override.Override? then RolledBack(downloaded, override.text)
      else Activated(downloaded, r)
    case _ => resolving
  }

  function After(h: Handle, c: Config, step: Step): Handle {
    match step
    case AcknowledgeStep => (h.0, [])
    case StartStep(override, cached) =>
      if override.Unreadable? then h
      else if override.Override? then RolledBack(h, override.text)
      else if cached.Some? && Acceptable(cached.value, c) then Activated(h, cached.value)
      else h
    case SyncStep(first, reply, persisted, second) =>
      if first.Unreadable? then WithLifecycle(h, "rejected", Some(Rejected(OverrideUnreadable)))
      else if first.Override? then RolledBack(h, first.text)
      else
        var fetched, error := AfterFetch(h, c, reply, persisted, second), FetchError(c, reply, persisted, second);
        if error.Some? then WithLifecycle(fetched, "rejected", Some(Rejected(error.value))) else fetched
  }

  function Run(h: Handle, c: Config, steps: seq<Step>): Handle {
    if steps == [] then h
    else After(Run(h, c, steps[..|steps| - 1]), c, steps[|steps| - 1])
  }

  // ----- last known good -----

  /** What a step means for enforcement. */
  datatype Effect = Keep | Clear | Activate(response: Response)

  function EffectOf(c: Config, step: Step): Effect {
    match step
    case AcknowledgeStep => Keep
    case StartStep(override, cached) =>
      if override.Override? then Clear
      else if override.NoOverride? && cached.Some? && Acceptable(cached.value, c) then Activate(cached.value)
      else Keep
    case SyncStep(first, reply, persisted, second) =>
      if first.Override? then Clear
      else if first.NoOverride? && reply.Policy? && Acceptable(reply.response, c) && persisted
        && !second.Unreadable? then
        if second.Override? then Clear else Activate(reply.response)
      else Keep
  }

  /** The response of the last step that was not `Keep`, if that was an activation. */
  function Standing(c: Config, steps: seq<Step>): Option<Response> {
    if steps == [] then None
    else
      var last := |steps| - 1;
      match EffectOf(c, steps[last])
      case Keep => Standing(c, steps[..last])
      case Clear => None
      case Activate(r) => Some(r)
  }

  function EnforcedBy(standing: Option<Response>): Enforced {
    match standing
    case Some(r) =>
      if ListsWellFormed(r.bundle) then EnforcedFrom(r.bundle, ManagedExclusions(r.bundle)) else NOTHING_ENFORCED
    case None => NOTHING_ENFORCED
  }

  /** At every reachable state the enforced settings are those of the last policy that passed
      verification and was activated, or nothing if an override cleared it or there was none;
      fetches that fail or are rejected change nothing. */
  lemma {:induction false} EnforcesLastVerified(c: Config, steps: seq<Step>, loaded: seq<Transition>)
    ensures Run((INITIAL_STATE, loaded), c, steps).0.enforced == EnforcedBy(Standing(c, steps))
    ensures Standing(c, steps).Some? ==> Acceptable(Standing(c, steps).value, c)
    decreases |steps|
  {
    if steps != [] {
      var before, last := steps[..|steps| - 1], steps[|steps| - 1];
      EnforcesLastVerified(c, before, loaded);
      StepEnforces(c, Run((INITIAL_STATE, loaded), c, before), last);
    }
  }

  /** One step does to enforcement what its effect says. */
  lemma {:induction false} StepEnforces(c: Config, h: Handle, step: Step)
    ensures After(h, c, step).0.enforced ==
      match EffectOf(c, step)
      case Keep => h.0.enforced
      case Clear => NOTHING_ENFORCED
      case Activate(r) => EnforcedBy(Some(r))
    ensures EffectOf(c, step).Activate? ==> Acceptable(EffectOf(c, step).response, c)
  {
  }

  /** What activation enforces, with its exclusions, is the configuration that verification validated. */
  lemma {:induction false} ActivationIsValidation(c: Config, r: Response)
    requires Acceptable(r, c)
    ensures var e := EnforcedBy(Some(r));
            EffectiveConfig(e, c).(exclusions := c.exclusions + e.exclusions)
              == Validation(c, r.bundle, ManagedExclusions(r.bundle))
  {
  }

  /** At every reachable state, if the local configuration is valid, the effective one with the managed
      exclusions is valid too: blocking within detection within what is loaded locally, a positive
      threshold, only known rules excluded, and the WAF off only if it is off locally. */
  lemma {:induction false} EffectiveIsAlwaysValid(c: Config, steps: seq<Step>, loaded: seq<Transition>)
    requires Valid(c)
    ensures var e := Run((INITIAL_STATE, loaded), c, steps).0.enforced;
            var effective := EffectiveConfig(e, c);
            && Valid(effective.(exclusions := c.exclusions + e.exclusions))
            && BlockingLevel(effective) <= DetectionLevel(effective) <= DetectionLevel(c)
            && effective.anomalyThreshold > 0
            && (effective.mode == WafMode.Off ==> c.mode == WafMode.Off)
            && forall i :: 0 <= i < |e.exclusions| ==> KnownLocally(e.exclusions[i], c)
  {
    EnforcesLastVerified(c, steps, loaded);
    match Standing(c, steps)
    case Some(r) => ActivationIsValidation(c, r);
    case None => assert c.exclusions + [] == c.exclusions;
  }

  // ----- what is reported -----

  function IdentityBy(standing: Option<Response>): Identity {
    if standing.Some? then IdentityOf(standing.value) else NO_IDENTITY
  }

  /** The policy that a step downloads. */
  function Downloaded(step: Step): Option<Response> {
    if step.SyncStep? && step.first.NoOverride? && step.reply.Policy? then Some(step.reply.response) else None
  }

  /** The policy downloaded last since the last activation or clearing, if it was not put in force. */
  function Unapplied(c: Config, steps: seq<Step>): Option<Response> {
    if steps == [] then None
    else
      var last := |steps| - 1;
      if !EffectOf(c, steps[last]).Keep? then None
      else if Downloaded(steps[last]).Some? then Downloaded(steps[last])
      else Unapplied(c, steps[..last])
  }

  /** One step names what it activates, or else what it downloads; clearing leaves no name. */
  lemma {:induction false} StepNames(c: Config, h: Handle, step: Step)
    ensures After(h, c, step).0.identity ==
      match EffectOf(c, step)
      case Keep => if Downloaded(step).Some? then IdentityOf(Downloaded(step).value) else h.0.identity
      case Clear => NO_IDENTITY
      case Activate(r) => IdentityOf(r)
  {
  }

  /** The reported identity is not last-known-good: at every reachable state it is that of the last
      download that was not put in force, if there is one since the last activation or clearing. So it
      differs from the policy in force exactly when such a download names another policy. */
  lemma {:induction false} ReportedIdentityFollowsDownloads(c: Config, steps: seq<Step>, loaded: seq<Transition>)
    ensures var reported, inForce := Run((INITIAL_STATE, loaded), c, steps).0.identity, IdentityBy(Standing(c, steps));
            && reported == (if Unapplied(c, steps).Some? then IdentityOf(Unapplied(c, steps).value) else inForce)
            && (reported != inForce <==> Unapplied(c, steps).Some? && IdentityOf(Unapplied(c, steps).value) != inForce)
    decreases |steps|
  {
    if steps != [] {
      var before, last := steps[..|steps| - 1], steps[|steps| - 1];
      ReportedIdentityFollowsDownloads(c, before, loaded);
      StepNames(c, Run((INITIAL_STATE, loaded), c, before), last);
    }
  }

  // ----- the journal -----

  ghost predicate NoRepeats(journal: seq<Transition>) { forall i :: 0 < i < |journal| ==> journal[i] != journal[i - 1] }

  /** The journal repeats nothing in a row and, when it is not empty, ends with the current lifecycle
      and reason, and with the reported identity unless that was rolled back. */
  ghost predicate Current(h: Handle) {
    && NoRepeats(h.1)
    && (h.1 != [] ==>
      var last := h.1[|h.1| - 1];
      && last.lifecycle == h.0.lifecycle && last.reason == h.0.reason
      && (last.identity == h.0.identity || h.0.identity == NO_IDENTITY))
  }

  lemma {:induction false} OneMoreTransition(journal: seq<Transition>, t: Transition)
    requires NoRepeats(journal)
    ensures NoRepeats(Journaled(journal, t)) && Journaled(journal, t) != []
    ensures Journaled(journal, t)[|Journaled(journal, t)| - 1] == t
  {
  }

  lemma {:induction false} Lifecycles(h: Handle, lifecycle: string, reason: Option<Reason>)
    requires NoRepeats(h.1)
    ensures Current(WithLifecycle(h, lifecycle, reason))
  {
    OneMoreTransition(h.1, Transition(lifecycle, h.0.identity, reason));
  }

  lemma {:induction false} Overrides(h: Handle, text: string)
    requires NoRepeats(h.1)
    ensures Current(RolledBack(h, text))
  {
    OneMoreTransition(h.1, Transition("rolled_back", h.0.identity, Some(OverrideBy(text))));
  }

  lemma {:induction false} Activates(h: Handle, r: Response)
    requires NoRepeats(h.1) && ListsWellFormed(r.bundle)
    ensures Current(Activated(h, r))
  {
    OneMoreTransition(h.1, Transition("activated", IdentityOf(r), None));
  }

  lemma {:induction false} FetchJournals(h: Handle, c: Config, reply: Reply, persisted: bool, override: OverrideCheck)
    returns (fetched: Handle)
    requires NoRepeats(h.1)
    ensures fetched == AfterFetch(h, c, reply, persisted, override) && Current(fetched)
  {
    fetched := AfterFetch(h, c, reply, persisted, override);
    var resolving := WithLifecycle(h, "resolving", None);
    Lifecycles(h, "resolving", None);
    match reply
    case NotFound => Lifecycles(resolving, "resolved", Some(NothingAssigned));
    case Policy(r) =>
      var named := (resolving.0.(identity := IdentityOf(r)), resolving.1);
      Lifecycles(named, "downloaded", None);
      var downloaded := WithLifecycle(named, "downloaded", None);
      if FetchError(c, reply, persisted, override).None? {
        if override.Override? { Overrides(downloaded, override.text); } else { Activates(downloaded, r); }
      }
    case _ =>
  }

  lemma {:induction false} StepJournals(h: Handle, c: Config, step: Step)
    requires NoRepeats(h.1)
    ensures NoRepeats(After(h, c, step).1) && (Current(After(h, c, step)) || After(h, c, step) == h)
  {
    match step
    case AcknowledgeStep =>
    case StartStep(override, cached) =>
      if override.Override? {
        Overrides(h, override.text);
      } else if override.NoOverride? && cached.Some? && Acceptable(cached.value, c) {
        Activates(h, cached.value);
      }
    case SyncStep(first, reply, persisted, second) =>
      if first.Unreadable? {
        Lifecycles(h, "rejected", Some(Rejected(OverrideUnreadable)));
      } else if first.Override? {
        Overrides(h, first.text);
      } else {
        var fetched := FetchJournals(h, c, reply, persisted, second);
        var error := FetchError(c, reply, persisted, second);
        if error.Some? { Lifecycles(fetched, "rejected", Some(Rejected(error.value))); }
      }
  }

  /** Whatever journal, without a repeat in a row, was loaded at startup: until a step changes state or
      journal they are as they were loaded, and from then on the journal follows the state. */
  lemma {:induction false} JournalFollowsState(c: Config, steps: seq<Step>, loaded: seq<Transition>)
    requires NoRepeats(loaded)
    ensures var h := Run((INITIAL_STATE, loaded), c, steps);
            NoRepeats(h.1) && (Current(h) || h == (INITIAL_STATE, loaded))
    decreases |steps|
  {
    if steps != [] {
      JournalFollowsState(c, steps[..|steps| - 1], loaded);
      StepJournals(Run((INITIAL_STATE, loaded), c, steps[..|steps| - 1]), c, steps[|steps| - 1]);
    }
  }
}
