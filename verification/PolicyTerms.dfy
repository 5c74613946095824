/**
 The managed policy in terms of what the Console sends: which responses are accepted, which settings are
 in force, and what is recorded on the way.
 */
module PolicyTerms {
  import opened ManagedPolicy
  import opened Wrappers
  import opened WafTypes
  import Text

  // ----- acceptance -----

  ghost predicate IsBlank(s: string) { forall c :: c in s ==> Text.IsSpace(c) }

  /** Is the list absent, or a list of texts none of which is blank? */
  ghost predicate ListsTexts(list: JsonList) {
    list.NoList? || (list.Items? && forall item :: item in list.items ==> item.Str? && !IsBlank(item.text))
  }

  ghost predicate NamesMode(text: string, mode: WafMode) {
    || (text == "monitor" && mode == WafMode.Monitor) || (text == "block" && mode == WafMode.Block)
    || (text == "strict" && mode == WafMode.Strict)
  }

  /** The texts of a well-formed list, in order. */
  ghost predicate AreTexts(texts: seq<string>, list: JsonList) {
    && (list.NoList? ==> texts == [])
    && (list.Items? ==> |texts| == |list.items|
                        && forall i :: 0 <= i < |texts| ==> list.items[i] == Str(texts[i]))
  }

  ghost predicate ChoosesNothing(e: Exclusion) { e.ruleIds == [] && e.categories == [] }

  /** The exclusions a bundle asks for: those it lists, one for disabled rules, one for disabled
      categories, each unless it chooses nothing. */
  ghost predicate AreAsked(exclusions: seq<Exclusion>, b: Bundle) {
    exists rules: seq<string>, categories: seq<string> ::
      && AreTexts(rules, b.disabledRuleIds) && AreTexts(categories, b.disabledCategories)
      && exclusions
         == Filter((e: Exclusion) => !(e.ruleIds == [] && e.categories == []),
                   (if b.exclusions.Exclusions? then b.exclusions.list else [])
                   + [Exclusion(Some("Console-managed disabled rules"), rules, [], [], true)]
                   + [Exclusion(Some("Console-managed disabled categories"), [], categories, [], true)])
  }

  ghost predicate FullyValid(e: Exclusion) {
    && !ChoosesNothing(e) && e.restValid
    && (forall s :: s in e.ruleIds ==> !IsBlank(s)) && (forall s :: s in e.categories ==> !IsBlank(s))
    && forall s :: s in e.conditions ==> !IsBlank(s)
  }

  ghost predicate IsLoaded(e: Exclusion, c: Config) {
    (forall id :: id in e.ruleIds ==> id in c.knownRuleIds)
    && forall category :: category in e.categories ==> category in c.knownCategories
  }

  /** The level a number asks for, or else the local one. */
  ghost function Asked(j: Json, otherwise: nat): nat { if j.Num? then j.value else otherwise }

  /** All that a response must be. */
  ghost predicate Accepts(r: Response, c: Config, exclusions: seq<Exclusion>) {
    var b := r.bundle;
    var local := if c.detection.Some? then c.detection.value else c.paranoia;
    var detection := Asked(b.detection, local);
    var blocking := Asked(b.blocking, if c.blocking.Some? then c.blocking.value else c.paranoia);
    && r.authentic && r.restValid
    && !b.exclusions.Malformed? && ListsTexts(b.disabledRuleIds) && ListsTexts(b.disabledCategories)
    && (b.mode.Str? ==> exists mode :: NamesMode(b.mode.text, mode))
    && Asked(b.anomalyThreshold, 0) <= 65535 && Asked(b.anomalyThreshold, c.anomalyThreshold) > 0
    && Asked(b.detection, 0) <= 255 && Asked(b.blocking, 0) <= 255 && c.paranoia > 0
    && 0 < blocking <= detection && (b.detection.Num? ==> detection <= local)
    && (forall e :: e in exclusions ==> IsLoaded(e, c))
    && forall e :: e in c.exclusions + exclusions ==> FullyValid(e)
  }

  lemma {:induction false} BlankIsSpaces(s: string)
    ensures Blank(s) <==> IsBlank(s)
  {
    var before, after := Text.TrimmedEnds(s);
    var t := Text.Trim(s);
    assert s == before + t + after;
    if t != "" { assert t[0] in s; }
  }

  lemma {:induction false} TextsAreListed(list: JsonList)
    ensures (list.NoList? || (list.Items? && AllTexts(list.items))) <==> ListsTexts(list)
  {
    forall s ensures Blank(s) <==> IsBlank(s) { BlankIsSpaces(s); }
    if list.Items? && AllTexts(list.items) {
      forall item | item in list.items ensures item.Str? && !IsBlank(item.text) {
        var i :| 0 <= i < |list.items| && list.items[i] == item;
      }
    }
    if list.Items? && ListsTexts(list) {
      assert forall i :: 0 <= i < |list.items| ==> list.items[i] in list.items;
    }
  }

  lemma {:induction false} TextsAreTexts(items: seq<Json>)
    requires AllTexts(items)
    ensures AreTexts(TextsOf(items), Items(items))
    decreases |items|
  {
    if items != [] { TextsAreTexts(items[1..]); }
  }

  lemma {:induction false} SelectingIsFilter(exclusions: seq<Exclusion>)
    ensures Selecting(exclusions) == Filter((e: Exclusion) => !(e.ruleIds == [] && e.categories == []), exclusions)
    decreases |exclusions|
  {
    if exclusions != [] { SelectingIsFilter(exclusions[1..]); }
  }

  lemma {:induction false} DropEmpty(a: seq<Exclusion>, name: string, b: seq<Exclusion>)
    ensures var p := (e: Exclusion) => !(e.ruleIds == [] && e.categories == []);
            Filter(p, a + [Exclusion(Some(name), [], [], [], true)] + b) == Filter(p, a + b)
  {
    var p := (e: Exclusion) => !(e.ruleIds == [] && e.categories == []);
    var nothing := [Exclusion(Some(name), [], [], [], true)];
    FilterNone(p, nothing);
    FilterAppend(p, a + nothing, b);
    FilterAppend(p, a, nothing);
    FilterAppend(p, a, b);
    assert Filter(p, a) + [] == Filter(p, a);
  }

  /** The exclusions that verification returns are those the bundle asks for. */
  lemma {:induction false} ExclusionsAreAsked(b: Bundle)
    requires ListsWellFormed(b)
    ensures AreAsked(ManagedExclusions(b), b)
  {
    var given := if b.exclusions.Exclusions? then b.exclusions.list else [];
    var rules := if b.disabledRuleIds.NoList? then [] else TextsOf(b.disabledRuleIds.items);
    var categories := if b.disabledCategories.NoList? then [] else TextsOf(b.disabledCategories.items);
    if !b.disabledRuleIds.NoList? { TextsAreTexts(b.disabledRuleIds.items); }
    if !b.disabledCategories.NoList? { TextsAreTexts(b.disabledCategories.items); }
    var withRules := [Exclusion(Some("Console-managed disabled rules"), rules, [], [], true)];
    var withCategories := [Exclusion(Some("Console-managed disabled categories"), [], categories, [], true)];
    SelectingIsFilter(given + DisabledRules(b) + DisabledCategories(b));
    if b.disabledCategories.NoList? {
      DropEmpty(given + withRules, "Console-managed disabled categories", []);
      assert given + withRules + withCategories + [] == given + withRules + withCategories;
      assert given + withRules + [] == given + withRules;
      assert given + DisabledRules(b) + [] == given + DisabledRules(b);
    }
    if b.disabledRuleIds.NoList? {
      DropEmpty(given, "Console-managed disabled rules", withCategories);
      DropEmpty(given, "Console-managed disabled rules", []);
      assert given + [] == given && given + withRules + [] == given + withRules;
    }
    assert AreTexts(rules, b.disabledRuleIds) && AreTexts(categories, b.disabledCategories);
  }

  lemma {:induction false} ExclusionIsValid(e: Exclusion)
    ensures ValidExclusion(e) <==> FullyValid(e)
  {
    forall s ensures Blank(s) <==> IsBlank(s) { BlankIsSpaces(s); }
    var all := e.ruleIds + e.categories + e.conditions;
    assert forall s :: s in all <==> s in e.ruleIds || s in e.categories || s in e.conditions;
  }

  lemma {:induction false} KnownIsLoaded(e: Exclusion, c: Config)
    ensures KnownLocally(e, c) <==> IsLoaded(e, c)
  {
    assert forall i :: 0 <= i < |e.ruleIds| ==> e.ruleIds[i] in e.ruleIds;
    assert forall i :: 0 <= i < |e.categories| ==> e.categories[i] in e.categories;
  }

  lemma {:induction false} ModeIsNamed(text: string)
    ensures ParseManagedMode(text).Some? <==> exists mode :: NamesMode(text, mode)
    ensures ParseManagedMode(text).Some? ==> NamesMode(text, ParseManagedMode(text).value)
  {
    assert NamesMode("monitor", WafMode.Monitor) && NamesMode("block", WafMode.Block);
    assert NamesMode("strict", WafMode.Strict);
  }

  lemma {:induction false} AllValid(exclusions: seq<Exclusion>)
    ensures (forall i :: 0 <= i < |exclusions| ==> ValidExclusion(exclusions[i]))
       <==> forall e :: e in exclusions ==> FullyValid(e)
  {
    forall e ensures ValidExclusion(e) <==> FullyValid(e) { ExclusionIsValid(e); }
  }

  lemma {:induction false} AllLoaded(exclusions: seq<Exclusion>, c: Config)
    ensures (forall i :: 0 <= i < |exclusions| ==> KnownLocally(exclusions[i], c))
       <==> forall e :: e in exclusions ==> IsLoaded(e, c)
  {
    forall e ensures KnownLocally(e, c) <==> IsLoaded(e, c) { KnownIsLoaded(e, c); }
  }

  /** A response is accepted exactly if it is all that. */
  lemma {:induction false} AcceptanceIsExact(r: Response, c: Config) returns (exclusions: seq<Exclusion>)
    ensures ListsWellFormed(r.bundle) ==> exclusions == ManagedExclusions(r.bundle) && AreAsked(exclusions, r.bundle)
    ensures Acceptable(r, c) <==> Accepts(r, c, exclusions)
  {
    var b := r.bundle;
    TextsAreListed(b.disabledRuleIds);
    TextsAreListed(b.disabledCategories);
    exclusions := [];
    if ListsWellFormed(b) {
      exclusions := ManagedExclusions(b);
      ExclusionsAreAsked(b);
    }
    if b.mode.Str? { ModeIsNamed(b.mode.text); }
    AllValid(c.exclusions + exclusions);
    AllLoaded(exclusions, c);
  }

  // ----- what is in force -----

  /** The settings of a bundle over the local ones. */
  ghost predicate IsSetBy(effective: Config, enforced: seq<Exclusion>, b: Bundle, c: Config) {
    && (if b.mode.Str? then NamesMode(b.mode.text, effective.mode) else effective.mode == c.mode)
    && effective.anomalyThreshold == Asked(b.anomalyThreshold, c.anomalyThreshold)
    && effective.detection == (if b.detection.Num? then Some(b.detection.value) else c.detection)
    && effective.blocking == (if b.blocking.Num? then Some(b.blocking.value) else c.blocking)
    && AreAsked(enforced, b) && effective.exclusions == c.exclusions && effective.paranoia == c.paranoia
    && effective.knownRuleIds == c.knownRuleIds && effective.knownCategories == c.knownCategories
  }

  /** At every reachable state the settings in force are those of the policy standing, over the local
      ones, or the local ones if none stands. */
  lemma {:induction false} SettingsInForce(c: Config, steps: seq<Step>, loaded: seq<Transition>)
    ensures var e, standing := Run((INITIAL_STATE, loaded), c, steps).0.enforced, Standing(c, steps);
            if standing.Some? then IsSetBy(EffectiveConfig(e, c), e.exclusions, standing.value.bundle, c)
            else EffectiveConfig(e, c) == c && e.exclusions == []
  {
    EnforcesLastVerified(c, steps, loaded);
    if Standing(c, steps).Some? {
      var b := Standing(c, steps).value.bundle;
      ExclusionsAreAsked(b);
      if b.mode.Str? { ModeIsNamed(b.mode.text); }
    }
  }

  // ----- which policy stands -----

  /** The policy a step puts in force: one that is accepted, and stored where it must be, while no override
      is read before or after. */
  ghost predicate PutsInForce(c: Config, step: Step, r: Response) {
    && Acceptable(r, c)
    && ((step.StartStep? && step.override == NoOverride && step.cached == Some(r))
        || (step.SyncStep? && step.first == NoOverride && step.reply == Policy(r) && step.persisted
            && step.second == NoOverride))
  }

  /** A step drops what is in force exactly if it reads an override: before anything else, or after a policy
      was accepted and stored. */
  ghost predicate DropsAll(c: Config, step: Step) {
    || (step.StartStep? && step.override.Override?)
    || (step.SyncStep? && step.first.Override?)
    || (step.SyncStep? && step.first == NoOverride && step.reply.Policy? && Acceptable(step.reply.response, c)
        && step.persisted && step.second.Override?)
  }

  lemma {:induction false} EffectIsExact(c: Config, step: Step)
    ensures EffectOf(c, step).Activate? <==> exists r :: PutsInForce(c, step, r)
    ensures forall r :: PutsInForce(c, step, r) <==> EffectOf(c, step) == Activate(r)
    ensures EffectOf(c, step).Clear? <==> DropsAll(c, step)
  {
    if EffectOf(c, step).Activate? { assert PutsInForce(c, step, EffectOf(c, step).response); }
  }

  // ----- what is recorded -----

  /** Why a fetched reply is not applied. */
  ghost function FaultOf(c: Config, step: Step): Option<SyncError>
    requires step.SyncStep?
  {
    match step.reply
    case Unreachable => Some(FetchFailed)
    case Status => Some(BadStatus)
    case Unparsable => Some(BadBody)
    case NotFound => None
    case Policy(r) =>
      if !Acceptable(r, c) then Some(NotVerified)
      else if !step.persisted then Some(NotPersisted)
      else if step.second == Unreadable then Some(OverrideUnreadable)
      else None
  }

  /** The transitions of a fetch, in order, each with the identity it is reported under. */
  ghost function RecordedByFetch(c: Config, known: Identity, step: Step): seq<Transition>
    requires step.SyncStep?
  {
    var resolving, fault := Transition("resolving", known, None), FaultOf(c, step);
    match step.reply
    case NotFound => [resolving, Transition("resolved", known, Some(NothingAssigned))]
    case Policy(r) =>
      var named := Identity(Some(r.policyKey), Some(r.revision), Some(r.digest));
      [resolving, Transition("downloaded", named, None),
       if fault.Some? then Transition("rejected", named, Some(Rejected(fault.value)))
       else if step.second.Override? then Transition("rolled_back", named, Some(OverrideBy(step.second.text)))
       else Transition("activated", named, None)]
    case _ => [resolving, Transition("rejected", known, Some(Rejected(fault.value)))]
  }

  /** The transitions of a step. */
  ghost function Recorded(c: Config, h: Handle, step: Step): seq<Transition> {
    var known := h.0.identity;
    match step
    case AcknowledgeStep => []
    case StartStep(override, cached) =>
      if override.Override? then [Transition("rolled_back", known, Some(OverrideBy(override.text)))]
      else if override == NoOverride && cached.Some? && Acceptable(cached.value, c) then
        var r := cached.value;
        [Transition("activated", Identity(Some(r.policyKey), Some(r.revision), Some(r.digest)), None)]
      else []
    case SyncStep(first, reply, persisted, second) =>
      if first == Unreadable then [Transition("rejected", known, Some(Rejected(OverrideUnreadable)))]
      else if first.Override? then [Transition("rolled_back", known, Some(OverrideBy(first.text)))]
      else RecordedByFetch(c, known, step)
  }

  ghost predicate Shows(state: State, before: State, recorded: seq<Transition>) {
    if recorded == [] then state == before
    else
      var last := recorded[|recorded| - 1];
      state.lifecycle == last.lifecycle && state.reason == last.reason
  }

  /** A transition is added to the journal unless it repeats the last one there. */
  ghost function JournaledAll(journal: seq<Transition>, recorded: seq<Transition>): seq<Transition>
    decreases |recorded|
  {
    if recorded == [] then journal
    else
      var repeated := journal != [] && journal[|journal| - 1] == recorded[0];
      JournaledAll(if repeated then journal else journal + [recorded[0]], recorded[1..])
  }

  lemma {:induction false} JournaledUpToThree(journal: seq<Transition>, recorded: seq<Transition>)
    requires |recorded| <= 3
    ensures JournaledAll(journal, recorded)
         == if recorded == [] then journal
            else if |recorded| == 1 then Journaled(journal, recorded[0])
            else if |recorded| == 2 then Journaled(Journaled(journal, recorded[0]), recorded[1])
            else Journaled(Journaled(Journaled(journal, recorded[0]), recorded[1]), recorded[2])
  {
    if recorded != [] {
      var rest, next := recorded[1..], Journaled(journal, recorded[0]);
      assert JournaledAll(journal, recorded) == JournaledAll(next, rest);
      if |rest| == 1 {
        assert rest[1..] == [] && JournaledAll(next, rest) == JournaledAll(Journaled(next, rest[0]), rest[1..]);
      } else if |rest| == 2 {
        var last := Journaled(next, rest[0]);
        assert rest[1..] == [rest[1]] && [rest[1]][1..] == [];
        assert JournaledAll(next, rest) == JournaledAll(last, rest[1..]);
        assert JournaledAll(last, [rest[1]]) == JournaledAll(Journaled(last, rest[1]), [rest[1]][1..]);
      }
    }
  }

  lemma {:induction false} FetchIsRecorded(c: Config, h: Handle, step: Step) returns (after: Handle)
    requires step.SyncStep? && step.first == NoOverride
    ensures after == After(h, c, step)
    ensures after.1 == JournaledAll(h.1, RecordedByFetch(c, h.0.identity, step))
    ensures Shows(after.0, h.0, RecordedByFetch(c, h.0.identity, step))
  {
    var recorded := RecordedByFetch(c, h.0.identity, step);
    after := After(h, c, step);
    JournaledUpToThree(h.1, recorded);
  }

  /** A step records its transitions one by one, and the state shows the last of them. */
  lemma {:induction false} StepsAreRecorded(c: Config, h: Handle, step: Step) returns (after: Handle)
    ensures after == After(h, c, step) && Shows(after.0, h.0, Recorded(c, h, step))
    ensures after.1 == if step.AcknowledgeStep? then [] else JournaledAll(h.1, Recorded(c, h, step))
  {
    if step.SyncStep? && step.first == NoOverride {
      after := FetchIsRecorded(c, h, step);
    } else {
      after := After(h, c, step);
      JournaledUpToThree(h.1, Recorded(c, h, step));
    }
  }
}
