/**
 The decision of src/decision.rs and its composition with bot, behavior, unknown-threat, campaign
 and runtime-policy findings in src/proxy/handlers/helpers.rs. What each store found is an input;
 scores are natural numbers that do not overflow.
 */
module Decision {
  import opened Wrappers
  import opened WafTypes

  datatype Severity = Low | Medium | High | Critical

  datatype RuleMatch = RuleMatch(ruleId: string, severity: Severity, paranoiaLevel: nat)

  datatype WafDecision = WafDecision(
    action: WafAction, matchedRules: seq<RuleMatch>, anomalyScore: nat, blockingAnomalyScore: nat)

  function AnomalyPoints(s: Severity): nat {
    match s
    case Low => 2
    case Medium => 3
    case High => 5
    case Critical => 5
  }

  // ----- from_matches_with_blocking_policy -----

  predicate Eligible(m: RuleMatch, blockingParanoia: nat) { m.paranoiaLevel <= blockingParanoia }

  function AnomalyScore(matches: seq<RuleMatch>): nat {
    if matches == [] then 0 else AnomalyScore(matches[..|matches| - 1]) + AnomalyPoints(matches[|matches| - 1].severity)
  }

  /** The points of the matches that are eligible to block and not listed as non-blocking. */
  function BlockingScore(matches: seq<RuleMatch>, blockingParanoia: nat, nonBlocking: seq<nat>): nat {
    if matches == [] then 0
    else
      var last := |matches| - 1;
      BlockingScore(matches[..last], blockingParanoia, nonBlocking)
      + if Eligible(matches[last], blockingParanoia) && last !in nonBlocking
        then AnomalyPoints(matches[last].severity)
        else 0
  }

  predicate HasBlocking(matches: seq<RuleMatch>, blockingParanoia: nat, nonBlocking: seq<nat>) {
    exists i :: 0 <= i < |matches| && Eligible(matches[i], blockingParanoia) && i !in nonBlocking
  }

  function FromMatches(
    mode: WafMode, matches: seq<RuleMatch>, threshold: nat, blockingParanoia: nat, nonBlocking: seq<nat>): WafDecision
  {
    if matches == [] || mode == WafMode.Off then WafDecision(WafAction.Allow, [], 0, 0)
    else
      var score := BlockingScore(matches, blockingParanoia, nonBlocking);
      var action :=
        match mode
        case Monitor => WafAction.Monitor
        case Block => if score >= threshold then WafAction.Block else WafAction.Monitor
        case Strict =>
          if HasBlocking(matches, blockingParanoia, nonBlocking) then WafAction.Block else WafAction.Monitor
        case Off => WafAction.Allow;
      WafDecision(action, matches, AnomalyScore(matches), score)
  }

  // ----- the composition -----

  datatype Effect = SkipBotAndBehaviorBlock | MonitorAll | AllowAll | BlockEffect

  /** What the request met. None for a store that is disabled or failed. */
  datatype Findings = Findings(
    runtimeBlocklist: Option<RuleMatch>, runtimeAllowlist: Option<Effect>, matches: seq<RuleMatch>,
    bot: Option<WafAction>, behavior: Option<WafAction>, unknownThreat: Option<WafAction>, campaign: Option<WafAction>)

  datatype Settings = Settings(
    serverMode: WafMode, threshold: nat, blockingParanoia: nat,
    botParanoia: nat, botBlockSeverity: Severity, botMonitorSeverity: Severity)

  predicate Skips(f: Findings) { f.runtimeAllowlist.Some? && f.runtimeAllowlist.value != BlockEffect }

  /** The findings of the stores that are consulted. */
  function Consulted(f: Findings): Findings {
    if Skips(f) then f.(bot := None, behavior := None, unknownThreat := None, campaign := None) else f
  }

  function BotRuleMatch(s: Settings, action: WafAction): Option<RuleMatch> {
    if action == WafAction.Allow then None
    else
      var severity := if action == WafAction.Block then s.botBlockSeverity else s.botMonitorSeverity;
      Some(RuleMatch("bot", severity, s.botParanoia))
  }

  /** The shape `behavior_rule_match` and `unknown_threat_rule_match` share. */
  function StoreRuleMatch(ruleId: string, action: WafAction): Option<RuleMatch> {
    if action == WafAction.Allow then None
    else Some(RuleMatch(ruleId, if action == WafAction.Block then High else Medium, 1))
  }

  function ActionOf(finding: Option<WafAction>): WafAction {
    if finding.Some? then finding.value else WafAction.Allow
  }

  /** Adds a store's match; a monitor-level one is listed as non-blocking. */
  function Pushed(
    matches: seq<RuleMatch>, nonBlocking: seq<nat>, action: WafAction, m: Option<RuleMatch>)
    : (seq<RuleMatch>, seq<nat>)
  {
    if m.None? then (matches, nonBlocking)
    else (matches + [m.value], if action == WafAction.Monitor then nonBlocking + [|matches|] else nonBlocking)
  }

  /** The pushes of the bot and behavior findings. */
  method PushFindings(f: Findings, s: Settings, skip: bool) returns (matches: seq<RuleMatch>, nonBlocking: seq<nat>)
    requires skip == Skips(f)
    ensures (matches, nonBlocking) == AllMatches(f, s)
  {
    matches, nonBlocking := f.matches, [];
    if f.bot.Some? && !skip {
      var ruleMatch := BotRuleMatch(s, f.bot.value);
      if ruleMatch.Some? {
        if f.bot.value == WafAction.Monitor { nonBlocking := nonBlocking + [|matches|]; }
        matches := matches + [ruleMatch.value];
      }
    }
    if f.behavior.Some? && !skip {
      var ruleMatch := StoreRuleMatch("SAUGRA-BEHAVIOR-001", f.behavior.value);
      if ruleMatch.Some? {
        if f.behavior.value == WafAction.Monitor { nonBlocking := nonBlocking + [|matches|]; }
        matches := matches + [ruleMatch.value];
      }
    }
  }

  method DecisionWithBehaviorAndBot(f: Findings, s: Settings) returns (decision: WafDecision)
    ensures decision.action == FinalAction(f, s)
    ensures decision.matchedRules == FinalMatches(f, s)
    ensures decision.anomalyScore == FinalAnomaly(f, s)
    ensures decision.blockingAnomalyScore == FinalBlockingAnomaly(f, s)
  {
    if f.runtimeBlocklist.Some? {
      OneMatch(f.runtimeBlocklist.value, s.blockingParanoia);
      decision := FromMatches(WafMode.Strict, [f.runtimeBlocklist.value], s.threshold, s.blockingParanoia, []);
      decision := decision.(action := WafAction.Block);
      return;
    }
    var effect := f.runtimeAllowlist;
    var skip :=
      effect == Some(SkipBotAndBehaviorBlock) || effect == Some(MonitorAll) || effect == Some(AllowAll);
    if effect == Some(AllowAll) {
      decision := FromMatches(WafMode.Off, [], s.threshold, s.blockingParanoia, []);
      return;
    }
    var matches, nonBlocking := PushFindings(f, s, skip);
    var mode := if effect == Some(MonitorAll) then WafMode.Monitor else s.serverMode;
    ghost var base := BaseDecision(f, s);
    decision := FromMatches(mode, matches, s.threshold, s.blockingParanoia, nonBlocking);
    if f.behavior.Some? && !skip && f.behavior.value == WafAction.Block && s.serverMode != WafMode.Off {
      decision := decision.(action := WafAction.Block);
    }
    if f.unknownThreat.Some? && !skip {
      var ruleMatch := StoreRuleMatch("SAUGRA-UNKNOWN-THREAT-001", f.unknownThreat.value);
      if ruleMatch.Some? {
        decision := decision.(matchedRules := decision.matchedRules + [ruleMatch.value]);
      }
      match f.unknownThreat.value
      case Block => decision := decision.(action := WafAction.Block);
      case Monitor => if decision.action == WafAction.Allow { decision := decision.(action := WafAction.Monitor); }
      case Allow =>
    }
    if f.bot.Some? && !skip && f.bot.value == WafAction.Block && s.serverMode != WafMode.Off && effect.None? {
      decision := decision.(action := WafAction.Block);
    }
    if f.campaign.Some? && !skip && f.campaign.value == WafAction.Monitor && decision.action == WafAction.Allow {
      decision := decision.(action := WafAction.Monitor);
    }
  }

  /** The matches and the non-blocking indices handed to the base decision. */
  function AllMatches(f: Findings, s: Settings): (seq<RuleMatch>, seq<nat>) {
    var c := Consulted(f);
    var (withBot, nonBlocking) := Pushed(c.matches, [], ActionOf(c.bot), BotRuleMatch(s, ActionOf(c.bot)));
    Pushed(withBot, nonBlocking, ActionOf(c.behavior), StoreRuleMatch("SAUGRA-BEHAVIOR-001", ActionOf(c.behavior)))
  }

  function DecisionMode(f: Findings, s: Settings): WafMode {
    if f.runtimeAllowlist == Some(AllowAll) then WafMode.Off
    else if f.runtimeAllowlist == Some(MonitorAll) then WafMode.Monitor
    else s.serverMode
  }

  /** The rules the decision reports: none under AllowAll, those of the base decision unless its mode
      is Off, and the unknown-threat finding in any mode. */
  function FinalMatches(f: Findings, s: Settings): seq<RuleMatch> {
    if f.runtimeBlocklist.Some? then [f.runtimeBlocklist.value]
    else if f.runtimeAllowlist == Some(AllowAll) then []
    else
      var unknownThreat := StoreRuleMatch("SAUGRA-UNKNOWN-THREAT-001", ActionOf(Consulted(f).unknownThreat));
      (if DecisionMode(f, s) == WafMode.Off then [] else AllMatches(f, s).0)
      + if unknownThreat.Some? then [unknownThreat.value] else []
  }

  /** The score of all matches of the base decision, whether they may block or not. */
  function FinalAnomaly(f: Findings, s: Settings): nat {
    if f.runtimeBlocklist.Some? then AnomalyPoints(f.runtimeBlocklist.value.severity)
    else if DecisionMode(f, s) == WafMode.Off then 0
    else AnomalyScore(AllMatches(f, s).0)
  }

  function FinalBlockingAnomaly(f: Findings, s: Settings): nat {
    if f.runtimeBlocklist.Some? then Points(f.runtimeBlocklist.value, s.blockingParanoia)
    else if DecisionMode(f, s) == WafMode.Off then 0
    else EffectiveScore(Consulted(f), s)
  }

  lemma {:induction false} OneMatch(m: RuleMatch, blockingParanoia: nat)
    ensures AnomalyScore([m]) == AnomalyPoints(m.severity)
    ensures BlockingScore([m], blockingParanoia, []) == Points(m, blockingParanoia)
  {
    assert [m][..0] == [];
  }

  // ----- a reference that knows nothing of indices -----

  function Points(m: RuleMatch, blockingParanoia: nat): nat {
    if Eligible(m, blockingParanoia) then AnomalyPoints(m.severity) else 0
  }

  function EligibleScore(matches: seq<RuleMatch>, blockingParanoia: nat): nat {
    if matches == [] then 0
    else EligibleScore(matches[..|matches| - 1], blockingParanoia)
         + Points(matches[|matches| - 1], blockingParanoia)
  }

  /** What a blocking finding of a store adds; a monitoring one adds nothing. */
  function Adds(action: WafAction, m: Option<RuleMatch>, blockingParanoia: nat): nat {
    if action == WafAction.Block && m.Some? then Points(m.value, blockingParanoia) else 0
  }

  function EffectiveScore(c: Findings, s: Settings): nat {
    EligibleScore(c.matches, s.blockingParanoia)
    + Adds(ActionOf(c.bot), BotRuleMatch(s, ActionOf(c.bot)), s.blockingParanoia)
    + Adds(ActionOf(c.behavior), StoreRuleMatch("SAUGRA-BEHAVIOR-001", ActionOf(c.behavior)), s.blockingParanoia)
  }

  /** The action the base decision takes: matches decide, and of the stores only what blocks counts
      towards blocking. */
  function BaseAction(mode: WafMode, c: Findings, s: Settings): WafAction {
    var anything := c.matches != [] || ActionOf(c.bot) != WafAction.Allow || ActionOf(c.behavior) != WafAction.Allow;
    if mode == WafMode.Off || !anything then WafAction.Allow
    else if mode == WafMode.Monitor then WafAction.Monitor
    else if mode == WafMode.Block then
      (if EffectiveScore(c, s) >= s.threshold then WafAction.Block else WafAction.Monitor)
    else if EffectiveScore(c, s) > 0 then WafAction.Block else WafAction.Monitor
  }

  function FinalAction(f: Findings, s: Settings): WafAction {
    if f.runtimeBlocklist.Some? then WafAction.Block
    else if f.runtimeAllowlist == Some(AllowAll) then WafAction.Allow
    else
      var c := Consulted(f);
      var base := BaseAction(DecisionMode(f, s), c, s);
      if || base == WafAction.Block
         || ActionOf(c.unknownThreat) == WafAction.Block
         || (s.serverMode != WafMode.Off && ActionOf(c.behavior) == WafAction.Block)
         || (s.serverMode != WafMode.Off && ActionOf(c.bot) == WafAction.Block && f.runtimeAllowlist.None?)
      then WafAction.Block
      else if base == WafAction.Monitor || ActionOf(c.unknownThreat) == WafAction.Monitor
        || ActionOf(c.campaign) == WafAction.Monitor
      then WafAction.Monitor
      else WafAction.Allow
  }

  lemma {:induction false} ScoreIgnoresLaterIndices(matches: seq<RuleMatch>, p: nat, a: seq<nat>, b: seq<nat>)
    requires forall i: nat :: i < |matches| ==> (i in a <==> i in b)
    ensures BlockingScore(matches, p, a) == BlockingScore(matches, p, b)
    ensures HasBlocking(matches, p, a) == HasBlocking(matches, p, b)
  {
    if matches != [] { ScoreIgnoresLaterIndices(matches[..|matches| - 1], p, a, b); }
  }

  lemma {:induction false} PushedScore(
    matches: seq<RuleMatch>, nonBlocking: seq<nat>, action: WafAction, m: Option<RuleMatch>, p: nat)
    requires forall i :: i in nonBlocking ==> i < |matches|
    requires m.Some? <==> action != WafAction.Allow
    ensures var (after, indices) := Pushed(matches, nonBlocking, action, m);
            && BlockingScore(after, p, indices) == BlockingScore(matches, p, nonBlocking) + Adds(action, m, p)
            && (HasBlocking(after, p, indices) <==> HasBlocking(matches, p, nonBlocking) || Adds(action, m, p) > 0)
            && (forall i :: i in indices ==> i < |after|)
  {
    var (after, indices) := Pushed(matches, nonBlocking, action, m);
    if m.Some? {
      assert after[..|after| - 1] == matches;
      ScoreIgnoresLaterIndices(matches, p, nonBlocking, indices);
      if HasBlocking(matches, p, nonBlocking) {
        var i :| 0 <= i < |matches| && Eligible(matches[i], p) && i !in nonBlocking;
        assert after[i] == matches[i] && i !in indices;
      }
      if HasBlocking(after, p, indices) {
        var i :| 0 <= i < |after| && Eligible(after[i], p) && i !in indices;
        if i < |matches| { assert matches[i] == after[i]; }
      }
      if Adds(action, m, p) > 0 { assert after[|matches|] == m.value && |matches| !in indices; }
    }
  }

  lemma {:induction false} NoIndices(matches: seq<RuleMatch>, p: nat, none: seq<nat>)
    requires none == []
    ensures BlockingScore(matches, p, none) == EligibleScore(matches, p)
    ensures HasBlocking(matches, p, none) <==> EligibleScore(matches, p) > 0
  {
    if matches != [] {
      var last := |matches| - 1;
      NoIndices(matches[..last], p, none);
      if Eligible(matches[last], p) { assert last !in none; }
      if HasBlocking(matches[..last], p, none) {
        var i :| 0 <= i < last && Eligible(matches[..last][i], p) && i !in none;
        assert Eligible(matches[i], p);
      }
      if HasBlocking(matches, p, none) && !Eligible(matches[last], p) {
        var i :| 0 <= i < |matches| && Eligible(matches[i], p) && i !in none;
        assert Eligible(matches[..last][i], p);
      }
    }
  }

  /** The index bookkeeping of the composition does what it is for: the base decision sees the
      effective score, and an eligible match exactly when that score is positive. */
  lemma {:induction false} ComposedMatches(f: Findings, s: Settings)
    ensures var (matches, nonBlocking) := AllMatches(f, s);
            var c := Consulted(f);
            && BlockingScore(matches, s.blockingParanoia, nonBlocking) == EffectiveScore(c, s)
            && (HasBlocking(matches, s.blockingParanoia, nonBlocking) <==> EffectiveScore(c, s) > 0)
            && (matches == [] <==>
                  c.matches == [] && ActionOf(c.bot) == WafAction.Allow && ActionOf(c.behavior) == WafAction.Allow)
            && c.matches <= matches
  {
    var c, p := Consulted(f), s.blockingParanoia;
    NoIndices(c.matches, p, []);
    PushedScore(c.matches, [], ActionOf(c.bot), BotRuleMatch(s, ActionOf(c.bot)), p);
    var (withBot, nonBlocking) := Pushed(c.matches, [], ActionOf(c.bot), BotRuleMatch(s, ActionOf(c.bot)));
    PushedScore(
      withBot, nonBlocking, ActionOf(c.behavior), StoreRuleMatch("SAUGRA-BEHAVIOR-001", ActionOf(c.behavior)), p);
  }

  /** The base decision in each mode, from what its composed matches come to. */
  lemma {:induction false} DecisionOfMatches(
    mode: WafMode, matches: seq<RuleMatch>, nonBlocking: seq<nat>, s: Settings, score: nat)
    returns (base: WafDecision)
    requires BlockingScore(matches, s.blockingParanoia, nonBlocking) == score
    requires HasBlocking(matches, s.blockingParanoia, nonBlocking) <==> score > 0
    ensures base == FromMatches(mode, matches, s.threshold, s.blockingParanoia, nonBlocking)
    ensures base.action ==
      if mode == WafMode.Off || matches == [] then WafAction.Allow
      else if mode == WafMode.Monitor then WafAction.Monitor
      else if mode == WafMode.Block then (if score >= s.threshold then WafAction.Block else WafAction.Monitor)
      else if score > 0 then WafAction.Block else WafAction.Monitor
    ensures base.matchedRules == if mode == WafMode.Off then [] else matches
    ensures base.blockingAnomalyScore == if mode == WafMode.Off then 0 else score
    ensures base.anomalyScore == if mode == WafMode.Off then 0 else AnomalyScore(matches)
  {
    base := FromMatches(mode, matches, s.threshold, s.blockingParanoia, nonBlocking);
  }

  lemma {:induction false} BaseDecision(f: Findings, s: Settings) returns (base: WafDecision)
    requires f.runtimeAllowlist != Some(AllowAll)
    ensures var (matches, nonBlocking) := AllMatches(f, s);
            && base == FromMatches(DecisionMode(f, s), matches, s.threshold, s.blockingParanoia, nonBlocking)
            && base.matchedRules == if DecisionMode(f, s) == WafMode.Off then [] else matches
    ensures base.action == BaseAction(DecisionMode(f, s), Consulted(f), s)
    ensures base.blockingAnomalyScore
         == if DecisionMode(f, s) == WafMode.Off then 0 else EffectiveScore(Consulted(f), s)
    ensures base.anomalyScore == if DecisionMode(f, s) == WafMode.Off then 0 else AnomalyScore(AllMatches(f, s).0)
  {
    ComposedMatches(f, s);
    var (matches, nonBlocking) := AllMatches(f, s);
    base := DecisionOfMatches(DecisionMode(f, s), matches, nonBlocking, s, EffectiveScore(Consulted(f), s));
  }

  // ----- monitor-only findings -----

  function WithoutMonitor(finding: Option<WafAction>): Option<WafAction> {
    if finding == Some(WafAction.Monitor) then None else finding
  }

  function WithoutMonitorFindings(f: Findings): Findings {
    f.(bot := WithoutMonitor(f.bot), behavior := WithoutMonitor(f.behavior))
  }

  /** Monitor-only findings never cause a block, nor prevent one, under a positive threshold. */
  lemma {:induction false} MonitorFindingsNeverBlock(f: Findings, s: Settings)
    requires s.threshold > 0
    ensures FinalAction(f, s) == WafAction.Block <==> FinalAction(WithoutMonitorFindings(f), s) == WafAction.Block
  {
    var c, d := Consulted(f), Consulted(WithoutMonitorFindings(f));
    assert EffectiveScore(c, s) == EffectiveScore(d, s);
    if d.matches == [] && ActionOf(d.bot) == WafAction.Allow && ActionOf(d.behavior) == WafAction.Allow {
      assert EffectiveScore(d, s) == 0;
    }
  }

  /** Under a threshold of 0, which configuration validation refuses, a lone monitor-level bot finding
      blocks in Block mode; so the positive threshold is exactly what the guarantee needs. */
  lemma {:induction false} ZeroThresholdLetsMonitorBlock(s: Settings)
    requires s.serverMode == WafMode.Block
    ensures var f := Findings(None, None, [], Some(WafAction.Monitor), None, None, None);
            FinalAction(WithoutMonitorFindings(f), s) == WafAction.Allow
            && (FinalAction(f, s) == WafAction.Block <==> s.threshold == 0)
  {
  }

  // ----- order -----

  ghost predicate FindsNoMoreThan(f: Findings, g: Findings) {
    && f.runtimeBlocklist == g.runtimeBlocklist && f.runtimeAllowlist == g.runtimeAllowlist && f.matches == g.matches
    && ActionOf(f.bot).Rank() <= ActionOf(g.bot).Rank()
    && ActionOf(f.behavior).Rank() <= ActionOf(g.behavior).Rank()
    && ActionOf(f.unknownThreat).Rank() <= ActionOf(g.unknownThreat).Rank()
    && ActionOf(f.campaign).Rank() <= ActionOf(g.campaign).Rank()
  }

  /** The final action is monotone in the server mode, Off <= Monitor <= Block <= Strict, and in what
      the stores find, which may grow with the mode; the campaign store never blocks. */
  lemma {:induction false} DecisionIsMonotone(f: Findings, g: Findings, s: Settings, mode: WafMode)
    requires s.threshold > 0 && FindsNoMoreThan(f, g) && s.serverMode.Rank() <= mode.Rank()
    requires ActionOf(g.campaign) != WafAction.Block
    ensures FinalAction(f, s).Rank() <= FinalAction(g, s.(serverMode := mode)).Rank()
  {
    var c, d := Consulted(f), Consulted(g);
    assert EffectiveScore(c, s) <= EffectiveScore(d, s);
    assert EffectiveScore(d, s.(serverMode := mode)) == EffectiveScore(d, s);
  }

  /** AllowAll, MonitorAll and a server mode of Off end in Block only for a runtime-blocklisted
      client. The unknown-threat store itself blocks in modes Block and Strict only. */
  lemma {:induction false} NothingElseBlocksWhenOff(f: Findings, s: Settings)
    requires ActionOf(f.unknownThreat) == WafAction.Block ==>
      s.serverMode == WafMode.Block || s.serverMode == WafMode.Strict
    requires f.runtimeAllowlist == Some(AllowAll) || f.runtimeAllowlist == Some(MonitorAll)
      || s.serverMode == WafMode.Off
    ensures FinalAction(f, s) == WafAction.Block <==> f.runtimeBlocklist.Some?
  {
  }
}
