/**
 What the final decision depends on, in terms of the matches themselves: how many there are of each
 severity, at which levels, and what the stores found.
 */
module DecisionCounts {
  import opened Decision
  import opened WafTypes
  import opened Wrappers

  // ----- what matches weigh -----

  /** The matches of some severities at or below a paranoia level. */
  ghost function Of(matches: seq<RuleMatch>, level: nat, severities: set<Severity>): set<nat> {
    set i: nat | i < |matches| && matches[i].paranoiaLevel <= level && matches[i].severity in severities
  }

  /** Two points for a low match, three for a medium one, five for a high or critical one. */
  ghost function Weight(matches: seq<RuleMatch>, level: nat): nat {
    2 * |Of(matches, level, {Low})| + 3 * |Of(matches, level, {Medium})| + 5 * |Of(matches, level, {High, Critical})|
  }

  ghost function Worth(severity: Severity): nat {
    match severity
    case Low => 2
    case Medium => 3
    case High => 5
    case Critical => 5
  }

  lemma {:induction false} OfOneMore(before: seq<RuleMatch>, m: RuleMatch, level: nat, severities: set<Severity>)
    ensures |Of(before + [m], level, severities)|
         == |Of(before, level, severities)| + if m.paranoiaLevel <= level && m.severity in severities then 1 else 0
  {
    var more := if m.paranoiaLevel <= level && m.severity in severities then {|before|} else {};
    assert Of(before + [m], level, severities) == Of(before, level, severities) + more;
  }

  lemma {:induction false} WeightOneMore(before: seq<RuleMatch>, m: RuleMatch, level: nat)
    ensures Weight(before + [m], level)
         == Weight(before, level) + if m.paranoiaLevel <= level then Worth(m.severity) else 0
  {
    OfOneMore(before, m, level, {Low});
    OfOneMore(before, m, level, {Medium});
    OfOneMore(before, m, level, {High, Critical});
  }

  lemma {:induction false} NoWeight(level: nat)
    ensures Weight([], level) == 0
  {
    assert Of([], level, {Low}) == {} && Of([], level, {Medium}) == {} && Of([], level, {High, Critical}) == {};
  }

  lemma {:induction false} EligibleIsWeight(matches: seq<RuleMatch>, level: nat)
    ensures EligibleScore(matches, level) == Weight(matches, level)
    decreases |matches|
  {
    if matches == [] {
      NoWeight(level);
    } else {
      var before, last := matches[..|matches| - 1], matches[|matches| - 1];
      assert matches == before + [last];
      EligibleIsWeight(before, level);
      WeightOneMore(before, last, level);
    }
  }

  /** A level no match lies above. */
  ghost predicate AllWithin(matches: seq<RuleMatch>, level: nat) {
    forall i :: 0 <= i < |matches| ==> matches[i].paranoiaLevel <= level
  }

  lemma {:induction false} AnomalyIsWeight(matches: seq<RuleMatch>, top: nat)
    requires AllWithin(matches, top)
    ensures AnomalyScore(matches) == Weight(matches, top)
    decreases |matches|
  {
    if matches == [] {
      NoWeight(top);
    } else {
      var before, last := matches[..|matches| - 1], matches[|matches| - 1];
      assert matches == before + [last];
      AnomalyIsWeight(before, top);
      WeightOneMore(before, last, top);
    }
  }

  lemma {:induction false} WeightIsPositive(matches: seq<RuleMatch>, level: nat)
    ensures Weight(matches, level) > 0 <==> exists i :: 0 <= i < |matches| && matches[i].paranoiaLevel <= level
  {
    var low, medium := Of(matches, level, {Low}), Of(matches, level, {Medium});
    var high := Of(matches, level, {High, Critical});
    if i: nat :| i < |matches| && matches[i].paranoiaLevel <= level {
      match matches[i].severity
      case Low => assert i in low;
      case Medium => assert i in medium;
      case High => assert i in high;
      case Critical => assert i in high;
    }
    if low != {} { var i :| i in low; }
    if medium != {} { var i :| i in medium; }
    if high != {} { var i :| i in high; }
  }

  // ----- who is heard -----

  /** The stores are asked unless an allowlist entry spares the client them. */
  ghost predicate Heard(f: Findings) {
    f.runtimeAllowlist.None? || f.runtimeAllowlist == Some(BlockEffect)
  }

  ghost function ModeFor(f: Findings, s: Settings): WafMode {
    if f.runtimeAllowlist == Some(MonitorAll) then WafMode.Monitor else s.serverMode
  }

  /** What matches and blocking findings come to. */
  ghost function Total(f: Findings, s: Settings): nat {
    Weight(f.matches, s.blockingParanoia)
    + (if Heard(f) && f.bot == Some(WafAction.Block) && s.botParanoia <= s.blockingParanoia
       then Worth(s.botBlockSeverity)
       else 0)
    + (if Heard(f) && f.behavior == Some(WafAction.Block) && s.blockingParanoia >= 1 then 5 else 0)
  }

  ghost predicate Finds(finding: Option<WafAction>) {
    finding == Some(WafAction.Monitor) || finding == Some(WafAction.Block)
  }

  ghost predicate Anything(f: Findings) {
    f.matches != [] || (Heard(f) && (Finds(f.bot) || Finds(f.behavior)))
  }

  /** Do the matches and the counted findings block in the mode of the decision? */
  ghost predicate ScoreBlocks(f: Findings, s: Settings) {
    || (ModeFor(f, s) == WafMode.Block && Anything(f) && Total(f, s) >= s.threshold)
    || (ModeFor(f, s) == WafMode.Strict && Total(f, s) > 0)
  }

  /** Does a store block by itself? The learner always can; behavior and bot unless the server is off, the
      bot only for clients without an allowlist entry. */
  ghost predicate StoreBlocks(f: Findings, s: Settings) {
    && Heard(f)
    && (|| f.unknownThreat == Some(WafAction.Block)
        || (f.behavior == Some(WafAction.Block) && s.serverMode != WafMode.Off)
        || (f.bot == Some(WafAction.Block) && s.serverMode != WafMode.Off && f.runtimeAllowlist.None?))
  }

  ghost predicate Blocks(f: Findings, s: Settings) {
    f.runtimeBlocklist.Some? || (f.runtimeAllowlist != Some(AllowAll) && (ScoreBlocks(f, s) || StoreBlocks(f, s)))
  }

  ghost predicate Reports(f: Findings, s: Settings) {
    && f.runtimeAllowlist != Some(AllowAll)
    && (|| (ModeFor(f, s) != WafMode.Off && Anything(f))
        || (Heard(f) && (f.unknownThreat == Some(WafAction.Monitor) || f.campaign == Some(WafAction.Monitor))))
  }

  lemma {:induction false} ScoreIsTotal(f: Findings, s: Settings)
    ensures EffectiveScore(Consulted(f), s) == Total(f, s)
  {
    EligibleIsWeight(f.matches, s.blockingParanoia);
  }

  lemma {:induction false} TotalNeedsAnything(f: Findings, s: Settings)
    ensures Total(f, s) > 0 ==> Anything(f)
  {
    WeightIsPositive(f.matches, s.blockingParanoia);
  }

  /** The final action, in full: whom it blocks, whom it reports, and that it allows everyone else. */
  lemma {:induction false} ActionIsExact(f: Findings, s: Settings)
    ensures FinalAction(f, s) == WafAction.Block <==> Blocks(f, s)
    ensures FinalAction(f, s) == WafAction.Monitor <==> !Blocks(f, s) && Reports(f, s)
  {
    ScoreIsTotal(f, s);
    TotalNeedsAnything(f, s);
  }

  // ----- requests the stores have nothing on -----

  ghost predicate MatchesOnly(f: Findings) {
    f == Findings(None, None, f.matches, None, None, None, None)
  }

  /** In Strict a request is blocked exactly if some match lies at or below the blocking level; in Block
      exactly if the matches there come to the threshold. */
  lemma {:induction false} MatchesDecide(f: Findings, s: Settings)
    requires MatchesOnly(f) && s.threshold > 0
    ensures s.serverMode == WafMode.Strict ==>
      (FinalAction(f, s) == WafAction.Block
       <==> exists i :: 0 <= i < |f.matches| && f.matches[i].paranoiaLevel <= s.blockingParanoia)
    ensures s.serverMode == WafMode.Block ==>
      (FinalAction(f, s) == WafAction.Block <==> Weight(f.matches, s.blockingParanoia) >= s.threshold)
    ensures s.serverMode == WafMode.Monitor || s.serverMode == WafMode.Off ==> FinalAction(f, s) != WafAction.Block
  {
    ActionIsExact(f, s);
    TotalNeedsAnything(f, s);
    WeightIsPositive(f.matches, s.blockingParanoia);
  }

  /** The matches at or below a level. */
  ghost function Within(matches: seq<RuleMatch>, level: nat): seq<RuleMatch> {
    if matches == [] then []
    else
      var last := |matches| - 1;
      Within(matches[..last], level) + if matches[last].paranoiaLevel <= level then [matches[last]] else []
  }

  lemma {:induction false} WithinWeighsSame(matches: seq<RuleMatch>, level: nat)
    ensures Weight(Within(matches, level), level) == Weight(matches, level)
    decreases |matches|
  {
    if matches != [] {
      var before, last := matches[..|matches| - 1], matches[|matches| - 1];
      assert matches == before + [last];
      WithinWeighsSame(before, level);
      WeightOneMore(before, last, level);
      WeightOneMore(Within(before, level), last, level);
      assert Within(before, level) + [] == Within(before, level);
    }
  }

  /** Matches above the blocking level never block, nor prevent a block, in any mode and whatever the
      stores find, under a positive threshold. */
  lemma {:induction false} HigherLevelsNeverBlock(f: Findings, s: Settings)
    requires s.threshold > 0
    ensures FinalAction(f, s) == WafAction.Block
       <==> FinalAction(f.(matches := Within(f.matches, s.blockingParanoia)), s) == WafAction.Block
  {
    var g := f.(matches := Within(f.matches, s.blockingParanoia));
    ActionIsExact(f, s);
    ActionIsExact(g, s);
    WithinWeighsSame(f.matches, s.blockingParanoia);
    TotalNeedsAnything(f, s);
    TotalNeedsAnything(g, s);
    assert Total(f, s) == Total(g, s);
  }

  /** Under a threshold of 5 in Block mode one high or critical match at or below the level blocks; a low
      or medium one alone does not. */
  lemma {:induction false} OneMatchAtFive(m: RuleMatch, s: Settings)
    requires s.serverMode == WafMode.Block && s.threshold == 5
    ensures FinalAction(Findings(None, None, [m], None, None, None, None), s) == WafAction.Block
       <==> m.paranoiaLevel <= s.blockingParanoia && (m.severity == High || m.severity == Critical)
  {
    var f := Findings(None, None, [m], None, None, None, None);
    MatchesDecide(f, s);
    NoWeight(s.blockingParanoia);
    WeightOneMore([], m, s.blockingParanoia);
    assert [] + [m] == [m];
  }

  // ----- scores and rules -----

  ghost function Reported(ruleId: string, f: Findings, finding: Option<WafAction>): seq<RuleMatch> {
    if !Heard(f) || !Finds(finding) then []
    else [RuleMatch(ruleId, if finding == Some(WafAction.Block) then High else Medium, 1)]
  }

  /** The rules a decision reports: those matched, and one for each store that found anything. */
  ghost predicate IsReported(rules: seq<RuleMatch>, f: Findings, s: Settings) {
    var bot := RuleMatch("bot", if f.bot == Some(WafAction.Block) then s.botBlockSeverity else s.botMonitorSeverity,
                         s.botParanoia);
    var ofBot := if Heard(f) && Finds(f.bot) then [bot] else [];
    var ofBehavior := Reported("SAUGRA-BEHAVIOR-001", f, f.behavior);
    var ofLearner := Reported("SAUGRA-UNKNOWN-THREAT-001", f, f.unknownThreat);
    if f.runtimeBlocklist.Some? then rules == [f.runtimeBlocklist.value]
    else if f.runtimeAllowlist == Some(AllowAll) then rules == []
    else if ModeFor(f, s) == WafMode.Off then rules == ofLearner
    else rules == f.matches + ofBot + ofBehavior + ofLearner
  }

  lemma {:induction false} RulesAreExact(f: Findings, s: Settings)
    ensures IsReported(FinalMatches(f, s), f, s)
  {
    var matches := f.matches;
    assert matches + [] == matches;
    assert AllMatches(f, s).0 + [] == AllMatches(f, s).0;
  }

  /** The two scores of a decision: all matches of the base decision, and what counts towards blocking. */
  lemma {:induction false} ScoresAreExact(f: Findings, s: Settings, top: nat)
    requires f.runtimeBlocklist.None? && AllWithin(AllMatches(f, s).0, top)
    ensures FinalAnomaly(f, s)
         == if f.runtimeAllowlist == Some(AllowAll) || ModeFor(f, s) == WafMode.Off then 0
            else Weight(AllMatches(f, s).0, top)
    ensures FinalBlockingAnomaly(f, s)
         == if f.runtimeAllowlist == Some(AllowAll) || ModeFor(f, s) == WafMode.Off then 0 else Total(f, s)
  {
    AnomalyIsWeight(AllMatches(f, s).0, top);
    ScoreIsTotal(f, s);
  }

  /** The scores of a runtime-blocklisted client are those of the one rule that lists it. */
  lemma {:induction false} BlocklistedScores(f: Findings, s: Settings)
    requires f.runtimeBlocklist.Some?
    ensures var m := f.runtimeBlocklist.value;
            && FinalAnomaly(f, s) == Worth(m.severity)
            && FinalBlockingAnomaly(f, s) == if m.paranoiaLevel <= s.blockingParanoia then Worth(m.severity) else 0
  {
  }
}
