/**
 The request handling of src/proxy/handlers/helpers.rs: every store that the client's runtime policy
 leaves on is asked in turn, the campaign store with what the others found, and the findings are
 composed to a decision. A store that fails is left as it was and finds nothing.
 */
module Handler {
  import opened Decision
  import opened WafTypes
  import opened Wrappers
  import Behavior
  import Bot
  import Campaign
  import CampaignCounts
  import DecisionCounts
  import ScoreWindow
  import UnknownThreats

  datatype StoreName = BotStore | BehaviorStore | LearnerStore | CampaignStore

  datatype Configs = Configs(
    bot: Bot.Config, behavior: Behavior.Config, learner: UnknownThreats.Config, campaign: Campaign.Config)

  datatype Stores = Stores(
    bots: map<string, Bot.ClientState>, behaviors: map<string, seq<ScoreWindow.Entry>>,
    routes: map<string, UnknownThreats.Baseline>, campaigns: Campaign.State)

  /** A request with its rule matches and their categories, what it is to each store, and what their
      clocks read. The server mode, what may be learned and the campaign categories are filled in. */
  datatype Arrival = Arrival(
    runtimeBlocklist: Option<RuleMatch>, runtimeAllowlist: Option<Effect>, matches: seq<RuleMatch>,
    categories: seq<string>, bot: Bot.Request, botNow: nat, behavior: Behavior.Request, behaviorNow: nat,
    learner: UnknownThreats.Request, learnerNow: nat, campaign: Campaign.Call, failing: set<StoreName>)

  function WithoutStores(a: Arrival): Findings {
    Findings(a.runtimeBlocklist, a.runtimeAllowlist, a.matches, None, None, None, None)
  }

  predicate Asks(a: Arrival, store: StoreName, enabled: bool) {
    a.runtimeBlocklist.None? && !Skips(WithoutStores(a)) && enabled && store !in a.failing
  }

  // ----- what each store is asked -----

  function BotRequest(a: Arrival, mode: WafMode): Bot.Request { a.bot.(serverMode := mode) }

  function BehaviorRequest(a: Arrival, mode: WafMode): Behavior.Request { a.behavior.(serverMode := mode) }

  function LearnerRequest(a: Arrival, mode: WafMode): UnknownThreats.Request {
    a.learner.(serverMode := mode, eligible := a.matches == [])
  }

  function CampaignCall(a: Arrival, mode: WafMode, categories: seq<string>): Campaign.Call {
    a.campaign.(request := a.campaign.request.(serverMode := mode, categories := categories))
  }

  /** `sort` and `dedup`, one element at a time. */
  function InsertOnce(category: string, sorted: seq<string>): seq<string> {
    if sorted == [] then [category]
    else if category == sorted[0] then sorted
    else if Campaign.StringLeq(category, sorted[0]) then [category] + sorted
    else [sorted[0]] + InsertOnce(category, sorted[1..])
  }

  function SortedOnce(categories: seq<string>): seq<string> {
    if categories == [] then [] else InsertOnce(categories[0], SortedOnce(categories[1..]))
  }

  predicate Probed(outcome: Behavior.Outcome) {
    exists i :: 0 <= i < |outcome.contributors| && outcome.contributors[i].reason == "scanner_path_probe"
  }

  /** The categories of the rule matches, and one for each store that noticed anything. */
  function CampaignCategories(
    a: Arrival, bot: Option<Bot.Outcome>, behavior: Option<Behavior.Outcome>, learner: Option<UnknownThreats.Outcome>)
    : seq<string>
  {
    SortedOnce(
      a.categories
      + (if bot.Some? && bot.value.contributors != [] then ["bot_protection"] else [])
      + (if behavior.Some? && Probed(behavior.value) then ["scanner_behavior"] else [])
      + (if learner.Some? && learner.value.signals != [] then ["unknown_threat"] else []))
  }

  // ----- what each store answers, and what that leaves -----

  function AskBot(bots: map<string, Bot.ClientState>, config: Bot.Config, a: Arrival, mode: WafMode)
    : (map<string, Bot.ClientState>, Option<Bot.Outcome>)
  {
    if !Asks(a, BotStore, config.enabled) then (bots, None)
    else
      var (next, outcome) := Bot.Served(config, bots, Bot.Step(BotRequest(a, mode), a.botNow));
      (next, Some(outcome))
  }

  function AskBehavior(
    clients: map<string, seq<ScoreWindow.Entry>>, config: Behavior.Config, a: Arrival, mode: WafMode)
    : (map<string, seq<ScoreWindow.Entry>>, Option<Behavior.Outcome>)
  {
    if !Asks(a, BehaviorStore, config.enabled) then (clients, None)
    else
      var (next, outcome) := Behavior.Served(config, clients, BehaviorRequest(a, mode), a.behaviorNow);
      (next, Some(outcome))
  }

  function AskLearner(
    routes: map<string, UnknownThreats.Baseline>, config: UnknownThreats.Config, a: Arrival, mode: WafMode)
    : (map<string, UnknownThreats.Baseline>, Option<UnknownThreats.Outcome>)
  {
    if !Asks(a, LearnerStore, config.enabled) then (routes, None)
    else
      var (next, outcome) := UnknownThreats.Evaluated(routes, config, LearnerRequest(a, mode), a.learnerNow);
      (next, Some(outcome))
  }

  function AskCampaign(
    st: Campaign.State, config: Campaign.Config, a: Arrival, mode: WafMode, categories: seq<string>)
    : (Campaign.State, Option<Campaign.Outcome>)
    requires |a.campaign.ids| == |config.policies|
  {
    if !Asks(a, CampaignStore, config.enabled) then (st, None)
    else
      var (next, outcome) := Campaign.Evaluated(st, config, CampaignCall(a, mode, categories));
      (next, Some(outcome))
  }

  function Met(
    a: Arrival, bot: Option<Bot.Outcome>, behavior: Option<Behavior.Outcome>,
    learner: Option<UnknownThreats.Outcome>, campaign: Option<Campaign.Outcome>): Findings
  {
    WithoutStores(a).(
      bot := if bot.Some? then Some(bot.value.action) else None,
      behavior := if behavior.Some? then Some(behavior.value.action) else None,
      unknownThreat := if learner.Some? then Some(learner.value.action) else None,
      campaign := if campaign.Some? then Some(campaign.value.action) else None)
  }

  /** The stores after the request, and what it met. */
  function Handled(stores: Stores, c: Configs, a: Arrival, mode: WafMode): (Stores, Findings)
    requires |a.campaign.ids| == |c.campaign.policies|
  {
    var (bots, bot) := AskBot(stores.bots, c.bot, a, mode);
    var (behaviors, behavior) := AskBehavior(stores.behaviors, c.behavior, a, mode);
    var (routes, learner) := AskLearner(stores.routes, c.learner, a, mode);
    var (campaigns, campaign) :=
      AskCampaign(stores.campaigns, c.campaign, a, mode, CampaignCategories(a, bot, behavior, learner));
    (Stores(bots, behaviors, routes, campaigns), Met(a, bot, behavior, learner, campaign))
  }

  // ----- the handler, on the stores updated in place -----

  class ProxyState {
    const bots: Bot.BotProtectionStore
    const behaviors: Behavior.BehaviorStore
    const learner: UnknownThreats.UnknownThreatStore
    const campaigns: Campaign.MemoryCampaignStore
    const campaignConfig: Campaign.Config

    constructor (c: Configs)
      ensures fresh(bots) && fresh(behaviors) && fresh(learner) && fresh(campaigns) && ConfigsOf() == c
      ensures Contents() == Stores(map[], map[], map[], Campaign.EMPTY_STATE)
    {
      bots := new Bot.BotProtectionStore(c.bot);
      behaviors := new Behavior.BehaviorStore(c.behavior);
      learner := new UnknownThreats.UnknownThreatStore(c.learner);
      campaigns := new Campaign.MemoryCampaignStore();
      campaignConfig := c.campaign;
    }

    function ConfigsOf(): Configs { Configs(bots.config, behaviors.config, learner.config, campaignConfig) }

    ghost function Contents(): Stores
      reads bots, behaviors, learner, campaigns
    {
      Stores(bots.clients, behaviors.clients, learner.routes, Campaign.State(campaigns.events, campaigns.active))
    }

    method AskBotStore(a: Arrival, mode: WafMode) returns (outcome: Option<Bot.Outcome>)
      modifies bots
      ensures (bots.clients, outcome) == AskBot(old(bots.clients), bots.config, a, mode)
    {
      outcome := None;
      if Asks(a, BotStore, bots.config.enabled) {
        var answer := bots.Evaluate(BotRequest(a, mode), a.botNow);
        outcome := Some(answer);
      }
    }

    method AskBehaviorStore(a: Arrival, mode: WafMode) returns (outcome: Option<Behavior.Outcome>)
      modifies behaviors
      ensures (behaviors.clients, outcome) == AskBehavior(old(behaviors.clients), behaviors.config, a, mode)
    {
      outcome := None;
      if Asks(a, BehaviorStore, behaviors.config.enabled) {
        var answer := behaviors.Evaluate(BehaviorRequest(a, mode), a.behaviorNow);
        outcome := Some(answer);
      }
    }

    method AskLearnerStore(a: Arrival, mode: WafMode) returns (outcome: Option<UnknownThreats.Outcome>)
      modifies learner
      ensures (learner.routes, outcome) == AskLearner(old(learner.routes), learner.config, a, mode)
    {
      outcome := None;
      if Asks(a, LearnerStore, learner.config.enabled) {
        var answer := learner.Evaluate(LearnerRequest(a, mode), a.learnerNow);
        outcome := Some(answer);
      }
    }

    method AskCampaignStore(a: Arrival, mode: WafMode, categories: seq<string>)
      returns (outcome: Option<Campaign.Outcome>)
      requires |a.campaign.ids| == |campaignConfig.policies| && campaignConfig.maxEvents > 0
      modifies campaigns
      ensures (Campaign.State(campaigns.events, campaigns.active), outcome)
           == AskCampaign(old(Campaign.State(campaigns.events, campaigns.active)), campaignConfig, a, mode, categories)
    {
      outcome := None;
      if Asks(a, CampaignStore, campaignConfig.enabled) {
        var answer := campaigns.Evaluate(campaignConfig, CampaignCall(a, mode, categories));
        outcome := Some(answer);
      }
    }

    /** The source panics when `maxEvents` is 0; validation refuses that. */
    method Decide(a: Arrival, s: Settings) returns (decision: WafDecision)
      requires |a.campaign.ids| == |campaignConfig.policies| && campaignConfig.maxEvents > 0
      modifies bots, behaviors, learner, campaigns
      ensures Contents() == Handled(old(Contents()), ConfigsOf(), a, s.serverMode).0
      ensures var findings := Handled(old(Contents()), ConfigsOf(), a, s.serverMode).1;
              decision.action == FinalAction(findings, s) && decision.matchedRules == FinalMatches(findings, s)
    {
      var bot := AskBotStore(a, s.serverMode);
      var behavior := AskBehaviorStore(a, s.serverMode);
      var unknownThreat := AskLearnerStore(a, s.serverMode);
      var campaign := AskCampaignStore(a, s.serverMode, CampaignCategories(a, bot, behavior, unknownThreat));
      decision := DecisionWithBehaviorAndBot(Met(a, bot, behavior, unknownThreat, campaign), s);
    }
  }

  // ----- one request under two server modes -----

  lemma {:induction false} LearnerRises(
    routes: map<string, UnknownThreats.Baseline>, config: UnknownThreats.Config, a: Arrival,
    low: WafMode, high: WafMode)
    returns (less: Option<UnknownThreats.Outcome>, more: Option<UnknownThreats.Outcome>)
    requires low.Rank() <= high.Rank()
    ensures less == AskLearner(routes, config, a, low).1 && more == AskLearner(routes, config, a, high).1
    ensures AskLearner(routes, config, a, low).0 == AskLearner(routes, config, a, high).0
    ensures less.Some? == more.Some?
    ensures less.Some? ==>
      && less.value.signals == more.value.signals && less.value.action.Rank() <= more.value.action.Rank()
      && (less.value.action == WafAction.Block ==> low == WafMode.Block || low == WafMode.Strict)
  {
    less, more := AskLearner(routes, config, a, low).1, AskLearner(routes, config, a, high).1;
    UnknownThreats.ModeOnlyRaisesAction(routes, config, LearnerRequest(a, low), high, a.learnerNow);
  }

  lemma {:induction false} BotRises(
    bots: map<string, Bot.ClientState>, config: Bot.Config, a: Arrival, low: WafMode, high: WafMode)
    returns (less: Option<Bot.Outcome>, more: Option<Bot.Outcome>)
    requires low.Rank() <= high.Rank()
    ensures less == AskBot(bots, config, a, low).1 && more == AskBot(bots, config, a, high).1
    ensures less.Some? == more.Some?
    ensures less.Some? ==>
      less.value.contributors == more.value.contributors && less.value.action.Rank() <= more.value.action.Rank()
    ensures low != WafMode.Off ==> AskBot(bots, config, a, low) == AskBot(bots, config, a, high)
  {
    less, more := AskBot(bots, config, a, low).1, AskBot(bots, config, a, high).1;
  }

  lemma {:induction false} BehaviorRises(
    clients: map<string, seq<ScoreWindow.Entry>>, config: Behavior.Config, a: Arrival, low: WafMode, high: WafMode)
    returns (less: Option<Behavior.Outcome>, more: Option<Behavior.Outcome>)
    requires low.Rank() <= high.Rank()
    ensures less == AskBehavior(clients, config, a, low).1 && more == AskBehavior(clients, config, a, high).1
    ensures less.Some? == more.Some?
    ensures less.Some? ==>
      less.value.contributors == more.value.contributors && less.value.action.Rank() <= more.value.action.Rank()
    ensures low != WafMode.Off ==> AskBehavior(clients, config, a, low) == AskBehavior(clients, config, a, high)
  {
    less, more := AskBehavior(clients, config, a, low).1, AskBehavior(clients, config, a, high).1;
  }

  lemma {:induction false} CampaignRises(
    st: Campaign.State, config: Campaign.Config, a: Arrival, low: WafMode, high: WafMode, categories: seq<string>)
    returns (less: Option<Campaign.Outcome>, more: Option<Campaign.Outcome>)
    requires |a.campaign.ids| == |config.policies| && low.Rank() <= high.Rank()
    ensures less == AskCampaign(st, config, a, low, categories).1
    ensures more == AskCampaign(st, config, a, high, categories).1
    ensures less.Some? == more.Some?
    ensures less.Some? ==> less.value.action.Rank() <= more.value.action.Rank() <= 1
    ensures less.Some? && low == WafMode.Off ==> less.value.action == WafAction.Allow
    ensures low != WafMode.Off ==>
      AskCampaign(st, config, a, low, categories) == AskCampaign(st, config, a, high, categories)
  {
    less, more := AskCampaign(st, config, a, low, categories).1, AskCampaign(st, config, a, high, categories).1;
  }

  lemma {:induction false} MetRises(
    a: Arrival, bot0: Option<Bot.Outcome>, bot1: Option<Bot.Outcome>, behavior0: Option<Behavior.Outcome>,
    behavior1: Option<Behavior.Outcome>, learner0: Option<UnknownThreats.Outcome>,
    learner1: Option<UnknownThreats.Outcome>, campaign0: Option<Campaign.Outcome>, campaign1: Option<Campaign.Outcome>)
    requires bot0.Some? == bot1.Some? && behavior0.Some? == behavior1.Some?
    requires learner0.Some? == learner1.Some? && campaign0.Some? == campaign1.Some?
    requires bot0.Some? ==> bot0.value.action.Rank() <= bot1.value.action.Rank()
    requires behavior0.Some? ==> behavior0.value.action.Rank() <= behavior1.value.action.Rank()
    requires learner0.Some? ==> learner0.value.action.Rank() <= learner1.value.action.Rank()
    requires campaign0.Some? ==> campaign0.value.action.Rank() <= campaign1.value.action.Rank() <= 1
    ensures FindsNoMoreThan(Met(a, bot0, behavior0, learner0, campaign0), Met(a, bot1, behavior1, learner1, campaign1))
    ensures ActionOf(Met(a, bot1, behavior1, learner1, campaign1).campaign) != WafAction.Block
  {
  }

  lemma {:induction false} FoundBy(
    stores: Stores, c: Configs, a: Arrival, mode: WafMode, bot: Option<Bot.Outcome>,
    behavior: Option<Behavior.Outcome>, learner: Option<UnknownThreats.Outcome>, campaign: Option<Campaign.Outcome>)
    returns (found: Findings)
    requires |a.campaign.ids| == |c.campaign.policies|
    requires bot == AskBot(stores.bots, c.bot, a, mode).1
    requires behavior == AskBehavior(stores.behaviors, c.behavior, a, mode).1
    requires learner == AskLearner(stores.routes, c.learner, a, mode).1
    requires campaign
          == AskCampaign(stores.campaigns, c.campaign, a, mode, CampaignCategories(a, bot, behavior, learner)).1
    ensures found == Handled(stores, c, a, mode).1 == Met(a, bot, behavior, learner, campaign)
  {
    found := Met(a, bot, behavior, learner, campaign);
  }

  /** Asked from the same state, every store finds no less under a stricter mode, Off included. */
  lemma {:induction false} StoresFindNoLess(stores: Stores, c: Configs, a: Arrival, low: WafMode, high: WafMode)
    returns (less: Findings, more: Findings)
    requires |a.campaign.ids| == |c.campaign.policies| && low.Rank() <= high.Rank()
    ensures less == Handled(stores, c, a, low).1 && more == Handled(stores, c, a, high).1
    ensures FindsNoMoreThan(less, more) && ActionOf(more.campaign) != WafAction.Block
  {
    var bot0, bot1 := BotRises(stores.bots, c.bot, a, low, high);
    var behavior0, behavior1 := BehaviorRises(stores.behaviors, c.behavior, a, low, high);
    var learner0, learner1 := LearnerRises(stores.routes, c.learner, a, low, high);
    var categories := CampaignCategories(a, bot0, behavior0, learner0);
    assert categories == CampaignCategories(a, bot1, behavior1, learner1) by {
      SameCategories(a, bot0, bot1, behavior0, behavior1, learner0, learner1);
    }
    var campaign0, campaign1 := CampaignRises(stores.campaigns, c.campaign, a, low, high, categories);
    MetRises(a, bot0, bot1, behavior0, behavior1, learner0, learner1, campaign0, campaign1);
    less := FoundBy(stores, c, a, low, bot0, behavior0, learner0, campaign0);
    more := FoundBy(stores, c, a, high, bot1, behavior1, learner1, campaign1);
  }

  lemma {:induction false} SameCategories(
    a: Arrival, bot0: Option<Bot.Outcome>, bot1: Option<Bot.Outcome>, behavior0: Option<Behavior.Outcome>,
    behavior1: Option<Behavior.Outcome>, learner0: Option<UnknownThreats.Outcome>,
    learner1: Option<UnknownThreats.Outcome>)
    requires bot0.Some? == bot1.Some? && (bot0.Some? ==> bot0.value.contributors == bot1.value.contributors)
    requires behavior0.Some? == behavior1.Some?
    requires behavior0.Some? ==> behavior0.value.contributors == behavior1.value.contributors
    requires learner0.Some? == learner1.Some? && (learner0.Some? ==> learner0.value.signals == learner1.value.signals)
    ensures CampaignCategories(a, bot0, behavior0, learner0) == CampaignCategories(a, bot1, behavior1, learner1)
  {
  }

  /** Between modes other than Off all stores are left the same. */
  lemma {:induction false} StoresLeftSame(stores: Stores, c: Configs, a: Arrival, low: WafMode, high: WafMode)
    requires |a.campaign.ids| == |c.campaign.policies| && low != WafMode.Off && low.Rank() <= high.Rank()
    ensures Handled(stores, c, a, low).0 == Handled(stores, c, a, high).0
  {
    var bot, _ := BotRises(stores.bots, c.bot, a, low, high);
    var behavior, _ := BehaviorRises(stores.behaviors, c.behavior, a, low, high);
    var learner, stricter := LearnerRises(stores.routes, c.learner, a, low, high);
    SameCategories(a, bot, bot, behavior, behavior, learner, stricter);
    var categories := CampaignCategories(a, bot, behavior, learner);
    var campaign, _ := CampaignRises(stores.campaigns, c.campaign, a, low, high, categories);
  }

  lemma {:induction false} HeardWhenOff(
    a: Arrival, bot: Option<Bot.Outcome>, behavior: Option<Behavior.Outcome>, learner: Option<UnknownThreats.Outcome>,
    campaign: Option<Campaign.Outcome>, s: Settings)
    requires s.serverMode == WafMode.Off && (campaign.Some? ==> campaign.value.action == WafAction.Allow)
    ensures FinalAction(Met(a, bot, behavior, learner, campaign), s)
         == FinalAction(Met(a, None, None, learner, None), s)
  {
    if Skips(WithoutStores(a)) {
      assert Consulted(Met(a, bot, behavior, learner, campaign)) == Consulted(Met(a, None, None, learner, None));
    }
  }

  /** In mode Off only the learner's finding reaches the decision, whatever the other stores hold. */
  lemma {:induction false} OffHearsLearnerOnly(stores: Stores, c: Configs, a: Arrival, s: Settings)
    returns (heard: Findings)
    requires |a.campaign.ids| == |c.campaign.policies| && s.serverMode == WafMode.Off
    ensures heard == Met(a, None, None, AskLearner(stores.routes, c.learner, a, WafMode.Off).1, None)
    ensures FinalAction(Handled(stores, c, a, WafMode.Off).1, s) == FinalAction(heard, s)
  {
    var learner := AskLearner(stores.routes, c.learner, a, WafMode.Off).1;
    var bot := AskBot(stores.bots, c.bot, a, WafMode.Off).1;
    var behavior := AskBehavior(stores.behaviors, c.behavior, a, WafMode.Off).1;
    var categories := CampaignCategories(a, bot, behavior, learner);
    var campaign, same := CampaignRises(stores.campaigns, c.campaign, a, WafMode.Off, WafMode.Off, categories);
    HeardWhenOff(a, bot, behavior, learner, campaign, s);
    heard := Met(a, None, None, learner, None);
  }

  /** Under any two modes the learner's routes agree, and between modes other than Off all stores do. */
  ghost predicate Agree(low: Stores, high: Stores, mode: WafMode) {
    low.routes == high.routes && (mode != WafMode.Off ==> low == high)
  }

  /** From stores that agree the request is decided no milder under the stricter mode, and it leaves
      them agreeing. */
  lemma {:induction false} OneRequest(
    low: Stores, high: Stores, c: Configs, a: Arrival, s: Settings, mode: WafMode)
    requires |a.campaign.ids| == |c.campaign.policies| && s.threshold > 0 && s.serverMode.Rank() <= mode.Rank()
    requires Agree(low, high, s.serverMode)
    ensures FinalAction(Handled(low, c, a, s.serverMode).1, s).Rank()
         <= FinalAction(Handled(high, c, a, mode).1, s.(serverMode := mode)).Rank()
    ensures Agree(Handled(low, c, a, s.serverMode).0, Handled(high, c, a, mode).0, s.serverMode)
  {
    if s.serverMode != WafMode.Off {
      var less, more := StoresFindNoLess(low, c, a, s.serverMode, mode);
      StoresLeftSame(low, c, a, s.serverMode, mode);
      DecisionIsMonotone(less, more, s, mode);
    } else {
      var heard := OffHearsLearnerOnly(low, c, a, s);
      var milder, stricter := LearnerRises(low.routes, c.learner, a, WafMode.Off, mode);
      DecisionIsMonotone(heard, Handled(high, c, a, mode).1, s, mode);
    }
  }

  // ----- runs -----

  ghost predicate Callable(c: Configs, arrivals: seq<Arrival>) {
    forall i :: 0 <= i < |arrivals| ==> |arrivals[i].campaign.ids| == |c.campaign.policies|
  }

  /** Requests handled one after the other: the stores before and after each, and what is decided. */
  datatype Run = Run(arrivals: seq<Arrival>, stores: seq<Stores>, actions: seq<WafAction>)

  ghost predicate Shaped(c: Configs, run: Run) {
    |run.stores| == |run.arrivals| + 1 && |run.actions| == |run.arrivals| && Callable(c, run.arrivals)
  }

  ghost predicate Follows(c: Configs, s: Settings, run: Run, i: nat)
    requires Shaped(c, run) && i < |run.arrivals|
  {
    var (next, findings) := Handled(run.stores[i], c, run.arrivals[i], s.serverMode);
    run.stores[i + 1] == next && run.actions[i] == FinalAction(findings, s)
  }

  ghost predicate IsRun(c: Configs, s: Settings, run: Run) {
    Shaped(c, run) && forall i :: 0 <= i < |run.arrivals| ==> Follows(c, s, run, i)
  }

  ghost predicate SameArrivals(low: Run, high: Run) {
    low.arrivals == high.arrivals && low.stores != [] && high.stores != [] && low.stores[0] == high.stores[0]
  }

  lemma {:induction false} StepAgrees(c: Configs, s: Settings, mode: WafMode, low: Run, high: Run, k: nat)
    requires s.threshold > 0 && s.serverMode.Rank() <= mode.Rank()
    requires IsRun(c, s, low) && IsRun(c, s.(serverMode := mode), high) && SameArrivals(low, high)
    requires k < |low.arrivals| && Agree(low.stores[k], high.stores[k], s.serverMode)
    ensures low.actions[k].Rank() <= high.actions[k].Rank()
    ensures Agree(low.stores[k + 1], high.stores[k + 1], s.serverMode)
  {
    assert Follows(c, s, low, k) && Follows(c, s.(serverMode := mode), high, k);
    OneRequest(low.stores[k], high.stores[k], c, low.arrivals[k], s, mode);
  }

  lemma {:induction false} StoresAgree(c: Configs, s: Settings, mode: WafMode, low: Run, high: Run, k: nat)
    requires s.threshold > 0 && s.serverMode.Rank() <= mode.Rank()
    requires IsRun(c, s, low) && IsRun(c, s.(serverMode := mode), high) && SameArrivals(low, high)
    requires k <= |low.arrivals|
    ensures Agree(low.stores[k], high.stores[k], s.serverMode)
    decreases k
  {
    if k > 0 {
      StoresAgree(c, s, mode, low, high, k - 1);
      StepAgrees(c, s, mode, low, high, k - 1);
    }
  }

  /** A stricter server mode is never milder. Let the same requests, with the same clock readings, come
      to the same stores under two modes: each of them is decided at least as severely under the
      stricter one, although the stores decide over the state that their own answers left. */
  lemma {:induction false} StricterModeIsNeverMilder(
    c: Configs, s: Settings, mode: WafMode, low: Run, high: Run, k: nat)
    requires s.threshold > 0 && s.serverMode.Rank() <= mode.Rank()
    requires IsRun(c, s, low) && IsRun(c, s.(serverMode := mode), high) && SameArrivals(low, high)
    requires k < |low.arrivals|
    ensures low.actions[k].Rank() <= high.actions[k].Rank()
  {
    StoresAgree(c, s, mode, low, high, k);
    StepAgrees(c, s, mode, low, high, k);
  }

  /** Whatever the stores hold, of the requests under AllowAll, MonitorAll or a server mode of Off exactly
      those of runtime-blocklisted clients are blocked. */
  lemma {:induction false} OnlyBlocklistedWhenOff(c: Configs, s: Settings, run: Run, k: nat)
    requires IsRun(c, s, run) && k < |run.arrivals|
    requires var allowed := run.arrivals[k].runtimeAllowlist;
             allowed == Some(AllowAll) || allowed == Some(MonitorAll) || s.serverMode == WafMode.Off
    ensures run.actions[k] == WafAction.Block <==> run.arrivals[k].runtimeBlocklist.Some?
  {
    assert Follows(c, s, run, k);
    var a, stores := run.arrivals[k], run.stores[k];
    var answer, same := LearnerRises(stores.routes, c.learner, a, s.serverMode, s.serverMode);
    NothingElseBlocksWhenOff(Handled(stores, c, a, s.serverMode).1, s);
  }

  // ----- whom the handler asks, and about what -----

  /** Is the store asked: is it on and working, and is the client neither listed for blocking nor spared? */
  ghost predicate IsAsked(a: Arrival, store: StoreName, enabled: bool) {
    && enabled && store !in a.failing && a.runtimeBlocklist == None
    && (a.runtimeAllowlist == None || a.runtimeAllowlist == Some(BlockEffect))
  }

  /** Increasing, and so without repetition. */
  ghost predicate Increasing(categories: seq<string>) {
    forall i, j :: 0 <= i < j < |categories| ==>
      categories[i] != categories[j] && CampaignCounts.Precedes(categories[i], categories[j])
  }

  ghost predicate NoticedProbe(outcome: Behavior.Outcome) {
    exists c :: c in outcome.contributors && c.reason == "scanner_path_probe"
  }

  /** The categories under which a request is correlated: those of its matches, and one for each store that
      was asked and noticed anything. */
  ghost predicate IsCategory(
    category: string, a: Arrival, bot: Option<Bot.Outcome>, behavior: Option<Behavior.Outcome>,
    learner: Option<UnknownThreats.Outcome>)
  {
    || category in a.categories
    || (category == "bot_protection" && bot.Some? && bot.value.contributors != [])
    || (category == "scanner_behavior" && behavior.Some? && NoticedProbe(behavior.value))
    || (category == "unknown_threat" && learner.Some? && learner.value.signals != [])
  }

  lemma {:induction false} InFront(first: string, rest: seq<string>)
    requires Increasing(rest) && forall x :: x in rest ==> first != x && CampaignCounts.Precedes(first, x)
    ensures Increasing([first] + rest)
  {
    var all := [first] + rest;
    forall i, j | 0 <= i < j < |all| ensures all[i] != all[j] && CampaignCounts.Precedes(all[i], all[j]) {
      assert all[j] == rest[j - 1] && all[j] in rest;
      if i > 0 { assert all[i] == rest[i - 1]; }
    }
  }

  lemma {:induction false} FirstPrecedes(sorted: seq<string>)
    requires sorted != [] && Increasing(sorted)
    ensures forall x :: x in sorted[1..] ==> sorted[0] != x && CampaignCounts.Precedes(sorted[0], x)
    ensures Increasing(sorted[1..])
  {
    forall x | x in sorted[1..] ensures sorted[0] != x && CampaignCounts.Precedes(sorted[0], x) {
      var j :| 0 <= j < |sorted[1..]| && sorted[1..][j] == x;
      assert sorted[j + 1] == x;
    }
  }

  lemma {:induction false} PrecedesAll(category: string, sorted: seq<string>)
    requires sorted != [] && Increasing(sorted) && category != sorted[0] && Campaign.StringLeq(category, sorted[0])
    ensures forall x :: x in sorted ==> category != x && CampaignCounts.Precedes(category, x)
  {
    FirstPrecedes(sorted);
    assert sorted == [sorted[0]] + sorted[1..];
    forall x | x in sorted ensures category != x && CampaignCounts.Precedes(category, x) {
      CampaignCounts.StringOrder(category, x);
      if x != sorted[0] {
        CampaignCounts.StringOrder(sorted[0], x);
        CampaignCounts.StringsAreOrdered(category, sorted[0], x);
        CampaignCounts.StringsAreOrdered(category, sorted[0], category);
      }
    }
  }

  lemma {:induction false} InsertKeepsOrder(category: string, sorted: seq<string>) returns (longer: seq<string>)
    requires Increasing(sorted)
    ensures longer == InsertOnce(category, sorted) && Increasing(longer)
    ensures forall x :: x in longer <==> x == category || x in sorted
    decreases |sorted|
  {
    longer := InsertOnce(category, sorted);
    if sorted == [] || category == sorted[0] {
    } else if Campaign.StringLeq(category, sorted[0]) {
      PrecedesAll(category, sorted);
      InFront(category, sorted);
    } else {
      assert sorted == [sorted[0]] + sorted[1..];
      FirstPrecedes(sorted);
      var rest := InsertKeepsOrder(category, sorted[1..]);
      CampaignCounts.StringsAreOrdered(category, sorted[0], category);
      CampaignCounts.StringOrder(sorted[0], category);
      InFront(sorted[0], rest);
    }
  }

  lemma {:induction false} SortedOnceIsSorted(categories: seq<string>) returns (sorted: seq<string>)
    ensures sorted == SortedOnce(categories) && Increasing(sorted)
    ensures forall x :: x in sorted <==> x in categories
    decreases |categories|
  {
    if categories == [] {
      sorted := [];
    } else {
      sorted := SortedOnceIsSorted(categories[1..]);
      sorted := InsertKeepsOrder(categories[0], sorted);
      assert categories == [categories[0]] + categories[1..];
    }
  }

  lemma {:induction false} CategoriesAreExact(
    a: Arrival, bot: Option<Bot.Outcome>, behavior: Option<Behavior.Outcome>, learner: Option<UnknownThreats.Outcome>)
    returns (categories: seq<string>)
    ensures categories == CampaignCategories(a, bot, behavior, learner) && Increasing(categories)
    ensures forall x :: x in categories <==> IsCategory(x, a, bot, behavior, learner)
  {
    if behavior.Some? { ProbeIsNoticed(behavior.value); }
    var ofBot := if bot.Some? && bot.value.contributors != [] then ["bot_protection"] else [];
    var ofBehavior := if behavior.Some? && Probed(behavior.value) then ["scanner_behavior"] else [];
    var ofLearner := if learner.Some? && learner.value.signals != [] then ["unknown_threat"] else [];
    categories := SortedOnceIsSorted(a.categories + ofBot + ofBehavior + ofLearner);
  }

  lemma {:induction false} ProbeIsNoticed(outcome: Behavior.Outcome)
    ensures Probed(outcome) <==> NoticedProbe(outcome)
  {
    if c :| c in outcome.contributors && c.reason == "scanner_path_probe" {
      var i :| 0 <= i < |outcome.contributors| && outcome.contributors[i] == c;
    }
  }

  /** Each store that is asked evaluates the request, under the server mode in force, the learner as one to
      learn from exactly if no rule matched it; the others are left as they were and find nothing. */
  lemma {:induction false} ScoringIsAsked(stores: Stores, c: Configs, a: Arrival, mode: WafMode)
    ensures AskBot(stores.bots, c.bot, a, mode) ==
      if !IsAsked(a, BotStore, c.bot.enabled) then (stores.bots, None)
      else
        var (next, outcome) := Bot.Served(c.bot, stores.bots, Bot.Step(a.bot.(serverMode := mode), a.botNow));
        (next, Some(outcome))
    ensures AskBehavior(stores.behaviors, c.behavior, a, mode) ==
      if !IsAsked(a, BehaviorStore, c.behavior.enabled) then (stores.behaviors, None)
      else
        var request := a.behavior.(serverMode := mode);
        var (next, outcome) := Behavior.Served(c.behavior, stores.behaviors, request, a.behaviorNow);
        (next, Some(outcome))
    ensures AskLearner(stores.routes, c.learner, a, mode) ==
      if !IsAsked(a, LearnerStore, c.learner.enabled) then (stores.routes, None)
      else
        var request := a.learner.(serverMode := mode, eligible := |a.matches| == 0);
        var (next, outcome) := UnknownThreats.Evaluated(stores.routes, c.learner, request, a.learnerNow);
        (next, Some(outcome))
  {
  }

  /** The campaign store evaluates the request last, under exactly the categories of its matches and of what
      the other stores noticed. */
  lemma {:induction false} CampaignIsAsked(stores: Stores, c: Configs, a: Arrival, mode: WafMode)
    returns (campaigns: Campaign.State, found: Option<Campaign.Outcome>, categories: seq<string>)
    requires |a.campaign.ids| == |c.campaign.policies|
    ensures var bot, learner := AskBot(stores.bots, c.bot, a, mode), AskLearner(stores.routes, c.learner, a, mode);
            var behavior := AskBehavior(stores.behaviors, c.behavior, a, mode);
            && Increasing(categories)
            && (forall x :: x in categories <==> IsCategory(x, a, bot.1, behavior.1, learner.1))
            && Handled(stores, c, a, mode).0 == Stores(bot.0, behavior.0, learner.0, campaigns)
            && Handled(stores, c, a, mode).1 == Met(a, bot.1, behavior.1, learner.1, found)
    ensures var request := a.campaign.request.(serverMode := mode, categories := categories);
            if !IsAsked(a, CampaignStore, c.campaign.enabled) then campaigns == stores.campaigns && found == None
            else found.Some? && (campaigns, found.value)
                 == Campaign.Evaluated(stores.campaigns, c.campaign, a.campaign.(request := request))
  {
    var bot, behavior := AskBot(stores.bots, c.bot, a, mode).1, AskBehavior(stores.behaviors, c.behavior, a, mode).1;
    var learner := AskLearner(stores.routes, c.learner, a, mode).1;
    categories := CategoriesAreExact(a, bot, behavior, learner);
    var answer := AskCampaign(stores.campaigns, c.campaign, a, mode, categories);
    campaigns, found := answer.0, answer.1;
  }

  /** The decision is exactly that of the request's own findings and the answers of the stores it is asked of:
      no answer is left out, taken for another, or heard from a store that was not asked. */
  lemma {:induction false} AnswersDecide(stores: Stores, c: Configs, a: Arrival, s: Settings)
    returns (met: Findings, categories: seq<string>)
    requires |a.campaign.ids| == |c.campaign.policies|
    ensures met.runtimeBlocklist == a.runtimeBlocklist && met.runtimeAllowlist == a.runtimeAllowlist
    ensures met.matches == a.matches
    ensures met.bot.Some? <==> IsAsked(a, BotStore, c.bot.enabled)
    ensures met.behavior.Some? <==> IsAsked(a, BehaviorStore, c.behavior.enabled)
    ensures met.unknownThreat.Some? <==> IsAsked(a, LearnerStore, c.learner.enabled)
    ensures met.campaign.Some? <==> IsAsked(a, CampaignStore, c.campaign.enabled)
    ensures met.bot.Some? ==>
      var request := a.bot.(serverMode := s.serverMode);
      met.bot.value == Bot.Served(c.bot, stores.bots, Bot.Step(request, a.botNow)).1.action
    ensures met.behavior.Some? ==>
      var request := a.behavior.(serverMode := s.serverMode);
      met.behavior.value == Behavior.Served(c.behavior, stores.behaviors, request, a.behaviorNow).1.action
    ensures met.unknownThreat.Some? ==>
      var request := a.learner.(serverMode := s.serverMode, eligible := |a.matches| == 0);
      met.unknownThreat.value == UnknownThreats.Evaluated(stores.routes, c.learner, request, a.learnerNow).1.action
    ensures met.campaign.Some? ==>
      var request := a.campaign.request.(serverMode := s.serverMode, categories := categories);
      met.campaign.value == Campaign.Evaluated(stores.campaigns, c.campaign, a.campaign.(request := request)).1.action
    ensures var action := FinalAction(Handled(stores, c, a, s.serverMode).1, s);
            && (action == WafAction.Block <==> DecisionCounts.Blocks(met, s))
            && (action == WafAction.Monitor <==> !DecisionCounts.Blocks(met, s) && DecisionCounts.Reports(met, s))
  {
    var bot := AskBot(stores.bots, c.bot, a, s.serverMode).1;
    var behavior := AskBehavior(stores.behaviors, c.behavior, a, s.serverMode).1;
    var learner := AskLearner(stores.routes, c.learner, a, s.serverMode).1;
    ScoringIsAsked(stores, c, a, s.serverMode);
    var _, found, shared := CampaignIsAsked(stores, c, a, s.serverMode);
    categories := shared;
    met := Met(a, bot, behavior, learner, found);
    DecisionCounts.ActionIsExact(met, s);
  }
}
