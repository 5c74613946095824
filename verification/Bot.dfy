/**
 Bot scoring and temporary blocks of src/bot/eval.rs. What a request contributes, the thresholds of
 its path and whether it is on a list are inputs; scores are natural numbers that do not overflow.
 */
module Bot {
  import opened ScoreWindow
  import opened Wrappers
  import opened WafTypes

  datatype ClientState = ClientState(entries: seq<Entry>, temporaryBlockedUntil: Option<nat>)

  datatype Config = Config(enabled: bool, mode: BehaviorMode, scoreWindow: nat, blockDuration: nat)

  datatype Request = Request(
    clientId: string, path: string, serverMode: WafMode, monitorThreshold: nat, blockThreshold: nat,
    allowlisted: bool, blocklisted: bool, contributors: seq<Contributor>)

  datatype Outcome = Outcome(
    action: WafAction, score: nat, temporaryBlockedUntil: Option<nat>, allowlisted: bool, blocklisted: bool,
    contributors: seq<Contributor>)

  // ----- evaluation -----

  function BotAction(config: Config, r: Request, score: nat): WafAction {
    if !config.enabled || config.mode == BehaviorMode.Off || r.serverMode == WafMode.Off then WafAction.Allow
    else if r.blocklisted || (config.mode == BehaviorMode.Block && score >= r.blockThreshold) then WafAction.Block
    else if score >= r.monitorThreshold then WafAction.Monitor
    else WafAction.Allow
  }

  function NewContributors(r: Request): seq<Contributor> {
    r.contributors + if r.blocklisted then [Contributor("blocklist_match", r.blockThreshold, r.path)] else []
  }

  predicate BlockActive(st: ClientState, now: nat) {
    st.temporaryBlockedUntil.Some? && st.temporaryBlockedUntil.value > now
  }

  function Evaluated(config: Config, r: Request, st: ClientState, now: nat): (ClientState, Outcome) {
    if r.allowlisted then
      (st, Outcome(WafAction.Allow, 0, None, true, false, []))
    else if BlockActive(st, now) then
      (st, Outcome(WafAction.Block, r.blockThreshold, st.temporaryBlockedUntil, false, false,
                   [Contributor("temporary_block_active", r.blockThreshold, r.path)]))
    else
      var entries := Retained(st.entries, config.scoreWindow, now) + Stamped(NewContributors(r), now);
      var contributors := InWindow(entries, config.scoreWindow, now);
      var action := BotAction(config, r, Score(contributors));
      var until := if action == WafAction.Block then Some(now + config.blockDuration) else None;
      (ClientState(entries, until), Outcome(action, Score(contributors), until, false, r.blocklisted, contributors))
  }

  function StateOf(clients: map<string, ClientState>, clientId: string): ClientState {
    if clientId in clients then clients[clientId] else ClientState([], None)
  }

  class BotProtectionStore {
    const config: Config
    var clients: map<string, ClientState>

    constructor (config: Config)
      ensures this.config == config && clients == map[]
    {
      this.config := config;
      clients := map[];
    }

    method Evaluate(r: Request, now: nat) returns (outcome: Outcome)
      modifies this
      ensures var (st, expected) := Evaluated(config, r, StateOf(old(clients), r.clientId), now);
              clients == old(clients)[r.clientId := st] && outcome == expected
    {
      var st := StateOf(clients, r.clientId);
      clients := clients[r.clientId := st];
      if r.allowlisted {
        return Outcome(WafAction.Allow, 0, None, true, false, []);
      }
      if st.temporaryBlockedUntil.Some? && st.temporaryBlockedUntil.value > now {
        return Outcome(WafAction.Block, r.blockThreshold, st.temporaryBlockedUntil, false, false,
                       [Contributor("temporary_block_active", r.blockThreshold, r.path)]);
      }
      var contributed := r.contributors;
      if r.blocklisted {
        contributed := contributed + [Contributor("blocklist_match", r.blockThreshold, r.path)];
      }
      assert contributed == NewContributors(r);
      var entries := Retained(st.entries, config.scoreWindow, now);
      entries := Record(entries, contributed, now);
      var contributors: seq<Contributor> := InWindow(entries, config.scoreWindow, now);
      var score := Score(contributors);
      var action := BotAction(config, r, score);
      var until := None;
      if action == WafAction.Block { until := Some(now + config.blockDuration); }
      clients := clients[r.clientId := ClientState(entries, until)];
      outcome := Outcome(action, score, until, false, r.blocklisted, contributors);
    }
  }

  // ----- runs -----

  datatype Step = Step(request: Request, now: nat)

  function Served(config: Config, clients: map<string, ClientState>, step: Step): (map<string, ClientState>, Outcome) {
    var (st, outcome) := Evaluated(config, step.request, StateOf(clients, step.request.clientId), step.now);
    (clients[step.request.clientId := st], outcome)
  }

  function ClientsAfter(config: Config, clients: map<string, ClientState>, steps: seq<Step>): map<string, ClientState>
    decreases |steps|
  {
    if steps == [] then clients else ClientsAfter(config, Served(config, clients, steps[0]).0, steps[1..])
  }

  function Outcomes(config: Config, clients: map<string, ClientState>, steps: seq<Step>): (outcomes: seq<Outcome>)
    ensures |outcomes| == |steps|
    decreases |steps|
  {
    if steps == [] then []
    else
      var (next, outcome) := Served(config, clients, steps[0]);
      [outcome] + Outcomes(config, next, steps[1..])
  }

  /** A temporary block holds. Until its deadline every request of the client that is not
      allowlisted is blocked with the same deadline, and nothing changes the client's state,
      whatever other clients send in between. */
  lemma {:induction false} BlockHolds(
    config: Config, clients: map<string, ClientState>, steps: seq<Step>, clientId: string, until: nat)
    requires StateOf(clients, clientId).temporaryBlockedUntil == Some(until)
    requires forall i :: 0 <= i < |steps| && steps[i].request.clientId == clientId ==> steps[i].now < until
    ensures StateOf(ClientsAfter(config, clients, steps), clientId) == StateOf(clients, clientId)
    ensures forall i :: 0 <= i < |steps| && steps[i].request.clientId == clientId ==>
      var outcome := Outcomes(config, clients, steps)[i];
      if steps[i].request.allowlisted then outcome.action == WafAction.Allow && outcome.contributors == []
      else outcome.action == WafAction.Block && outcome.temporaryBlockedUntil == Some(until)
    decreases |steps|
  {
    if steps != [] {
      var (next, outcome) := Served(config, clients, steps[0]);
      BlockHolds(config, next, steps[1..], clientId, until);
      assert Outcomes(config, clients, steps)[1..] == Outcomes(config, next, steps[1..]);
    }
  }

  // ----- what an expired block leaves behind -----

  /** A request that is scored counts its own contributors after those the window still holds; it
      counts only its own exactly when every recorded entry is older than the window. */
  lemma {:induction false} ScoresWindow(config: Config, r: Request, st: ClientState, now: nat)
    requires NoneAfter(st.entries, now) && !r.allowlisted && !BlockActive(st, now)
    ensures Evaluated(config, r, st, now).1.contributors
         == InWindow(st.entries, config.scoreWindow, now) + NewContributors(r)
    ensures Evaluated(config, r, st, now).1.contributors == NewContributors(r)
       <==> forall i :: 0 <= i < |st.entries| ==> st.entries[i].timestamp < SatSub(now, config.scoreWindow)
    ensures NoneAfter(Evaluated(config, r, st, now).0.entries, now)
  {
    var stamped := Stamped(NewContributors(r), now);
    InWindowOfRetained(st.entries, config.scoreWindow, config.scoreWindow, now);
    InWindowAppend(Retained(st.entries, config.scoreWindow, now), stamped, config.scoreWindow, now);
    StampedEntries(NewContributors(r), config.scoreWindow, now);
    NothingInWindow(st.entries, config.scoreWindow, now);
    var earlier := InWindow(st.entries, config.scoreWindow, now);
    assert earlier + NewContributors(r) == NewContributors(r) ==> |earlier| == 0;
  }

  ghost predicate Timed(steps: seq<Step>) {
    forall i, j :: 0 <= i < j < |steps| ==> steps[i].now <= steps[j].now
  }

  lemma {:induction false} EntriesNotAfter(
    config: Config, clients: map<string, ClientState>, steps: seq<Step>, clientId: string, t: nat)
    requires Timed(steps) && (forall i :: 0 <= i < |steps| ==> steps[i].now <= t)
    requires NoneAfter(StateOf(clients, clientId).entries, if steps == [] then t else steps[0].now)
    ensures NoneAfter(StateOf(ClientsAfter(config, clients, steps), clientId).entries, t)
    decreases |steps|
  {
    if steps != [] {
      var (next, outcome) := Served(config, clients, steps[0]);
      var r, now := steps[0].request, steps[0].now;
      if r.clientId == clientId && !r.allowlisted && !BlockActive(StateOf(clients, clientId), now) {
        ScoresWindow(config, r, StateOf(clients, clientId), now);
      }
      EntriesNotAfter(config, next, steps[1..], clientId, t);
    }
  }

  lemma {:induction false} AfterSplits(config: Config, clients: map<string, ClientState>, a: seq<Step>, b: seq<Step>)
    ensures ClientsAfter(config, clients, a + b) == ClientsAfter(config, ClientsAfter(config, clients, a), b)
    decreases |a|
  {
    if a == [] {
      assert a + b == b;
    } else {
      assert (a + b)[1..] == a[1..] + b;
      AfterSplits(config, Served(config, clients, a[0]).0, a[1..], b);
    }
  }

  lemma {:induction false} ScoredBlock(config: Config, clients: map<string, ClientState>, block: Step)
    returns (blocked: ClientState)
    requires var st := StateOf(clients, block.request.clientId);
             !block.request.allowlisted && !BlockActive(st, block.now) && NoneAfter(st.entries, block.now)
             && Evaluated(config, block.request, st, block.now).1.action == WafAction.Block
    ensures blocked == StateOf(Served(config, clients, block).0, block.request.clientId)
    ensures blocked.temporaryBlockedUntil == Some(block.now + config.blockDuration)
    ensures NoneAfter(blocked.entries, block.now)
  {
    ScoresWindow(config, block.request, StateOf(clients, block.request.clientId), block.now);
    blocked := StateOf(Served(config, clients, block).0, block.request.clientId);
  }

  /** What the block leaves for its client is still there after what is sent meanwhile. */
  lemma {:induction false} BlockStands(
    config: Config, before: seq<Step>, block: Step, meanwhile: seq<Step>, blocked: ClientState)
    requires blocked == StateOf(Served(config, ClientsAfter(config, map[], before), block).0, block.request.clientId)
    requires blocked.temporaryBlockedUntil.Some?
    requires forall i :: 0 <= i < |meanwhile| && meanwhile[i].request.clientId == block.request.clientId ==>
      meanwhile[i].now < blocked.temporaryBlockedUntil.value
    ensures StateOf(ClientsAfter(config, map[], before + [block] + meanwhile), block.request.clientId) == blocked
  {
    var clients0 := ClientsAfter(config, map[], before);
    var clients1 := Served(config, clients0, block).0;
    BlockHolds(config, clients1, meanwhile, block.request.clientId, blocked.temporaryBlockedUntil.value);
    AfterSplits(config, map[], before + [block], meanwhile);
    AfterSplits(config, map[], before, [block]);
    assert ClientsAfter(config, clients0, [block]) == clients1;
  }

  /** Blocks do not feed themselves. In a run from the empty store, let `block` be scored and blocked
      and let its client send only `meanwhile`, before the deadline. If the block lasts longer than
      the score window, the client's first scored request at or after the deadline is scored on its
      own contributors alone. */
  lemma {:induction false} FreshStartAfterBlock(
    config: Config, before: seq<Step>, block: Step, meanwhile: seq<Step>, next: Step)
    requires Timed(before + [block]) && config.blockDuration > config.scoreWindow
    requires next.request.clientId == block.request.clientId && !next.request.allowlisted
    requires var st := StateOf(ClientsAfter(config, map[], before), block.request.clientId);
             !block.request.allowlisted && !BlockActive(st, block.now)
             && Evaluated(config, block.request, st, block.now).1.action == WafAction.Block
    requires forall i :: 0 <= i < |meanwhile| && meanwhile[i].request.clientId == block.request.clientId ==>
      meanwhile[i].now < block.now + config.blockDuration
    requires next.now >= block.now + config.blockDuration
    ensures var st := StateOf(ClientsAfter(config, map[], before + [block] + meanwhile), next.request.clientId);
            Evaluated(config, next.request, st, next.now).1.contributors == NewContributors(next.request)
  {
    var st := ClientsAfter(config, map[], before);
    assert forall i :: 0 <= i < |before| ==> (before + [block])[i] == before[i];
    assert (before + [block])[|before|] == block;
    EntriesNotAfter(config, map[], before, block.request.clientId, block.now);
    var blocked := ScoredBlock(config, st, block);
    BlockStands(config, before, block, meanwhile, blocked);
    ScoresWindow(config, next.request, blocked, next.now);
  }

  /** With a block no longer than the window the entries that caused it are still counted when it
      ends, and a silent client is blocked again. */
  lemma {:induction false} ShortBlockRenewsItself(config: Config, r: Request, silent: Request, now: nat)
    requires config.enabled && config.mode == BehaviorMode.Block && config.blockDuration <= config.scoreWindow
    requires !r.allowlisted && !r.blocklisted && r.serverMode != WafMode.Off
    requires Score(r.contributors) >= r.blockThreshold
    requires silent == r.(contributors := [])
    ensures var (st, first) := Evaluated(config, r, ClientState([], None), now);
            (var again := Evaluated(config, silent, st, now + config.blockDuration).1;
             first.action == WafAction.Block && again.action == WafAction.Block && again.contributors == r.contributors)
  {
    var entries := Stamped(r.contributors, now);
    assert Retained([], config.scoreWindow, now) + Stamped(NewContributors(r), now) == entries by {
      assert NewContributors(r) == r.contributors && Retained([], config.scoreWindow, now) == [];
    }
    StampedEntries(r.contributors, config.scoreWindow, now);
    SilentIsScored(config, silent, ClientState(entries, Some(now + config.blockDuration)), r.contributors, now);
  }

  lemma {:induction false} SilentIsScored(
    config: Config, silent: Request, st: ClientState, contributors: seq<Contributor>, now: nat)
    requires config.blockDuration <= config.scoreWindow && !silent.allowlisted && !silent.blocklisted
    requires silent.contributors == []
    requires st.entries == Stamped(contributors, now) && st.temporaryBlockedUntil == Some(now + config.blockDuration)
    ensures Evaluated(config, silent, st, now + config.blockDuration).1.contributors == contributors
  {
    var later, entries := now + config.blockDuration, st.entries;
    StillInWindow(contributors, config.scoreWindow, now, later);
    var seen := InWindow(entries, config.scoreWindow, later);
    assert NewContributors(silent) == [] && seen + [] == contributors;
    ScoresWindow(config, silent, st, later);
  }
}
