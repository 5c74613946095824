/**
 Behavior scoring of src/behavior/mod.rs. What a request contributes and the thresholds of its path
 are inputs; scores are natural numbers that do not overflow.
 */
module Behavior {
  import opened ScoreWindow
  import opened Wrappers
  import opened WafTypes

  datatype Config = Config(enabled: bool, mode: BehaviorMode, scoreWindow: nat, decayWindow: nat)

  datatype Request = Request(
    clientId: string, serverMode: WafMode, monitorThreshold: nat, blockThreshold: nat, contributors: seq<Contributor>)

  datatype Outcome = Outcome(action: WafAction, score: nat, contributors: seq<Contributor>)

  // ----- evaluation -----

  function BehaviorAction(config: Config, r: Request, score: nat): WafAction {
    if !config.enabled || config.mode == BehaviorMode.Off || r.serverMode == WafMode.Off then WafAction.Allow
    else if config.mode == BehaviorMode.Block && score >= r.blockThreshold then WafAction.Block
    else if score >= r.monitorThreshold then WafAction.Monitor
    else WafAction.Allow
  }

  function Evaluated(config: Config, r: Request, entries: seq<Entry>, now: nat): (seq<Entry>, Outcome) {
    var kept := Retained(entries, config.scoreWindow + config.decayWindow, now) + Stamped(r.contributors, now);
    var contributors := InWindow(kept, config.scoreWindow, now);
    (kept, Outcome(BehaviorAction(config, r, Score(contributors)), Score(contributors), contributors))
  }

  function EntriesOf(clients: map<string, seq<Entry>>, clientId: string): seq<Entry> {
    if clientId in clients then clients[clientId] else []
  }

  function Served(config: Config, clients: map<string, seq<Entry>>, r: Request, now: nat)
    : (map<string, seq<Entry>>, Outcome)
  {
    var (entries, outcome) := Evaluated(config, r, EntriesOf(clients, r.clientId), now);
    (clients[r.clientId := entries], outcome)
  }

  class BehaviorStore {
    const config: Config
    var clients: map<string, seq<Entry>>

    constructor (config: Config)
      ensures this.config == config && clients == map[]
    {
      this.config := config;
      clients := map[];
    }

    method Evaluate(r: Request, now: nat) returns (outcome: Outcome)
      modifies this
      ensures (clients, outcome) == Served(config, old(clients), r, now)
    {
      var entries := Retained(EntriesOf(clients, r.clientId), config.scoreWindow + config.decayWindow, now);
      entries := Record(entries, r.contributors, now);
      clients := clients[r.clientId := entries];
      var contributors := InWindow(entries, config.scoreWindow, now);
      var score := Score(contributors);
      outcome := Outcome(BehaviorAction(config, r, score), score, contributors);
    }
  }

  // ----- the decay window -----

  datatype Step = Step(request: Request, now: nat)

  function Outcomes(config: Config, clients: map<string, seq<Entry>>, steps: seq<Step>): (outcomes: seq<Outcome>)
    ensures |outcomes| == |steps|
    decreases |steps|
  {
    if steps == [] then []
    else
      var (next, outcome) := Served(config, clients, steps[0].request, steps[0].now);
      [outcome] + Outcomes(config, next, steps[1..])
  }

  ghost predicate Timed(steps: seq<Step>) {
    forall i, j :: 0 <= i < j < |steps| && steps[i].request.clientId == steps[j].request.clientId ==>
      steps[i].now <= steps[j].now
  }

  /** Nothing that any of the steps may still count tells the two stores apart. */
  ghost predicate CountAlike(
    a: map<string, seq<Entry>>, b: map<string, seq<Entry>>, window: nat, steps: seq<Step>)
  {
    forall i :: 0 <= i < |steps| ==>
      var start := SatSub(steps[i].now, window);
      Since(EntriesOf(a, steps[i].request.clientId), start) == Since(EntriesOf(b, steps[i].request.clientId), start)
  }

  function Counted(config: Config, r: Request, seen: seq<Entry>): Outcome {
    var contributors := ContributorsOf(seen);
    Outcome(BehaviorAction(config, r, Score(contributors)), Score(contributors), contributors)
  }

  lemma {:induction false} EvaluatedCounts(config: Config, r: Request, entries: seq<Entry>, now: nat)
    returns (seen: seq<Entry>)
    ensures seen == Since(entries, SatSub(now, config.scoreWindow)) + Stamped(r.contributors, now)
    ensures Since(Evaluated(config, r, entries, now).0, SatSub(now, config.scoreWindow)) == seen
    ensures Evaluated(config, r, entries, now).1 == Counted(config, r, seen)
  {
    var span, start := config.scoreWindow + config.decayWindow, SatSub(now, config.scoreWindow);
    SinceOfRetained(entries, span, config.scoreWindow, now);
    StampedEntries(r.contributors, config.scoreWindow, now);
    SinceAppend(Retained(entries, span, now), Stamped(r.contributors, now), start);
    seen := Since(entries, start) + Stamped(r.contributors, now);
  }

  lemma {:induction false} AlikeLater(a: seq<Entry>, b: seq<Entry>, start: nat, later: nat)
    requires Since(a, start) == Since(b, start) && start <= later
    ensures Since(a, later) == Since(b, later)
  {
    SinceLater(a, start, later);
    SinceLater(b, start, later);
  }

  lemma {:induction false} CountAlikeLater(
    a: map<string, seq<Entry>>, b: map<string, seq<Entry>>, x: seq<Entry>, y: seq<Entry>, window: nat, steps: seq<Step>)
    requires steps != [] && Timed(steps) && CountAlike(a, b, window, steps)
    requires Since(x, SatSub(steps[0].now, window)) == Since(y, SatSub(steps[0].now, window))
    ensures CountAlike(a[steps[0].request.clientId := x], b[steps[0].request.clientId := y], window, steps[1..])
  {
    var id := steps[0].request.clientId;
    forall i | 0 <= i < |steps[1..]|
      ensures Since(EntriesOf(a[id := x], steps[1..][i].request.clientId), SatSub(steps[1..][i].now, window))
           == Since(EntriesOf(b[id := y], steps[1..][i].request.clientId), SatSub(steps[1..][i].now, window))
    {
      assert steps[1..][i] == steps[i + 1];
      if steps[i + 1].request.clientId == id {
        AlikeLater(x, y, SatSub(steps[0].now, window), SatSub(steps[i + 1].now, window));
      }
    }
  }

  lemma {:induction false} StaysAlike(
    config: Config, other: Config, a: map<string, seq<Entry>>, b: map<string, seq<Entry>>, steps: seq<Step>)
    returns (first: Outcome)
    requires steps != [] && Timed(steps) && other == config.(decayWindow := other.decayWindow)
    requires CountAlike(a, b, config.scoreWindow, steps)
    ensures first == Served(config, a, steps[0].request, steps[0].now).1
    ensures first == Served(other, b, steps[0].request, steps[0].now).1
    ensures CountAlike(Served(config, a, steps[0].request, steps[0].now).0,
                       Served(other, b, steps[0].request, steps[0].now).0, config.scoreWindow, steps[1..])
  {
    var r, now, window := steps[0].request, steps[0].now, config.scoreWindow;
    var seen := EvaluatedCounts(config, r, EntriesOf(a, r.clientId), now);
    var alike := EvaluatedCounts(other, r, EntriesOf(b, r.clientId), now);
    assert seen == alike;
    first := Evaluated(config, r, EntriesOf(a, r.clientId), now).1;
    CountAlikeLater(a, b, Evaluated(config, r, EntriesOf(a, r.clientId), now).0,
                    Evaluated(other, r, EntriesOf(b, r.clientId), now).0, window, steps);
  }

  /** The decay window decides nothing: from stores that count alike, such as empty ones, two settings
      that differ in it alone give every request the same outcome, whatever the clients send, as long
      as no client's clock readings go back. It only keeps entries longer that no score counts. */
  lemma {:induction false} DecayChangesNothing(
    config: Config, other: Config, a: map<string, seq<Entry>>, b: map<string, seq<Entry>>, steps: seq<Step>)
    requires other == config.(decayWindow := other.decayWindow) && Timed(steps)
    requires CountAlike(a, b, config.scoreWindow, steps)
    ensures Outcomes(config, a, steps) == Outcomes(other, b, steps)
    decreases |steps|
  {
    if steps == [] {
    } else {
      var first := StaysAlike(config, other, a, b, steps);
      DecayChangesNothing(config, other, Served(config, a, steps[0].request, steps[0].now).0,
                          Served(other, b, steps[0].request, steps[0].now).0, steps[1..]);
    }
  }

  /** What is left of one recorded contributor by a request that adds none. */
  lemma {:induction false} KeptOrForgotten(config: Config, r: Request, c: Contributor, late: nat)
    returns (kept: seq<Entry>)
    requires r.contributors == []
    ensures kept == Evaluated(config, r, [Entry(0, c)], late).0
    ensures kept == if late <= config.scoreWindow + config.decayWindow then [Entry(0, c)] else []
  {
    kept := Retained([Entry(0, c)], config.scoreWindow + config.decayWindow, late);
    assert [Entry(0, c)][1..] == [] && Retained([], config.scoreWindow + config.decayWindow, late) == [];
    assert [Entry(0, c)] + [] == [Entry(0, c)] && Stamped([], late) == [] && kept + [] == kept;
  }

  lemma {:induction false} ThreeOutcomes(
    config: Config, clients: map<string, seq<Entry>>, first: Step, second: Step, third: Step)
    returns (after: map<string, seq<Entry>>)
    ensures var next := Served(config, clients, first.request, first.now).0;
            after == Served(config, next, second.request, second.now).0
    ensures Outcomes(config, clients, [first, second, third])[2]
         == Served(config, after, third.request, third.now).1
  {
    var steps, next := [first, second, third], Served(config, clients, first.request, first.now).0;
    after := Served(config, next, second.request, second.now).0;
    assert steps[1..] == [second, third] && [second, third][1..] == [third];
    assert Outcomes(config, clients, steps)[1..] == Outcomes(config, next, [second, third]);
    assert Outcomes(config, next, [second, third])[1..] == Outcomes(config, after, [third]);
  }

  lemma {:induction false} Rewinds(config: Config, r: Request, c: Contributor, late: nat)
    requires r.contributors == [] && late > config.scoreWindow
    ensures var steps := [Step(r.(contributors := [c]), 0), Step(r, late), Step(r, 0)];
            Outcomes(config, map[], steps)[2].contributors
            == if late <= config.scoreWindow + config.decayWindow then [c] else []
  {
    var first := r.(contributors := [c]);
    var after := ThreeOutcomes(config, map[], Step(first, 0), Step(r, late), Step(r, 0));
    assert Retained([], config.scoreWindow + config.decayWindow, 0) == [] && [c][1..] == [];
    assert Stamped([c], 0) == [Entry(0, c)] && [] + [Entry(0, c)] == [Entry(0, c)];
    var kept := KeptOrForgotten(config, r, c, late);
    assert after[r.clientId] == kept;
    var last := EvaluatedCounts(config, r, kept, 0);
    assert last == kept && ContributorsOf(kept) == if kept == [] then [] else [c];
  }

  /** When a clock goes back it can decide: of any two decay windows the shorter one has forgotten what
      the longer one counts again. */
  lemma {:induction false} DecayShowsOnRewind(config: Config, other: Config, r: Request, c: Contributor)
    requires other == config.(decayWindow := other.decayWindow) && other.decayWindow > config.decayWindow
    requires r.contributors == []
    ensures var late := config.scoreWindow + config.decayWindow + 1;
            var steps := [Step(r.(contributors := [c]), 0), Step(r, late), Step(r, 0)];
            Outcomes(config, map[], steps)[2].contributors == [] && Outcomes(other, map[], steps)[2].contributors == [c]
  {
    Rewinds(config, r, c, config.scoreWindow + config.decayWindow + 1);
    Rewinds(other, r, c, config.scoreWindow + config.decayWindow + 1);
  }
}
