/**
 Campaign correlation of src/campaign/eval.rs: a pruned and capped window of security events, the
 policies that count over it, and the campaigns that stay active. Times are Unix seconds and the ids
 of new campaigns are inputs, one for each policy.
 */
module Campaign {
  import opened Wrappers
  import opened WafTypes
  import opened ActiveCampaigns
  import opened CampaignPolicies
  import opened EventWindow
  import RouteShape

  datatype CampaignMode = Off | Monitor

  datatype State = State(events: seq<Event>, active: map<string, Active>)

  const EMPTY_STATE := State([], map[])

  /** `window` and `retention` are the seconds the evaluator parses; see `WindowOutlivesRetention`. */
  datatype Config = Config(
    enabled: bool, mode: CampaignMode, window: nat, retention: nat, maxEvents: nat, policies: seq<Policy>)

  datatype Request = Request(
    requestId: string, clientId: string, sessionId: string, path: string, categories: seq<string>, serverMode: WafMode)

  /** What a policy found: the counts, and the identity of the campaign. */
  datatype Match = Match(
    campaignId: string, kind: string, score: nat, eventCount: nat, clientCount: nat, sessionCount: nat, routeCount: nat,
    stages: seq<string>, firstSeenAt: nat, lastSeenAt: nat)

  datatype Outcome = Outcome(enabled: bool, action: WafAction, matches: seq<Match>)

  /** One evaluation: the request, the clock reading and the ids new campaigns would get. */
  datatype Call = Call(request: Request, now: nat, ids: seq<string>)

  // ----- the event window -----

  predicate Records(c: Config, r: Request) {
    c.enabled && c.mode != CampaignMode.Off && r.serverMode != WafMode.Off && r.categories != []
  }

  function EventOf(call: Call): Event {
    var r := call.request;
    Event(r.requestId, call.now, r.clientId, r.sessionId, RouteShape.CampaignRouteShape(r.path), r.categories)
  }

  // ----- correlation -----

  function KeyOf(p: Policy, current: Event): string { p.kind + (":" + ScopeValue(p, current)) }

  function MatchOf(p: Policy, evidence: seq<Event>, campaign: Active): Match {
    Match(campaign.campaignId, p.kind, p.score, |evidence|, Clients(evidence), Sessions(evidence), Routes(evidence),
          MatchedStages(p.stages, evidence), campaign.firstSeenAt, campaign.lastSeenAt)
  }

  /** The policies in order, on the events of the window; each that suffices dates its campaign. */
  function Correlated(
    active: map<string, Active>, policies: seq<Policy>, ids: seq<string>, window: seq<Event>, current: Event)
    : (map<string, Active>, seq<Match>)
    requires |ids| == |policies|
    decreases |policies|
  {
    if policies == [] then (active, [])
    else
      var p, evidence := policies[0], Relevant(policies[0], current, window);
      if !Suffices(p, evidence) then Correlated(active, policies[1..], ids[1..], window, current)
      else
        var campaign := Seen(active, KeyOf(p, current), ids[0], current.at);
        var (after, matches) :=
          Correlated(active[KeyOf(p, current) := campaign], policies[1..], ids[1..], window, current);
        (after, [MatchOf(p, evidence, campaign)] + matches)
  }

  // ----- ranking -----

  predicate StringLeq(a: string, b: string) {
    a == "" || (b != "" && (a[0] < b[0] || (a[0] == b[0] && StringLeq(a[1..], b[1..]))))
  }

  predicate NoLater(a: Match, b: Match) {
    a.score > b.score || (a.score == b.score && StringLeq(a.kind, b.kind))
  }

  function Insert(m: Match, ranked: seq<Match>): seq<Match> {
    if ranked == [] || NoLater(m, ranked[0]) then [m] + ranked else [ranked[0]] + Insert(m, ranked[1..])
  }

  /** The stable sort by falling score, then kind. */
  function Ranked(matches: seq<Match>): seq<Match> {
    if matches == [] then [] else Insert(matches[0], Ranked(matches[1..]))
  }

  // ----- evaluation -----

  ghost predicate Callable(c: Config, call: Call) { |call.ids| == |c.policies| }

  function OutcomeOf(matches: seq<Match>): Outcome {
    Outcome(true, if matches == [] then WafAction.Allow else WafAction.Monitor, Ranked(matches))
  }

  /** What the recorded call makes of the campaigns when the policies see these events. */
  function Judged(
    window: seq<Event>, active: map<string, Active>, c: Config, call: Call): (map<string, Active>, Outcome)
    requires |call.ids| == |c.policies|
  {
    var (after, matches) := Correlated(active, c.policies, call.ids, window, EventOf(call));
    (Alive(after, call.now, c.retention), OutcomeOf(matches))
  }

  function WindowStart(c: Config, call: Call): nat { SatSub(call.now, c.window) }

  function Evaluated(st: State, c: Config, call: Call): (State, Outcome)
    requires |call.ids| == |c.policies|
  {
    if !Records(c, call.request) then (st, Outcome(c.enabled, WafAction.Allow, []))
    else
      var events := Recorded(st.events, c.retention, c.maxEvents, EventOf(call));
      var (active, outcome) := Judged(InWindow(events, WindowStart(c, call)), st.active, c, call);
      (State(events, active), outcome)
  }

  // ----- the store, updated in place -----

  class MemoryCampaignStore {
    var events: seq<Event>
    var active: map<string, Active>

    constructor ()
      ensures State(events, active) == EMPTY_STATE
    {
      events, active := [], map[];
    }

    /** The source panics when `maxEvents` is 0; validation refuses that. */
    method Evaluate(c: Config, call: Call) returns (outcome: Outcome)
      requires Callable(c, call) && c.maxEvents > 0
      modifies this
      ensures (State(events, active), outcome) == Evaluated(State(old(events), old(active)), c, call)
    {
      var r, now := call.request, call.now;
      if !c.enabled || c.mode == CampaignMode.Off || r.serverMode == WafMode.Off || r.categories == [] {
        return Outcome(c.enabled, WafAction.Allow, []);
      }
      var kept := Recent(events, now, c.retention);
      kept := kept + [EventOf(call)];
      if |kept| > c.maxEvents { kept := kept[|kept| - c.maxEvents..]; }
      assert kept == Recorded(events, c.retention, c.maxEvents, EventOf(call));
      events := kept;
      var current := kept[|kept| - 1];
      assert current == EventOf(call);
      var window := InWindow(kept, SatSub(now, c.window));
      var matches := Correlate(c.policies, call.ids, window, current);
      active := map k | k in active && SatSub(now, active[k].lastSeenAt) <= c.retention :: active[k];
      outcome := OutcomeOf(matches);
    }

    method Correlate(policies: seq<Policy>, ids: seq<string>, window: seq<Event>, current: Event)
      returns (matches: seq<Match>)
      requires |ids| == |policies|
      modifies this`active
      ensures (active, matches) == Correlated(old(active), policies, ids, window, current)
    {
      matches := [];
      ghost var all := Correlated(active, policies, ids, window, current);
      var i := 0;
      assert policies[0..] == policies && ids[0..] == ids && [] + all.1 == all.1;
      while i < |policies|
        invariant 0 <= i <= |policies|
        invariant Correlated(active, policies[i..], ids[i..], window, current).0 == all.0
        invariant matches + Correlated(active, policies[i..], ids[i..], window, current).1 == all.1
      {
        assert policies[i..][1..] == policies[i + 1..] && ids[i..][1..] == ids[i + 1..];
        var p := policies[i];
        var evidence := Relevant(p, current, window);
        if Suffices(p, evidence) {
          ghost var before := active;
          var key := KeyOf(p, current);
          if key !in active { active := active[key := Active(ids[i], current.at, current.at)]; }
          active := active[key := active[key].(lastSeenAt := current.at)];
          assert active == before[key := Seen(before, key, ids[i], current.at)];
          ghost var rest := Correlated(active, policies[i + 1..], ids[i + 1..], window, current).1;
          var m := MatchOf(p, evidence, active[key]);
          assert matches + ([m] + rest) == matches + [m] + rest;
          matches := matches + [m];
        }
        i := i + 1;
      }
      assert policies[i..] == [] && matches + [] == matches;
    }
  }

  // ----- runs -----

  /** Calls evaluated one after the other, the states before and after each, and the outcomes. */
  datatype Run = Run(calls: seq<Call>, states: seq<State>, outcomes: seq<Outcome>)

  ghost predicate Shaped(c: Config, run: Run) {
    && |run.states| == |run.calls| + 1 && |run.outcomes| == |run.calls|
    && forall i :: 0 <= i < |run.calls| ==> Callable(c, run.calls[i])
  }

  ghost predicate Follows(c: Config, run: Run, i: nat)
    requires Shaped(c, run) && i < |run.calls|
  {
    (run.states[i + 1], run.outcomes[i]) == Evaluated(run.states[i], c, run.calls[i])
  }

  ghost predicate IsRun(c: Config, run: Run) {
    Shaped(c, run) && forall i :: 0 <= i < |run.calls| ==> Follows(c, run, i)
  }

  ghost predicate Timed(run: Run) {
    forall i, j :: 0 <= i < j < |run.calls| ==> run.calls[i].now <= run.calls[j].now
  }

  /** What a recorded call, and one that is not recorded, do to the state. */
  lemma {:induction false} Recording(c: Config, run: Run, k: nat)
    requires IsRun(c, run) && k < |run.calls|
    ensures !Records(c, run.calls[k].request) ==> run.states[k + 1] == run.states[k] && run.outcomes[k].matches == []
    ensures Records(c, run.calls[k].request) ==>
      var events := run.states[k + 1].events;
      && events == Recorded(run.states[k].events, c.retention, c.maxEvents, EventOf(run.calls[k]))
      && (run.states[k + 1].active, run.outcomes[k])
         == Judged(InWindow(events, WindowStart(c, run.calls[k])), run.states[k].active, c, run.calls[k])
  {
    assert Follows(c, run, k);
  }

  // ----- the window is what full history would give -----

  /** Every event ever recorded by the first k calls. */
  ghost function History(c: Config, calls: seq<Call>, k: nat): seq<Event>
    requires k <= |calls|
    decreases k
  {
    if k == 0 then []
    else History(c, calls, k - 1) + if Records(c, calls[k - 1].request) then [EventOf(calls[k - 1])] else []
  }

  lemma {:induction false} HistoryIsSorted(c: Config, run: Run, k: nat)
    requires Timed(run) && k <= |run.calls|
    ensures Sorted(History(c, run.calls, k))
    ensures forall e :: e in History(c, run.calls, k) ==> k > 0 && e.at <= run.calls[k - 1].now
    decreases k
  {
    if k > 0 {
      HistoryIsSorted(c, run, k - 1);
      var before := History(c, run.calls, k - 1);
      assert forall i :: 0 <= i < |before| ==> before[i] in before;
    }
  }

  lemma {:induction false} CallKeepsWindow(c: Config, run: Run, k: nat, events: seq<Event>, history: seq<Event>)
    returns (next: seq<Event>, longer: seq<Event>)
    requires IsRun(c, run) && Timed(run) && k < |run.calls|
    requires events == run.states[k].events && history == History(c, run.calls, k)
    requires IsWindowOf(events, history, c.retention, c.maxEvents)
    ensures next == run.states[k + 1].events && longer == History(c, run.calls, k + 1)
    ensures IsWindowOf(next, longer, c.retention, c.maxEvents)
  {
    Recording(c, run, k);
    if Records(c, run.calls[k].request) {
      HistoryIsSorted(c, run, k + 1);
      next, longer := RecordingKeepsWindow(events, history, c.retention, c.maxEvents, EventOf(run.calls[k]));
    } else {
      next, longer := events, history;
      assert history + [] == history;
    }
  }

  /** Throughout every run from the empty state with a steady clock, the stored events are exactly
      the longest suffix of the recorded history that retention and capacity allow. */
  lemma {:induction false} EventsAreHistorySuffix(c: Config, run: Run, k: nat)
    returns (events: seq<Event>, history: seq<Event>)
    requires IsRun(c, run) && Timed(run) && run.states[0] == EMPTY_STATE && k <= |run.calls|
    ensures events == run.states[k].events && history == History(c, run.calls, k)
    ensures IsWindowOf(events, history, c.retention, c.maxEvents)
    decreases k
  {
    if k == 0 {
      events, history := [], [];
    } else {
      events, history := EventsAreHistorySuffix(c, run, k - 1);
      events, history := CallKeepsWindow(c, run, k - 1, events, history);
    }
  }

  lemma {:induction false} HistoryEnds(c: Config, run: Run, k: nat) returns (history: seq<Event>)
    requires Timed(run) && k < |run.calls| && Records(c, run.calls[k].request)
    ensures history == History(c, run.calls, k + 1) && history != [] && Sorted(history)
    ensures history[|history| - 1].at == run.calls[k].now
  {
    HistoryIsSorted(c, run, k + 1);
    history := History(c, run.calls, k + 1);
  }

  lemma {:induction false} WindowSeesRun(c: Config, run: Run, k: nat) returns (seen: seq<Event>, all: seq<Event>)
    requires IsRun(c, run) && Timed(run) && run.states[0] == EMPTY_STATE && k < |run.calls|
    requires c.window <= c.retention && Records(c, run.calls[k].request)
    ensures seen == InWindow(run.states[k + 1].events, WindowStart(c, run.calls[k]))
    ensures all == InWindow(History(c, run.calls, k + 1), WindowStart(c, run.calls[k]))
    ensures seen == all <==> |all| <= c.maxEvents
  {
    var events, _ := EventsAreHistorySuffix(c, run, k + 1);
    var history := HistoryEnds(c, run, k);
    WindowSeesHistory(events, history, c.retention, c.maxEvents, c.window);
    seen, all := InWindow(events, WindowStart(c, run.calls[k])), InWindow(history, WindowStart(c, run.calls[k]));
  }

  /** A recorded call has the outcome, and leaves the campaigns, that counting over everything ever
      recorded would give, as long as the window never holds more events than the capacity. */
  lemma {:induction false} CountsFullHistory(c: Config, run: Run, k: nat) returns (seen: seq<Event>, all: seq<Event>)
    requires IsRun(c, run) && Timed(run) && run.states[0] == EMPTY_STATE && k < |run.calls|
    requires c.window <= c.retention && Records(c, run.calls[k].request)
    ensures seen == InWindow(run.states[k + 1].events, WindowStart(c, run.calls[k]))
    ensures all == InWindow(History(c, run.calls, k + 1), WindowStart(c, run.calls[k]))
    ensures seen == all <==> |all| <= c.maxEvents
    ensures |all| <= c.maxEvents ==>
      (run.states[k + 1].active, run.outcomes[k]) == Judged(all, run.states[k].active, c, run.calls[k])
  {
    Recording(c, run, k);
    seen, all := WindowSeesRun(c, run, k);
  }

  // ----- the identity of a campaign -----

  function Found(policies: seq<Policy>, window: seq<Event>, current: Event): seq<Policy> {
    if policies == [] then []
    else (if Suffices(policies[0], Relevant(policies[0], current, window)) then [policies[0]] else [])
         + Found(policies[1..], window, current)
  }

  function KeysOf(policies: seq<Policy>, current: Event): set<string> {
    set i | 0 <= i < |policies| :: KeyOf(policies[i], current)
  }

  /** Is the match what the policy finds in the window, under the identity stored for its key? */
  ghost predicate Reports(m: Match, p: Policy, window: seq<Event>, current: Event, active: map<string, Active>) {
    && KeyOf(p, current) in active && active[KeyOf(p, current)].lastSeenAt == current.at
    && m == MatchOf(p, Relevant(p, current, window), active[KeyOf(p, current)])
  }

  ghost predicate AllReport(
    matches: seq<Match>, found: seq<Policy>, window: seq<Event>, current: Event, active: map<string, Active>)
  {
    |matches| == |found| && forall i :: 0 <= i < |found| ==> Reports(matches[i], found[i], window, current, active)
  }

  lemma {:induction false} ReportsOneMore(
    m: Match, p: Policy, matches: seq<Match>, found: seq<Policy>, window: seq<Event>, current: Event,
    active: map<string, Active>)
    requires Reports(m, p, window, current, active) && AllReport(matches, found, window, current, active)
    ensures AllReport([m] + matches, [p] + found, window, current, active)
  {
  }

  lemma {:induction false} OneMoreKey(p: Policy, found: seq<Policy>, current: Event)
    ensures KeysOf([p] + found, current) == {KeyOf(p, current)} + KeysOf(found, current)
  {
    var all := [p] + found;
    assert all[0] == p && forall i :: 0 <= i < |found| ==> all[i + 1] == found[i];
  }

  /** One pass over the policies dates the campaigns of those that suffice and reports their identity. */
  lemma {:induction false} CorrelationKeepsIdentity(
    active: map<string, Active>, policies: seq<Policy>, ids: seq<string>, window: seq<Event>, current: Event)
    returns (after: map<string, Active>, matches: seq<Match>, found: seq<Policy>)
    requires |ids| == |policies|
    ensures (after, matches) == Correlated(active, policies, ids, window, current)
    ensures found == Found(policies, window, current)
    ensures Dates(active, after, KeysOf(found, current), current.at)
    ensures AllReport(matches, found, window, current, after)
    decreases |policies|
  {
    if policies == [] {
      after, matches, found := active, [], [];
    } else {
      var p, evidence := policies[0], Relevant(policies[0], current, window);
      if Suffices(p, evidence) {
        var key := KeyOf(p, current);
        var campaign := Seen(active, key, ids[0], current.at);
        var rest, others;
        after, rest, others :=
          CorrelationKeepsIdentity(active[key := campaign], policies[1..], ids[1..], window, current);
        DatesOneMore(active, after, key, ids[0], KeysOf(others, current), current.at);
        ReportsOneMore(MatchOf(p, evidence, campaign), p, rest, others, window, current, after);
        OneMoreKey(p, others, current);
        matches, found := [MatchOf(p, evidence, campaign)] + rest, [p] + others;
      } else {
        after, matches, found := CorrelationKeepsIdentity(active, policies[1..], ids[1..], window, current);
        assert [] + found == found;
      }
    }
  }

  // ----- what one call does to the campaigns -----

  /** The campaign keys the call matches. */
  ghost function Touched(c: Config, run: Run, k: nat): set<string>
    requires Shaped(c, run) && k < |run.calls|
  {
    if !Records(c, run.calls[k].request) then {}
    else
      var current := EventOf(run.calls[k]);
      KeysOf(Found(c.policies, SeenBy(c, run, k), current), current)
  }

  lemma {:induction false} CallRenews(c: Config, run: Run, k: nat)
    requires IsRun(c, run) && k < |run.calls|
    ensures if Records(c, run.calls[k].request)
            then
              Renews(run.states[k].active, run.states[k + 1].active, Touched(c, run, k), run.calls[k].now, c.retention)
            else run.states[k + 1].active == run.states[k].active && Touched(c, run, k) == {}
  {
    Recording(c, run, k);
    if Records(c, run.calls[k].request) {
      var after, matches, found :=
        CorrelationKeepsIdentity(
          run.states[k].active, c.policies, run.calls[k].ids, SeenBy(c, run, k), EventOf(run.calls[k]));
      DatedThenPruned(run.states[k].active, after, Touched(c, run, k), run.calls[k].now, c.retention);
    }
  }

  lemma {:induction false} InsertKeeps(m: Match, ranked: seq<Match>)
    ensures multiset(Insert(m, ranked)) == multiset{m} + multiset(ranked)
  {
    if ranked != [] {
      assert ranked == [ranked[0]] + ranked[1..];
      InsertKeeps(m, ranked[1..]);
    }
  }

  lemma {:induction false} RankingKeeps(matches: seq<Match>)
    ensures multiset(Ranked(matches)) == multiset(matches)
  {
    if matches != [] {
      assert matches == [matches[0]] + matches[1..];
      RankingKeeps(matches[1..]);
      InsertKeeps(matches[0], Ranked(matches[1..]));
    }
  }

  /** The events the policies see in recorded call k. */
  ghost function SeenBy(c: Config, run: Run, k: nat): seq<Event>
    requires Shaped(c, run) && k < |run.calls|
  {
    InWindow(run.states[k + 1].events, WindowStart(c, run.calls[k]))
  }

  /** The matches of an outcome are, one for each policy that suffices, what the policy finds, under
      the stored identity of its campaign. */
  lemma {:induction false} MatchesReportIdentity(c: Config, run: Run, k: nat) returns (matches: seq<Match>)
    requires IsRun(c, run) && k < |run.calls| && Records(c, run.calls[k].request)
    ensures multiset(run.outcomes[k].matches) == multiset(matches)
    ensures var current, window := EventOf(run.calls[k]), SeenBy(c, run, k);
            var found := Found(c.policies, window, current);
            && AllReport(matches, found, window, current, run.states[k + 1].active)
            && Touched(c, run, k) == KeysOf(found, current)
  {
    Recording(c, run, k);
    CallRenews(c, run, k);
    var after, found;
    after, matches, found :=
      CorrelationKeepsIdentity(
        run.states[k].active, c.policies, run.calls[k].ids, SeenBy(c, run, k), EventOf(run.calls[k]));
    RankingKeeps(matches);
    forall i | 0 <= i < |found|
      ensures Reports(matches[i], found[i], SeenBy(c, run, k), EventOf(run.calls[k]), run.states[k + 1].active)
    {
      assert Reports(matches[i], found[i], SeenBy(c, run, k), EventOf(run.calls[k]), after);
    }
  }

  /** A run, as its campaigns see it. */
  ghost function TrailOf(c: Config, run: Run): Trail
    requires Shaped(c, run)
  {
    Trail(seq(|run.calls|, i requires 0 <= i < |run.calls| =>
            Visit(run.calls[i].now, Records(c, run.calls[i].request), Touched(c, run, i))),
          seq(|run.states|, i requires 0 <= i < |run.states| => run.states[i].active))
  }

  /** Every run from the empty state with a steady clock moves its campaigns as `ActiveCampaigns`
      describes. */
  lemma {:induction false} RunIsTrail(c: Config, run: Run)
    requires IsRun(c, run) && Timed(run) && run.states[0] == EMPTY_STATE
    ensures IsTrail(TrailOf(c, run), c.retention)
  {
    var t := TrailOf(c, run);
    forall i | 0 <= i < |t.visits| ensures Moves(t, c.retention, i) { CallRenews(c, run, i); }
  }

  /** The outcome of call k holds this match, of a policy whose campaign has the key. */
  ghost predicate ReportedUnder(c: Config, run: Run, k: nat, key: string, m: Match)
    requires Shaped(c, run) && k < |run.calls|
  {
    m in run.outcomes[k].matches && exists p :: KeyOf(p, EventOf(run.calls[k])) == key && IsReportOf(c, run, k, m, p)
  }

  ghost predicate IsReportOf(c: Config, run: Run, k: nat, m: Match, p: Policy)
    requires Shaped(c, run) && k < |run.calls|
  {
    Reports(m, p, SeenBy(c, run, k), EventOf(run.calls[k]), run.states[k + 1].active)
  }

  lemma {:induction false} TouchedIsReported(c: Config, run: Run, k: nat, key: string) returns (m: Match)
    requires IsRun(c, run) && k < |run.calls| && key in Touched(c, run, k)
    ensures ReportedUnder(c, run, k, key, m)
  {
    var matches := MatchesReportIdentity(c, run, k);
    var current, window := EventOf(run.calls[k]), SeenBy(c, run, k);
    var found := Found(c.policies, window, current);
    var i :| 0 <= i < |found| && KeyOf(found[i], current) == key;
    m := matches[i];
    assert m in multiset(run.outcomes[k].matches) && IsReportOf(c, run, k, m, found[i]);
  }

  ghost predicate NotBefore(active: map<string, Active>) {
    forall key :: key in active ==> active[key].firstSeenAt <= active[key].lastSeenAt
  }

  lemma {:induction false} StoredNotBefore(c: Config, run: Run, k: nat)
    requires IsRun(c, run) && Timed(run) && run.states[0] == EMPTY_STATE && k <= |run.calls|
    ensures NotBefore(run.states[k].active)
  {
    RunIsTrail(c, run);
    var t := TrailOf(c, run);
    FirstNotAfterLast(t, c.retention, k);
    assert t.active[k] == run.states[k].active;
  }

  lemma {:induction false} ReportsAreDated(
    matches: seq<Match>, found: seq<Policy>, window: seq<Event>, current: Event, active: map<string, Active>)
    requires AllReport(matches, found, window, current, active) && NotBefore(active)
    ensures forall m :: m in multiset(matches) ==> m.firstSeenAt <= m.lastSeenAt == current.at
  {
    forall m | m in multiset(matches) ensures m.firstSeenAt <= m.lastSeenAt == current.at {
      var i :| 0 <= i < |matches| && matches[i] == m;
      assert Reports(matches[i], found[i], window, current, active);
    }
  }

  /** Every match of every outcome was last seen by its own call, and not before it was first seen. */
  lemma {:induction false} MatchesAreDated(c: Config, run: Run, k: nat)
    requires IsRun(c, run) && Timed(run) && run.states[0] == EMPTY_STATE && k < |run.calls|
    ensures forall m :: m in run.outcomes[k].matches ==> m.firstSeenAt <= m.lastSeenAt == run.calls[k].now
  {
    if Records(c, run.calls[k].request) {
      StoredNotBefore(c, run, k + 1);
      var matches := MatchesReportIdentity(c, run, k);
      var current, window := EventOf(run.calls[k]), SeenBy(c, run, k);
      ReportsAreDated(matches, Found(c.policies, window, current), window, current, run.states[k + 1].active);
      assert forall m :: m in run.outcomes[k].matches ==> m in multiset(run.outcomes[k].matches);
    } else {
      Recording(c, run, k);
    }
  }

  /** Two successive calls that match one campaign key each report it, and report the same campaign
      exactly when every recorded call between them came within the retention of the first; in
      particular when they are themselves at most the retention apart. */
  lemma {:induction false} SuccessiveMatchesReportOneCampaign(c: Config, run: Run, key: string, i: nat, j: nat)
    returns (t: Trail, first: Match, second: Match)
    requires IsRun(c, run) && Timed(run) && run.states[0] == EMPTY_STATE && i < j < |run.calls|
    requires key in Touched(c, run, i) && key in Touched(c, run, j)
    requires forall m :: i < m < j ==> key !in Touched(c, run, m)
    ensures t == TrailOf(c, run) && ReportedUnder(c, run, i, key, first) && ReportedUnder(c, run, j, key, second)
    ensures forall m :: ReportedUnder(c, run, i, key, m) ==>
      m.firstSeenAt == first.firstSeenAt && m.campaignId == first.campaignId
    ensures forall m :: ReportedUnder(c, run, j, key, m) ==>
      m.firstSeenAt == second.firstSeenAt && m.campaignId == second.campaignId
    ensures second.firstSeenAt == first.firstSeenAt <==> forall m :: i < m < j ==> InTime(t, c.retention, i, m)
    ensures second.firstSeenAt == first.firstSeenAt ==> second.campaignId == first.campaignId
    ensures run.calls[j].now <= run.calls[i].now + c.retention ==> second.firstSeenAt == first.firstSeenAt
  {
    t := StoredCampaignsAgree(c, run, key, i, j);
    first := TouchedIsReported(c, run, i, key);
    second := TouchedIsReported(c, run, j, key);
    forall m | ReportedUnder(c, run, i, key, m)
      ensures m.firstSeenAt == first.firstSeenAt && m.campaignId == first.campaignId
    {
      ReportIsStored(c, run, i, key, m);
      ReportIsStored(c, run, i, key, first);
    }
    forall m | ReportedUnder(c, run, j, key, m)
      ensures m.firstSeenAt == second.firstSeenAt && m.campaignId == second.campaignId
    {
      ReportIsStored(c, run, j, key, m);
      ReportIsStored(c, run, j, key, second);
    }
    ReportIsStored(c, run, i, key, first);
    ReportIsStored(c, run, j, key, second);
  }

  lemma {:induction false} ReportIsStored(c: Config, run: Run, k: nat, key: string, m: Match)
    requires Shaped(c, run) && k < |run.calls| && ReportedUnder(c, run, k, key, m)
    ensures key in run.states[k + 1].active
    ensures m.firstSeenAt == run.states[k + 1].active[key].firstSeenAt
    ensures m.campaignId == run.states[k + 1].active[key].campaignId
  {
    var p :| KeyOf(p, EventOf(run.calls[k])) == key && IsReportOf(c, run, k, m, p);
  }

  lemma {:induction false} SuccessiveOnTrail(c: Config, run: Run, key: string, i: nat, j: nat) returns (t: Trail)
    requires IsRun(c, run) && Timed(run) && run.states[0] == EMPTY_STATE && i < j < |run.calls|
    requires key in Touched(c, run, i) && key in Touched(c, run, j)
    requires forall m :: i < m < j ==> key !in Touched(c, run, m)
    ensures t == TrailOf(c, run) && IsTrail(t, c.retention) && Successive(t, key, i, j)
    ensures t.active[i + 1] == run.states[i + 1].active && t.active[j + 1] == run.states[j + 1].active
    ensures t.visits[i].now == run.calls[i].now && t.visits[j].now == run.calls[j].now
  {
    RunIsTrail(c, run);
    t := TrailOf(c, run);
  }

  lemma {:induction false} StoredCampaignsAgree(c: Config, run: Run, key: string, i: nat, j: nat) returns (t: Trail)
    requires IsRun(c, run) && Timed(run) && run.states[0] == EMPTY_STATE && i < j < |run.calls|
    requires key in Touched(c, run, i) && key in Touched(c, run, j)
    requires forall m :: i < m < j ==> key !in Touched(c, run, m)
    ensures t == TrailOf(c, run) && key in run.states[i + 1].active && key in run.states[j + 1].active
    ensures var first, second := run.states[i + 1].active[key], run.states[j + 1].active[key];
            && (second.firstSeenAt == first.firstSeenAt <==> forall m :: i < m < j ==> InTime(t, c.retention, i, m))
            && (second.firstSeenAt == first.firstSeenAt ==> second.campaignId == first.campaignId)
            && (run.calls[j].now <= run.calls[i].now + c.retention ==> second.firstSeenAt == first.firstSeenAt)
  {
    t := SuccessiveOnTrail(c, run, key, i, j);
    SuccessiveMatchesAgree(t, c.retention, key, i, j);
  }

  // ----- configured durations -----

  /** A duration text split into its number and its unit, in lower case. */
  datatype Duration = Duration(number: nat, suffix: string)

  function UnitSeconds(suffix: string): Option<nat> {
    if suffix == "s" then Some(1)
    else if suffix == "m" then Some(60)
    else if suffix == "h" then Some(3600)
    else if suffix == "d" then Some(86400)
    else None
  }

  /** The longer spellings that only configuration validation accepts. */
  function LongUnitSeconds(suffix: string): Option<nat> {
    if suffix in {"sec", "secs", "second", "seconds"} then Some(1)
    else if suffix in {"min", "mins", "minute", "minutes"} then Some(60)
    else if suffix in {"hr", "hrs", "hour", "hours"} then Some(3600)
    else if suffix in {"day", "days"} then Some(86400)
    else None
  }

  function Scaled(number: nat, factor: Option<nat>): Option<nat> {
    if factor.Some? && 0 < number * factor.value <= U64_MAX then Some(number * factor.value) else None
  }

  /** The evaluator's `parse_duration_seconds`. */
  function ParsedByEvaluator(d: Duration): Option<nat> { Scaled(d.number, UnitSeconds(d.suffix)) }

  /** Configuration validation's `parse_duration_seconds`. */
  function ParsedByValidation(d: Duration): Option<nat> {
    Scaled(d.number, if UnitSeconds(d.suffix).Some? then UnitSeconds(d.suffix) else LongUnitSeconds(d.suffix))
  }

  function Or(parsed: Option<nat>, fallback: nat): nat { if parsed.Some? then parsed.value else fallback }

  /** Validation requires window <= retention on its own reading. On the evaluator's reading that can
      fail, and does exactly when one of the two uses a long unit and the other is out of step with
      the default that then applies: 900 seconds for the window, 86400 for the retention. */
  lemma {:induction false} WindowOutlivesRetention(window: Duration, retention: Duration)
    requires ParsedByValidation(window).Some? && ParsedByValidation(retention).Some?
    requires ParsedByValidation(window).value <= ParsedByValidation(retention).value
    ensures Or(ParsedByEvaluator(window), 900) > Or(ParsedByEvaluator(retention), 86400) <==>
      || (LongUnitSeconds(retention.suffix).Some? && UnitSeconds(window.suffix).Some?
          && ParsedByValidation(window).value > 86400)
      || (LongUnitSeconds(window.suffix).Some? && UnitSeconds(retention.suffix).Some?
          && ParsedByValidation(retention).value < 900)
  {
  }

  /** Durations are what they say: seconds count themselves, a minute is 60 seconds, an hour 60 minutes and a
      day 24 hours; no other unit is read. */
  lemma {:induction false} DurationsAreTime(n: nat, suffix: string)
    ensures ParsedByEvaluator(Duration(n, "s")) == if 0 < n <= U64_MAX then Some(n) else None
    ensures ParsedByEvaluator(Duration(n, "m")) == ParsedByEvaluator(Duration(60 * n, "s"))
    ensures ParsedByEvaluator(Duration(n, "h")) == ParsedByEvaluator(Duration(60 * n, "m"))
    ensures ParsedByEvaluator(Duration(n, "d")) == ParsedByEvaluator(Duration(24 * n, "h"))
    ensures suffix !in {"s", "m", "h", "d"} ==> ParsedByEvaluator(Duration(n, suffix)) == None
  {
  }

  /** Validation reads the short units as the evaluator does, and each long spelling as its short unit. */
  lemma {:induction false} SpellingsAgree(n: nat, suffix: string)
    ensures suffix in {"s", "m", "h", "d"} ==>
      ParsedByValidation(Duration(n, suffix)) == ParsedByEvaluator(Duration(n, suffix))
    ensures suffix in {"sec", "secs", "second", "seconds"} ==>
      ParsedByValidation(Duration(n, suffix)) == ParsedByEvaluator(Duration(n, "s"))
    ensures suffix in {"min", "mins", "minute", "minutes"} ==>
      ParsedByValidation(Duration(n, suffix)) == ParsedByEvaluator(Duration(n, "m"))
    ensures suffix in {"hr", "hrs", "hour", "hours"} ==>
      ParsedByValidation(Duration(n, suffix)) == ParsedByEvaluator(Duration(n, "h"))
    ensures suffix in {"day", "days"} ==>
      ParsedByValidation(Duration(n, suffix)) == ParsedByEvaluator(Duration(n, "d"))
  {
  }
}
