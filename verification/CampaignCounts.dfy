/**
 What the outcomes of campaign correlation say about the requests of a run: which requests count for
 a policy, in terms of the requests themselves, and how the matches are ordered.
 */
module CampaignCounts {
  import opened Wrappers
  import opened WafTypes
  import opened Campaign
  import opened CampaignPolicies
  import opened EventWindow
  import CampaignFilters
  import RouteShape
  import Text

  // ----- which requests count -----

  /** Is the request correlated at all? */
  ghost predicate Correlates(c: Config, r: Request) {
    c.enabled && c.mode == CampaignMode.Monitor && r.serverMode != WafMode.Off && r.categories != []
  }

  ghost predicate SameScope(p: Policy, r: Request, last: Request) {
    && (p.scope == "client" ==> r.clientId == last.clientId)
    && (p.scope == "session" ==> r.sessionId == last.sessionId)
    && (p.scope == "route" ==> RouteShape.CampaignRouteShape(r.path) == RouteShape.CampaignRouteShape(last.path))
  }

  /** What the policy asks of a request: the scope of the last one; a category of the policy, if it names
      any; a path under one of its prefixes, if it names any; and a category of one of its stages, if it
      has any. */
  ghost predicate Concerns(p: Policy, r: Request, last: Request) {
    && SameScope(p, r, last)
    && (p.categories == [] || Share(p.categories, r.categories))
    && (p.pathPrefixes == [] || exists prefix :: prefix in p.pathPrefixes && CampaignFilters.Covers(prefix, r.path))
    && (p.stages == [] || exists stage :: stage in p.stages && Share(stage.categories, r.categories))
  }

  ghost predicate InReach(c: Config, call: Call, last: Call) {
    Correlates(c, call.request) && call.now + c.window >= last.now
  }

  /** The calls before n that are in reach of the last. */
  ghost function Reached(c: Config, calls: seq<Call>, n: nat, last: Call): set<nat>
    requires n <= |calls|
  {
    set i: nat | i < n && InReach(c, calls[i], last)
  }

  /** Those of them that count for the policy. */
  ghost function Counted(c: Config, p: Policy, calls: seq<Call>, n: nat, last: Call): set<nat>
    requires n <= |calls|
  {
    set i: nat | i < n && InReach(c, calls[i], last) && Concerns(p, calls[i].request, last.request)
  }

  ghost function SeenStages(p: Policy, calls: seq<Call>, counted: set<nat>): set<nat>
    requires forall i :: i in counted ==> i < |calls|
  {
    set j: nat | j < |p.stages|
      && exists i :: i in counted && Share(p.stages[j].categories, calls[i].request.categories)
  }

  ghost function Clients(calls: seq<Call>, counted: set<nat>): set<string>
    requires forall i :: i in counted ==> i < |calls|
  {
    set i | i in counted :: calls[i].request.clientId
  }

  ghost function Sessions(calls: seq<Call>, counted: set<nat>): set<string>
    requires forall i :: i in counted ==> i < |calls|
  {
    set i | i in counted :: calls[i].request.sessionId
  }

  ghost function Routes(calls: seq<Call>, counted: set<nat>): set<string>
    requires forall i :: i in counted ==> i < |calls|
  {
    set i | i in counted :: RouteShape.CampaignRouteShape(calls[i].request.path)
  }

  ghost predicate Reaches(p: Policy, calls: seq<Call>, counted: set<nat>)
    requires forall i :: i in counted ==> i < |calls|
  {
    && |counted| >= p.minimumEvents && |Clients(calls, counted)| >= p.minimumClients
    && |Sessions(calls, counted)| >= p.minimumSessions && |Routes(calls, counted)| >= p.minimumRoutes
    && |SeenStages(p, calls, counted)| >= p.minimumStages
  }

  ghost predicate Counts(m: Match, p: Policy, calls: seq<Call>, counted: set<nat>)
    requires forall i :: i in counted ==> i < |calls|
  {
    && m.kind == p.kind && m.score == p.score && m.eventCount == |counted|
    && m.clientCount == |Clients(calls, counted)| && m.sessionCount == |Sessions(calls, counted)|
    && m.routeCount == |Routes(calls, counted)|
    && m.stages == NamesAt(p.stages, SeenStages(p, calls, counted))
  }

  // ----- the evidence is what counts -----

  lemma {:induction false} RecordsIsCorrelates(c: Config, r: Request)
    ensures Records(c, r) <==> Correlates(c, r)
  {
  }

  lemma {:induction false} EventConcerns(p: Policy, call: Call, last: Call)
    ensures InScope(p, EventOf(last), EventOf(call)) && MatchesEvent(p, EventOf(call))
       <==> Concerns(p, call.request, last.request)
  {
    var e := EventOf(call);
    AnyIsShared(p.categories, e);
    PrefixesCover(p.pathPrefixes, call.request.path);
    StagesShare(p.stages, e);
  }

  lemma {:induction false} PrefixesCover(prefixes: seq<string>, path: string)
    ensures (exists i :: 0 <= i < |prefixes| && UnderPrefix(prefixes[i], RouteShape.CampaignRouteShape(path)))
       <==> exists prefix :: prefix in prefixes && CampaignFilters.Covers(prefix, path)
  {
    forall prefix
      ensures UnderPrefix(prefix, RouteShape.CampaignRouteShape(path)) <==> CampaignFilters.Covers(prefix, path)
    {
      CampaignFilters.PrefixCovers(prefix, path);
    }
    if prefix :| prefix in prefixes && CampaignFilters.Covers(prefix, path) {
      var i :| 0 <= i < |prefixes| && prefixes[i] == prefix;
    }
  }

  lemma {:induction false} StagesShare(stages: seq<Stage>, e: Event)
    ensures (exists i :: 0 <= i < |stages| && AnyCategory(stages[i].categories, e))
       <==> exists stage :: stage in stages && Share(stage.categories, e.categories)
  {
    forall stage: Stage ensures AnyCategory(stage.categories, e) <==> Share(stage.categories, e.categories) {
      AnyIsShared(stage.categories, e);
    }
    if stage :| stage in stages && Share(stage.categories, e.categories) {
      var i :| 0 <= i < |stages| && stages[i] == stage;
    }
  }

  ghost function EventsOf(calls: seq<Call>): (events: seq<Event>)
    ensures |events| == |calls|
  {
    seq(|calls|, i requires 0 <= i < |calls| => EventOf(calls[i]))
  }

  /** The evidence holds the counted events, one for each. */
  ghost predicate Lists(evidence: seq<Event>, events: seq<Event>, counted: set<nat>) {
    && |evidence| == |counted|
    && (forall i :: i in counted ==> i < |events| && events[i] in evidence)
    && forall e :: e in evidence ==> exists i :: i in counted && i < |events| && events[i] == e
  }

  lemma {:induction false} ListsOneMore(evidence: seq<Event>, events: seq<Event>, counted: set<nat>, n: nat)
    requires Lists(evidence, events, counted) && n < |events| && n !in counted
    ensures Lists(evidence + [events[n]], events, counted + {n})
  {
    var longer, more := evidence + [events[n]], counted + {n};
    forall e | e in longer ensures exists i :: i in more && i < |events| && events[i] == e {
      if e in evidence {
        var i :| i in counted && i < |events| && events[i] == e;
        assert i in more;
      } else {
        assert n in more && events[n] == e;
      }
    }
  }

  lemma {:induction false} CountedOneMore(c: Config, p: Policy, calls: seq<Call>, n: nat, last: Call)
    requires n < |calls|
    ensures Counted(c, p, calls, n + 1, last) == Counted(c, p, calls, n, last)
         + if InReach(c, calls[n], last) && Concerns(p, calls[n].request, last.request) then {n} else {}
    ensures n !in Counted(c, p, calls, n, last)
  {
  }

  lemma {:induction false} ReachedOneMore(c: Config, calls: seq<Call>, n: nat, last: Call)
    requires n < |calls|
    ensures |Reached(c, calls, n + 1, last)|
         == |Reached(c, calls, n, last)| + if InReach(c, calls[n], last) then 1 else 0
  {
    var before, more := Reached(c, calls, n, last), if InReach(c, calls[n], last) then {n} else {};
    assert Reached(c, calls, n + 1, last) == before + more && before !! more;
  }

  ghost function EvidenceAt(c: Config, p: Policy, calls: seq<Call>, n: nat, last: Call): seq<Event>
    requires n <= |calls|
  {
    Relevant(p, EventOf(last), InWindow(History(c, calls, n), WindowStart(c, last)))
  }

  lemma {:induction false} EvidenceOneMore(c: Config, p: Policy, calls: seq<Call>, n: nat, last: Call)
    returns (counts: bool)
    requires n < |calls|
    ensures counts == (InReach(c, calls[n], last) && Concerns(p, calls[n].request, last.request))
    ensures EvidenceAt(c, p, calls, n + 1, last)
         == EvidenceAt(c, p, calls, n, last) + if counts then [EventsOf(calls)[n]] else []
  {
    counts := InReach(c, calls[n], last) && Concerns(p, calls[n].request, last.request);
    RecordsIsCorrelates(c, calls[n].request);
    EventConcerns(p, calls[n], last);
    var history := History(c, calls, n);
    if Records(c, calls[n].request) {
      OneMoreEvent(p, EventOf(last), WindowStart(c, last), history, EventOf(calls[n]));
    } else {
      assert history + [] == history;
    }
  }

  lemma {:induction false} OneMoreCall(
    c: Config, p: Policy, calls: seq<Call>, n: nat, last: Call, evidence: seq<Event>, counted: set<nat>)
    returns (longer: seq<Event>, more: set<nat>)
    requires n < |calls| && Lists(evidence, EventsOf(calls), counted)
    requires evidence == EvidenceAt(c, p, calls, n, last) && counted == Counted(c, p, calls, n, last)
    ensures longer == EvidenceAt(c, p, calls, n + 1, last) && more == Counted(c, p, calls, n + 1, last)
    ensures Lists(longer, EventsOf(calls), more)
  {
    var counts := EvidenceOneMore(c, p, calls, n, last);
    CountedOneMore(c, p, calls, n, last);
    longer, more := AddIf(counts, evidence, EventsOf(calls), counted, n);
  }

  lemma {:induction false} AddIf(counts: bool, evidence: seq<Event>, events: seq<Event>, counted: set<nat>, n: nat)
    returns (longer: seq<Event>, more: set<nat>)
    requires Lists(evidence, events, counted) && n < |events| && n !in counted
    ensures longer == evidence + if counts then [events[n]] else []
    ensures more == counted + if counts then {n} else {}
    ensures Lists(longer, events, more)
  {
    if counts {
      ListsOneMore(evidence, events, counted, n);
      longer, more := evidence + [events[n]], counted + {n};
    } else {
      longer, more := evidence, counted;
    }
  }

  lemma {:induction false} NoneCounted(c: Config, p: Policy, calls: seq<Call>, last: Call)
    ensures EvidenceAt(c, p, calls, 0, last) == [] && Counted(c, p, calls, 0, last) == {}
  {
  }

  lemma {:induction false} EvidenceIsListed(c: Config, p: Policy, calls: seq<Call>, n: nat, last: Call)
    returns (evidence: seq<Event>, counted: set<nat>)
    requires n <= |calls|
    ensures evidence == EvidenceAt(c, p, calls, n, last) && counted == Counted(c, p, calls, n, last)
    ensures Lists(evidence, EventsOf(calls), counted)
    decreases n
  {
    if n == 0 {
      NoneCounted(c, p, calls, last);
      evidence, counted := [], {};
    } else {
      evidence, counted := EvidenceIsListed(c, p, calls, n - 1, last);
      evidence, counted := OneMoreCall(c, p, calls, n - 1, last, evidence, counted);
    }
  }

  /** How many events of the history the window shows. */
  lemma {:induction false} WindowOneMore(c: Config, calls: seq<Call>, n: nat, last: Call)
    requires n < |calls|
    ensures |InWindow(History(c, calls, n + 1), WindowStart(c, last))|
         == |InWindow(History(c, calls, n), WindowStart(c, last))| + if InReach(c, calls[n], last) then 1 else 0
  {
    var history, e, start := History(c, calls, n), EventOf(calls[n]), WindowStart(c, last);
    RecordsIsCorrelates(c, calls[n].request);
    if Records(c, calls[n].request) {
      InWindowAppend(history, [e], start);
      assert [e][1..] == [] && InWindow([e], start) == if e.at >= start then [e] else [];
    } else {
      assert history + [] == history;
    }
  }

  lemma {:induction false} WindowIsCounted(c: Config, calls: seq<Call>, n: nat, last: Call) returns (shown: nat)
    requires n <= |calls|
    ensures shown == |InWindow(History(c, calls, n), WindowStart(c, last))|
    ensures shown == |Reached(c, calls, n, last)|
    decreases n
  {
    if n == 0 {
      assert Reached(c, calls, 0, last) == {};
      shown := 0;
    } else {
      shown := WindowIsCounted(c, calls, n - 1, last);
      ReachedOneMore(c, calls, n - 1, last);
      WindowOneMore(c, calls, n - 1, last);
      shown := shown + if InReach(c, calls[n - 1], last) then 1 else 0;
    }
  }

  /** What the policy counts over the evidence is what the counted calls hold. */
  lemma {:induction false} EvidenceIsCounted(c: Config, p: Policy, calls: seq<Call>, n: nat, last: Call)
    returns (evidence: seq<Event>, counted: set<nat>)
    requires n <= |calls|
    ensures evidence == EvidenceAt(c, p, calls, n, last) && counted == Counted(c, p, calls, n, last)
    ensures |evidence| == |counted|
    ensures CampaignPolicies.Clients(evidence) == |Clients(calls, counted)|
    ensures CampaignPolicies.Sessions(evidence) == |Sessions(calls, counted)|
    ensures CampaignPolicies.Routes(evidence) == |Routes(calls, counted)|
    ensures MatchedStages(p.stages, evidence) == NamesAt(p.stages, SeenStages(p, calls, counted))
    ensures |MatchedStages(p.stages, evidence)| == |SeenStages(p, calls, counted)|
  {
    evidence, counted := EvidenceIsListed(c, p, calls, n, last);
    var events := EventsAt(calls);
    ListedClients(evidence, events, calls, counted);
    ListedSessions(evidence, events, calls, counted);
    ListedRoutes(evidence, events, calls, counted);
    ListedStages(p, evidence, events, calls, counted);
    NamesAreCounted(p.stages, SeenStages(p, calls, counted));
  }

  ghost predicate AreOf(events: seq<Event>, calls: seq<Call>) {
    && |events| == |calls|
    && forall i :: 0 <= i < |calls| ==>
         && events[i].clientId == calls[i].request.clientId && events[i].sessionId == calls[i].request.sessionId
         && events[i].routeShape == RouteShape.CampaignRouteShape(calls[i].request.path)
         && events[i].categories == calls[i].request.categories
  }

  lemma {:induction false} EventsAt(calls: seq<Call>) returns (events: seq<Event>)
    ensures events == EventsOf(calls) && AreOf(events, calls)
  {
    events := EventsOf(calls);
  }

  lemma {:induction false} ListedClients(
    evidence: seq<Event>, events: seq<Event>, calls: seq<Call>, counted: set<nat>)
    requires Lists(evidence, events, counted) && AreOf(events, calls)
    ensures (set e | e in evidence :: e.clientId) == Clients(calls, counted)
  {
  }

  lemma {:induction false} ListedSessions(
    evidence: seq<Event>, events: seq<Event>, calls: seq<Call>, counted: set<nat>)
    requires Lists(evidence, events, counted) && AreOf(events, calls)
    ensures (set e | e in evidence :: e.sessionId) == Sessions(calls, counted)
  {
  }

  lemma {:induction false} ListedRoutes(
    evidence: seq<Event>, events: seq<Event>, calls: seq<Call>, counted: set<nat>)
    requires Lists(evidence, events, counted) && AreOf(events, calls)
    ensures (set e | e in evidence :: e.routeShape) == Routes(calls, counted)
  {
  }

  lemma {:induction false} ListedStages(
    p: Policy, evidence: seq<Event>, events: seq<Event>, calls: seq<Call>, counted: set<nat>)
    requires Lists(evidence, events, counted) && AreOf(events, calls)
    ensures MatchedStages(p.stages, evidence) == NamesAt(p.stages, SeenStages(p, calls, counted))
  {
    var seen := SeenStages(p, calls, counted);
    forall j: nat | j < |p.stages|
      ensures j in seen <==> exists e :: e in evidence && Share(p.stages[j].categories, e.categories)
    {
      ListedStage(p.stages[j], evidence, events, calls, counted);
    }
    StagesAreNamed(p.stages, evidence, seen);
  }

  lemma {:induction false} ListedStage(
    stage: Stage, evidence: seq<Event>, events: seq<Event>, calls: seq<Call>, counted: set<nat>)
    requires Lists(evidence, events, counted) && AreOf(events, calls)
    ensures (exists i :: i in counted && Share(stage.categories, calls[i].request.categories))
       <==> exists e :: e in evidence && Share(stage.categories, e.categories)
  {
    if i :| i in counted && Share(stage.categories, calls[i].request.categories) {
      assert events[i] in evidence;
    }
    if e :| e in evidence && Share(stage.categories, e.categories) {
      var i :| i in counted && i < |events| && events[i] == e;
    }
  }

  // ----- what an outcome reports -----

  /** The policies whose minimums the counted calls reach, in order. */
  ghost function Reaching(c: Config, policies: seq<Policy>, calls: seq<Call>, n: nat, last: Call): seq<Policy>
    requires n <= |calls|
  {
    if policies == [] then []
    else (if Reaches(policies[0], calls, Counted(c, policies[0], calls, n, last)) then [policies[0]] else [])
         + Reaching(c, policies[1..], calls, n, last)
  }

  lemma {:induction false} FoundIsReaching(c: Config, policies: seq<Policy>, calls: seq<Call>, n: nat, last: Call)
    requires n <= |calls|
    ensures Found(policies, InWindow(History(c, calls, n), WindowStart(c, last)), EventOf(last))
         == Reaching(c, policies, calls, n, last)
    decreases |policies|
  {
    if policies != [] {
      var evidence, counted := EvidenceIsCounted(c, policies[0], calls, n, last);
      FoundIsReaching(c, policies[1..], calls, n, last);
    }
  }

  /** As long as no more requests are in reach than the capacity, the outcome of a correlated call reports,
      up to order, one match for each policy whose minimums are reached by the requests of the whole run
      that count for it, and its counts are counts of those requests. It asks for monitoring exactly if
      there is such a policy. */
  lemma {:induction false} OutcomeCountsHistory(c: Config, run: Run, k: nat)
    returns (matches: seq<Match>, found: seq<Policy>)
    requires IsRun(c, run) && Timed(run) && run.states[0] == EMPTY_STATE && k < |run.calls|
    requires c.window <= c.retention && Correlates(c, run.calls[k].request)
    requires |Reached(c, run.calls, k + 1, run.calls[k])| <= c.maxEvents
    ensures multiset(run.outcomes[k].matches) == multiset(matches) && |matches| == |found|
    ensures found == Reaching(c, c.policies, run.calls, k + 1, run.calls[k])
    ensures forall i :: 0 <= i < |found| ==>
      Counts(matches[i], found[i], run.calls, Counted(c, found[i], run.calls, k + 1, run.calls[k]))
    ensures run.outcomes[k].enabled
    ensures run.outcomes[k].action == if found == [] then WafAction.Allow else WafAction.Monitor
  {
    var last, calls := run.calls[k], run.calls;
    RecordsIsCorrelates(c, last.request);
    var shown := WindowIsCounted(c, calls, k + 1, last);
    var seen, all := CountsFullHistory(c, run, k);
    matches := MatchesReportIdentity(c, run, k);
    found := Found(c.policies, seen, EventOf(last));
    FoundIsReaching(c, c.policies, calls, k + 1, last);
    forall i | 0 <= i < |found|
      ensures Counts(matches[i], found[i], calls, Counted(c, found[i], calls, k + 1, last))
    {
      assert Reports(matches[i], found[i], seen, EventOf(last), run.states[k + 1].active);
      var evidence, counted := EvidenceIsCounted(c, found[i], calls, k + 1, last);
    }
    ActionFollows(c, run, k, matches);
  }

  lemma {:induction false} ActionFollows(c: Config, run: Run, k: nat, matches: seq<Match>)
    requires IsRun(c, run) && k < |run.calls| && Records(c, run.calls[k].request)
    requires multiset(run.outcomes[k].matches) == multiset(matches)
    ensures run.outcomes[k].enabled
    ensures run.outcomes[k].action == if matches == [] then WafAction.Allow else WafAction.Monitor
  {
    Recording(c, run, k);
    assert |multiset(run.outcomes[k].matches)| == |run.outcomes[k].matches| && |multiset(matches)| == |matches|;
    var found := Correlated(run.states[k].active, c.policies, run.calls[k].ids,
                            SeenBy(c, run, k), EventOf(run.calls[k])).1;
    RankingKeeps(found);
    assert |multiset(found)| == |found| && |multiset(Ranked(found))| == |Ranked(found)|;
  }

  /** A call that is not correlated changes nothing and reports nothing. */
  lemma {:induction false} OthersChangeNothing(c: Config, run: Run, k: nat)
    requires IsRun(c, run) && k < |run.calls| && !Correlates(c, run.calls[k].request)
    ensures run.states[k + 1] == run.states[k]
    ensures run.outcomes[k] == Outcome(c.enabled, WafAction.Allow, [])
  {
    RecordsIsCorrelates(c, run.calls[k].request);
    assert Follows(c, run, k);
  }

  /** A request that shares no category with the policy's never counts for it. */
  lemma {:induction false} ForeignRequestsDoNotCount(c: Config, p: Policy, calls: seq<Call>, n: nat, last: Call, i: nat)
    requires i < n <= |calls| && p.categories != [] && !Share(p.categories, calls[i].request.categories)
    ensures i !in Counted(c, p, calls, n, last)
  {
  }

  // ----- how the matches are ordered -----

  /** Byte by byte: a prefix, or smaller where the two first differ. */
  ghost predicate Precedes(a: string, b: string) {
    a <= b || exists i: nat :: i < |a| && i < |b| && a[..i] == b[..i] && a[i] < b[i]
  }

  lemma {:induction false} StringOrder(a: string, b: string)
    ensures StringLeq(a, b) <==> Precedes(a, b)
    decreases |a|
  {
    if a != "" && b != "" {
      if a[0] == b[0] {
        StringOrder(a[1..], b[1..]);
        FirstStep(a, b);
      } else {
        FirstDiffers(a, b);
      }
    }
  }

  lemma {:induction false} FirstDiffers(a: string, b: string)
    requires a != "" && b != "" && a[0] != b[0]
    ensures Precedes(a, b) <==> a[0] < b[0]
  {
    assert a[..0] == b[..0];
    forall i: nat | 0 < i <= |a| && i <= |b| ensures a[..i] != b[..i] {
      assert a[..i][0] == a[0] && b[..i][0] == b[0];
    }
  }

  lemma {:induction false} FirstStep(a: string, b: string)
    requires a != "" && b != "" && a[0] == b[0]
    ensures Precedes(a, b) <==> Precedes(a[1..], b[1..])
  {
    assert a == [a[0]] + a[1..] && b == [b[0]] + b[1..];
    if i: nat :| i < |a| && i < |b| && a[..i] == b[..i] && a[i] < b[i] {
      assert i > 0 && a[1..][..i - 1] == a[..i][1..] && b[1..][..i - 1] == b[..i][1..];
      assert a[1..][i - 1] == a[i] && b[1..][i - 1] == b[i];
    }
    if j: nat :| j < |a[1..]| && j < |b[1..]| && a[1..][..j] == b[1..][..j] && a[1..][j] < b[1..][j] {
      assert a[..j + 1] == [a[0]] + a[1..][..j] && b[..j + 1] == [b[0]] + b[1..][..j];
      assert a[j + 1] == a[1..][j] && b[j + 1] == b[1..][j];
    }
  }

  lemma {:induction false} StringsAreOrdered(a: string, b: string, c: string)
    ensures StringLeq(a, b) || StringLeq(b, a)
    ensures StringLeq(a, b) && StringLeq(b, c) ==> StringLeq(a, c)
    ensures StringLeq(a, b) && StringLeq(b, a) ==> a == b
    decreases |a|
  {
    if a != "" && b != "" {
      StringsAreOrdered(a[1..], b[1..], if c == "" then "" else c[1..]);
      assert a == [a[0]] + a[1..] && b == [b[0]] + b[1..];
    }
  }

  /** Higher scores first, then kinds in their order. */
  ghost predicate RanksFirst(a: Match, b: Match) {
    a.score > b.score || (a.score == b.score && Precedes(a.kind, b.kind))
  }

  ghost predicate InOrder(matches: seq<Match>) {
    forall i, j :: 0 <= i < j < |matches| ==> RanksFirst(matches[i], matches[j])
  }

  function Tied(score: nat, kind: string, matches: seq<Match>): seq<Match> {
    if matches == [] then []
    else if matches[0].score == score && matches[0].kind == kind then [matches[0]] + Tied(score, kind, matches[1..])
    else Tied(score, kind, matches[1..])
  }

  lemma {:induction false} NoLaterIsRank(a: Match, b: Match)
    ensures NoLater(a, b) <==> RanksFirst(a, b)
  {
    StringOrder(a.kind, b.kind);
  }

  lemma {:induction false} RanksAreOrdered(a: Match, b: Match, c: Match)
    ensures RanksFirst(a, b) || RanksFirst(b, a)
    ensures RanksFirst(a, b) && RanksFirst(b, c) ==> RanksFirst(a, c)
  {
    StringsAreOrdered(a.kind, b.kind, c.kind);
    StringOrder(a.kind, b.kind);
    StringOrder(b.kind, a.kind);
    StringOrder(b.kind, c.kind);
    StringOrder(a.kind, c.kind);
  }

  lemma {:induction false} InsertRanks(m: Match, ranked: seq<Match>) returns (longer: seq<Match>)
    requires InOrder(ranked)
    ensures longer == Insert(m, ranked) && InOrder(longer)
    decreases |ranked|
  {
    longer := Insert(m, ranked);
    if ranked == [] {
    } else {
      NoLaterIsRank(m, ranked[0]);
      if NoLater(m, ranked[0]) {
        forall j | 0 <= j < |ranked| ensures RanksFirst(m, ranked[j]) { RanksAreOrdered(m, ranked[0], ranked[j]); }
      } else {
        var rest := InsertRanks(m, ranked[1..]);
        RanksAreOrdered(m, ranked[0], m);
        InsertKeeps(m, ranked[1..]);
        forall x | x in rest ensures RanksFirst(ranked[0], x) {
          assert x in multiset(rest);
          if x != m { var j :| 0 <= j < |ranked[1..]| && ranked[1..][j] == x; }
        }
        assert longer == [ranked[0]] + rest;
      }
    }
  }

  lemma {:induction false} InsertTies(m: Match, ranked: seq<Match>, score: nat, kind: string)
    ensures Tied(score, kind, Insert(m, ranked)) == Tied(score, kind, [m] + ranked)
    decreases |ranked|
  {
    assert ([m] + ranked)[1..] == ranked;
    if ranked != [] && !NoLater(m, ranked[0]) {
      StringsAreOrdered(m.kind, m.kind, m.kind);
      InsertTies(m, ranked[1..], score, kind);
      assert ([m] + ranked[1..])[1..] == ranked[1..];
      assert Insert(m, ranked)[1..] == Insert(m, ranked[1..]);
    }
  }

  lemma {:induction false} TiesOneMore(
    m: Match, before: seq<Match>, ranked: seq<Match>, all: seq<Match>, score: nat, kind: string)
    requires Tied(score, kind, ranked) == Tied(score, kind, before) && all == [m] + before
    ensures Tied(score, kind, Insert(m, ranked)) == Tied(score, kind, all)
  {
    InsertTies(m, ranked, score, kind);
    assert ([m] + ranked)[1..] == ranked && all[1..] == before;
  }

  /** Sorting puts the matches in order and leaves those of one score and kind as they were. */
  lemma {:induction false} RankingIsStable(matches: seq<Match>) returns (ranked: seq<Match>)
    ensures ranked == Ranked(matches) && InOrder(ranked) && multiset(ranked) == multiset(matches)
    ensures forall score, kind :: Tied(score, kind, ranked) == Tied(score, kind, matches)
    decreases |matches|
  {
    RankingKeeps(matches);
    if matches == [] {
      ranked := [];
    } else {
      var rest := RankingIsStable(matches[1..]);
      ranked := InsertRanks(matches[0], rest);
      forall score, kind ensures Tied(score, kind, ranked) == Tied(score, kind, matches) {
        TiesOneMore(matches[0], matches[1..], rest, matches, score, kind);
      }
    }
  }

  /** Every outcome of every run has its matches in order. */
  lemma {:induction false} OutcomesAreRanked(c: Config, run: Run, k: nat)
    requires IsRun(c, run) && k < |run.calls|
    ensures InOrder(run.outcomes[k].matches)
  {
    Recording(c, run, k);
    if Records(c, run.calls[k].request) {
      var ranked := RankingIsStable(Correlated(run.states[k].active, c.policies, run.calls[k].ids,
                                               SeenBy(c, run, k), EventOf(run.calls[k])).1);
    }
  }

  // ----- the keys of campaigns -----

  /** Policies and requests share a campaign exactly if they agree in kind and scope value, as long as no
      kind holds a colon. */
  lemma {:induction false} KeyIsKindAndScope(p: Policy, q: Policy, a: Event, b: Event)
    requires ':' !in p.kind && ':' !in q.kind
    ensures KeyOf(p, a) == KeyOf(q, b) <==> p.kind == q.kind && ScopeValue(p, a) == ScopeValue(q, b)
  {
    assert KeyOf(p, a) == p.kind + [':'] + ScopeValue(p, a) && KeyOf(q, b) == q.kind + [':'] + ScopeValue(q, b);
    Text.FindAfter(p.kind, ':', ScopeValue(p, a));
    Text.FindAfter(q.kind, ':', ScopeValue(q, b));
    if KeyOf(p, a) == KeyOf(q, b) {
      assert KeyOf(p, a)[..|p.kind|] == p.kind && KeyOf(q, b)[..|q.kind|] == q.kind;
      assert KeyOf(p, a)[|p.kind| + 1..] == ScopeValue(p, a) && KeyOf(q, b)[|q.kind| + 1..] == ScopeValue(q, b);
    }
  }

  /** For one kind no condition is needed. */
  lemma {:induction false} KeyOfOneKind(p: Policy, q: Policy, a: Event, b: Event)
    requires p.kind == q.kind
    ensures KeyOf(p, a) == KeyOf(q, b) <==> ScopeValue(p, a) == ScopeValue(q, b)
  {
    assert KeyOf(p, a)[|p.kind| + 1..] == ScopeValue(p, a) && KeyOf(q, b)[|q.kind| + 1..] == ScopeValue(q, b);
  }

  /** With a colon in a kind, which validation accepts, two policies can share a campaign that are of
      different kinds and count for different clients. */
  lemma {:induction false} ColonsCollide(p: Policy, q: Policy, a: Event, b: Event)
    requires p.kind == "scan" && q.kind == "scan:1" && p.scope == q.scope == "client"
    requires a.clientId == "1:2::" && b.clientId == "2::"
    ensures KeyOf(p, a) == KeyOf(q, b)
  {
    assert "scan" + ":" + "1:2::" == "scan:1:2::" == "scan:1" + ":" + "2::";
  }
}
