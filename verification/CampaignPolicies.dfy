/**
 The policies of src/campaign/eval.rs: which events bear on one, and what it counts over them.
 */
module CampaignPolicies {
  import opened Wrappers
  import opened EventWindow

  datatype Stage = Stage(name: string, categories: seq<string>)

  datatype Policy = Policy(
    kind: string, scope: string, score: nat, categories: seq<string>, pathPrefixes: seq<string>, stages: seq<Stage>,
    minimumEvents: nat, minimumClients: nat, minimumSessions: nat, minimumRoutes: nat, minimumStages: nat)

  // ----- policies -----

  predicate InScope(p: Policy, current: Event, e: Event) {
    if p.scope == "client" then e.clientId == current.clientId
    else if p.scope == "session" then e.sessionId == current.sessionId
    else if p.scope == "route" then e.routeShape == current.routeShape
    else true
  }

  function ScopeValue(p: Policy, e: Event): string {
    if p.scope == "client" then e.clientId
    else if p.scope == "session" then e.sessionId
    else if p.scope == "route" then e.routeShape
    else "global"
  }

  /** The events in scope are those with the scope value that names the campaign. */
  lemma {:induction false} ScopeIsSameValue(p: Policy, current: Event, e: Event)
    ensures InScope(p, current, e) <==> ScopeValue(p, e) == ScopeValue(p, current)
  {
  }

  predicate AnyCategory(wanted: seq<string>, e: Event) {
    exists i :: 0 <= i < |wanted| && wanted[i] in e.categories
  }

  function TrimSlashes(s: string): string {
    if s != "" && s[|s| - 1] == '/' then TrimSlashes(s[..|s| - 1]) else s
  }

  predicate UnderPrefix(prefix: string, shape: string) {
    shape == prefix || TrimSlashes(prefix) + "/" <= shape
  }

  predicate MatchesEvent(p: Policy, e: Event) {
    && (p.categories == [] || AnyCategory(p.categories, e))
    && (p.pathPrefixes == [] || exists i :: 0 <= i < |p.pathPrefixes| && UnderPrefix(p.pathPrefixes[i], e.routeShape))
    && (p.stages == [] || exists i :: 0 <= i < |p.stages| && AnyCategory(p.stages[i].categories, e))
  }

  function Relevant(p: Policy, current: Event, events: seq<Event>): seq<Event> {
    if events == [] then []
    else if InScope(p, current, events[0]) && MatchesEvent(p, events[0]) then
      [events[0]] + Relevant(p, current, events[1..])
    else Relevant(p, current, events[1..])
  }

  predicate StageSeen(stage: Stage, evidence: seq<Event>) {
    exists e :: e in evidence && AnyCategory(stage.categories, e)
  }

  function MatchedStages(stages: seq<Stage>, evidence: seq<Event>): seq<string> {
    if stages == [] then []
    else
      var last := |stages| - 1;
      MatchedStages(stages[..last], evidence) + if StageSeen(stages[last], evidence) then [stages[last].name] else []
  }

  function Clients(events: seq<Event>): nat { |set e | e in events :: e.clientId| }
  function Sessions(events: seq<Event>): nat { |set e | e in events :: e.sessionId| }
  function Routes(events: seq<Event>): nat { |set e | e in events :: e.routeShape| }

  predicate Suffices(p: Policy, evidence: seq<Event>) {
    && |evidence| >= p.minimumEvents && Clients(evidence) >= p.minimumClients && Sessions(evidence) >= p.minimumSessions
    && Routes(evidence) >= p.minimumRoutes && |MatchedStages(p.stages, evidence)| >= p.minimumStages
  }

  // ----- what the counts mean -----

  ghost predicate Share(a: seq<string>, b: seq<string>) { exists x :: x in a && x in b }

  lemma {:induction false} AnyIsShared(wanted: seq<string>, e: Event)
    ensures AnyCategory(wanted, e) <==> Share(wanted, e.categories)
  {
    if Share(wanted, e.categories) {
      var x :| x in wanted && x in e.categories;
      var i :| 0 <= i < |wanted| && wanted[i] == x;
    }
  }

  /** The names of the stages with the indices in `seen`, in order. */
  ghost function NamesAt(stages: seq<Stage>, seen: set<nat>): (names: seq<string>) {
    if stages == [] then []
    else
      var last := |stages| - 1;
      NamesAt(stages[..last], seen) + if last in seen then [stages[last].name] else []
  }

  lemma {:induction false} RelevantAppend(p: Policy, current: Event, a: seq<Event>, b: seq<Event>)
    ensures Relevant(p, current, a + b) == Relevant(p, current, a) + Relevant(p, current, b)
    decreases |a|
  {
    if a == [] {
      assert a + b == b && [] + Relevant(p, current, b) == Relevant(p, current, b);
    } else {
      assert (a + b)[1..] == a[1..] + b;
      RelevantAppend(p, current, a[1..], b);
    }
  }

  lemma {:induction false} OneMoreEvent(p: Policy, current: Event, start: nat, before: seq<Event>, e: Event)
    ensures Relevant(p, current, InWindow(before + [e], start)) == Relevant(p, current, InWindow(before, start))
         + if e.at >= start && InScope(p, current, e) && MatchesEvent(p, e) then [e] else []
  {
    InWindowAppend(before, [e], start);
    RelevantAppend(p, current, InWindow(before, start), InWindow([e], start));
  }

  /** The stages reported are the named ones, in order, that share a category with some evidence. */
  lemma {:induction false} StagesAreNamed(stages: seq<Stage>, evidence: seq<Event>, seen: set<nat>)
    requires forall j: nat :: j < |stages| ==>
      (j in seen <==> exists e :: e in evidence && Share(stages[j].categories, e.categories))
    ensures MatchedStages(stages, evidence) == NamesAt(stages, seen)
    decreases |stages|
  {
    if stages != [] {
      var last := |stages| - 1;
      assert forall j: nat :: j < last ==> stages[..last][j] == stages[j];
      StagesAreNamed(stages[..last], evidence, seen);
      StageIsShared(stages[last], evidence);
    }
  }

  lemma {:induction false} StageIsShared(stage: Stage, evidence: seq<Event>)
    ensures StageSeen(stage, evidence) <==> exists e :: e in evidence && Share(stage.categories, e.categories)
  {
    forall e ensures AnyCategory(stage.categories, e) <==> Share(stage.categories, e.categories) {
      AnyIsShared(stage.categories, e);
    }
  }

  lemma {:induction false} NamesAreCounted(stages: seq<Stage>, seen: set<nat>)
    requires forall j :: j in seen ==> j < |stages|
    ensures |NamesAt(stages, seen)| == |seen|
    decreases |stages|
  {
    if stages != [] {
      var last := |stages| - 1;
      NamesAreCounted(stages[..last], seen - {last});
      SameNames(stages[..last], seen, seen - {last});
    } else {
      assert seen == {};
    }
  }

  lemma {:induction false} SameNames(stages: seq<Stage>, a: set<nat>, b: set<nat>)
    requires forall j: nat :: j < |stages| ==> (j in a <==> j in b)
    ensures NamesAt(stages, a) == NamesAt(stages, b)
    decreases |stages|
  {
    if stages != [] { SameNames(stages[..|stages| - 1], a, b); }
  }

  /** An event that shares no category with the policy's counts for nothing, wherever it lies. */
  lemma {:induction false} ForeignEventCountsNothing(
    p: Policy, current: Event, start: nat, before: seq<Event>, e: Event, later: seq<Event>)
    requires p.categories != [] && !Share(p.categories, e.categories)
    ensures Relevant(p, current, InWindow(before + [e] + later, start))
         == Relevant(p, current, InWindow(before + later, start))
  {
    AnyIsShared(p.categories, e);
    var a, b := InWindow(before, start), InWindow(later, start);
    InWindowAppend(before + [e], later, start);
    InWindowAppend(before, later, start);
    RelevantAppend(p, current, InWindow(before + [e], start), b);
    RelevantAppend(p, current, a, b);
    OneMoreEvent(p, current, start, before, e);
  }
}
