/**
 The event window of src/campaign/eval.rs: events are dropped once they are older than the retention
 and from the front once there are too many, and policies look at a shorter window of what is left.
 */
module EventWindow {
  import opened Wrappers

  datatype Event = Event(
    requestId: string, at: nat, clientId: string, sessionId: string, routeShape: string, categories: seq<string>)

  predicate Fresh(e: Event, now: nat, retention: nat) { SatSub(now, e.at) <= retention }

  function Recent(events: seq<Event>, now: nat, retention: nat): seq<Event> {
    if events == [] then []
    else if Fresh(events[0], now, retention) then [events[0]] + Recent(events[1..], now, retention)
    else Recent(events[1..], now, retention)
  }

  function LastOf(events: seq<Event>, limit: nat): seq<Event> {
    if |events| > limit then events[|events| - limit..] else events
  }

  /** What recording the event makes of the window. */
  function Recorded(events: seq<Event>, retention: nat, limit: nat, e: Event): seq<Event> {
    LastOf(Recent(events, e.at, retention) + [e], limit)
  }

  function InWindow(events: seq<Event>, start: nat): seq<Event> {
    if events == [] then []
    else if events[0].at >= start then [events[0]] + InWindow(events[1..], start)
    else InWindow(events[1..], start)
  }

  // ----- the window is a suffix of history -----

  ghost predicate Sorted(events: seq<Event>) {
    forall i, j :: 0 <= i < j < |events| ==> events[i].at <= events[j].at
  }

  /** From `start` on, the history is the longest suffix that has at most `limit` events, none of them
      older than the retention when the last was recorded. */
  ghost predicate LongestFrom(start: nat, history: seq<Event>, retention: nat, limit: nat) {
    && start <= |history| && |history| - start <= limit
    && (history != [] ==>
      var last := history[|history| - 1].at;
      && (forall i :: start <= i < |history| ==> Fresh(history[i], last, retention))
      && (start > 0 ==> |history| - start == limit || !Fresh(history[start - 1], last, retention)))
  }

  ghost predicate IsWindowOf(events: seq<Event>, history: seq<Event>, retention: nat, limit: nat) {
    && |events| <= |history| && events == history[|history| - |events|..]
    && LongestFrom(|history| - |events|, history, retention, limit)
  }

  lemma {:induction false} RecentAll(events: seq<Event>, now: nat, retention: nat)
    requires forall i :: 0 <= i < |events| ==> Fresh(events[i], now, retention)
    ensures Recent(events, now, retention) == events
  {
    if events != [] { RecentAll(events[1..], now, retention); }
  }

  /** Of a sorted history from m on, what is recent is a suffix. */
  lemma {:induction false} RecentFrom(history: seq<Event>, m: nat, now: nat, retention: nat) returns (start: nat)
    requires Sorted(history) && m <= |history|
    ensures m <= start <= |history| && Recent(history[m..], now, retention) == history[start..]
    ensures forall i :: start <= i < |history| ==> Fresh(history[i], now, retention)
    ensures start > m ==> !Fresh(history[start - 1], now, retention)
    decreases |history| - m
  {
    if m == |history| {
      start := m;
    } else if Fresh(history[m], now, retention) {
      start := m;
      RecentAll(history[m..], now, retention);
    } else {
      start := RecentFrom(history, m + 1, now, retention);
      assert history[m..][1..] == history[m + 1..];
    }
  }

  /** Cutting a suffix that is fresh, and longest but for the limit, down to the limit. */
  lemma {:induction false} Capping(start: nat, history: seq<Event>, retention: nat, limit: nat)
    requires start <= |history| && history != []
    requires var last := history[|history| - 1].at;
             && (forall i :: start <= i < |history| ==> Fresh(history[i], last, retention))
             && (start > 0 ==> |history| - start > limit || !Fresh(history[start - 1], last, retention))
    ensures IsWindowOf(LastOf(history[start..], limit), history, retention, limit)
  {
  }

  /** The window starts at m; at the new event's time, only what follows `start` is still fresh. */
  lemma {:induction false} Extending(m: nat, start: nat, history: seq<Event>, retention: nat, limit: nat, e: Event)
    requires LongestFrom(m, history, retention, limit) && m <= start <= |history|
    requires history != [] ==> history[|history| - 1].at <= e.at
    requires forall i :: start <= i < |history| ==> Fresh(history[i], e.at, retention)
    requires start > m ==> !Fresh(history[start - 1], e.at, retention)
    ensures IsWindowOf(LastOf(history[start..] + [e], limit), history + [e], retention, limit)
  {
    var longer := history + [e];
    assert forall i :: 0 <= i < |history| ==> longer[i] == history[i];
    assert longer[start..] == history[start..] + [e];
    Capping(start, longer, retention, limit);
  }

  lemma {:induction false} SortedParts(history: seq<Event>, e: Event)
    requires Sorted(history + [e])
    ensures Sorted(history) && (history != [] ==> history[|history| - 1].at <= e.at)
  {
    var longer := history + [e];
    assert forall i :: 0 <= i < |history| ==> longer[i] == history[i];
    assert longer[|history|] == e;
  }

  lemma {:induction false} RecordingKeepsWindow(
    events: seq<Event>, history: seq<Event>, retention: nat, limit: nat, e: Event)
    returns (recorded: seq<Event>, longer: seq<Event>)
    requires IsWindowOf(events, history, retention, limit) && Sorted(history + [e])
    ensures recorded == Recorded(events, retention, limit, e) && longer == history + [e]
    ensures IsWindowOf(recorded, longer, retention, limit)
  {
    SortedParts(history, e);
    var start := RecentFrom(history, |history| - |events|, e.at, retention);
    Extending(|history| - |events|, start, history, retention, limit, e);
    recorded, longer := LastOf(history[start..] + [e], limit), history + [e];
  }

  lemma {:induction false} InWindowAll(events: seq<Event>, start: nat)
    requires forall i :: 0 <= i < |events| ==> events[i].at >= start
    ensures InWindow(events, start) == events
  {
    if events != [] { InWindowAll(events[1..], start); }
  }

  lemma {:induction false} InWindowIsSuffix(events: seq<Event>, start: nat) returns (d: nat)
    requires Sorted(events)
    ensures d <= |events| && InWindow(events, start) == events[d..]
    ensures forall i :: d <= i < |events| ==> events[i].at >= start
    ensures forall i :: 0 <= i < d ==> events[i].at < start
    decreases |events|
  {
    if events == [] {
      d := 0;
    } else if events[0].at >= start {
      d := 0;
      InWindowAll(events, start);
    } else {
      var rest := InWindowIsSuffix(events[1..], start);
      d := rest + 1;
    }
  }

  /** From m on, the events of the window are those from m or from the start of the window. */
  lemma {:induction false} InWindowFrom(history: seq<Event>, m: nat, start: nat) returns (all: nat)
    requires Sorted(history) && m <= |history|
    ensures all <= |history| && InWindow(history, start) == history[all..]
    ensures InWindow(history[m..], start) == history[if m <= all then all else m..]
    ensures all < m ==> history[m - 1].at >= start
  {
    all := InWindowIsSuffix(history, start);
    if all < m { InWindowAll(history[m..], start); } else { EarlierOutOfWindow(history, m, start); }
  }

  lemma {:induction false} EarlierOutOfWindow(history: seq<Event>, m: nat, start: nat)
    requires m <= |history| && forall i :: 0 <= i < m ==> history[i].at < start
    ensures InWindow(history[m..], start) == InWindow(history, start)
  {
    assert history == history[..m] + history[m..];
    InWindowAppend(history[..m], history[m..], start);
    InWindowNone(history[..m], start);
    assert [] + InWindow(history[m..], start) == InWindow(history[m..], start);
  }

  lemma {:induction false} InWindowNone(events: seq<Event>, start: nat)
    requires forall i :: 0 <= i < |events| ==> events[i].at < start
    ensures InWindow(events, start) == []
  {
    if events != [] { InWindowNone(events[1..], start); }
  }

  lemma {:induction false} InWindowAppend(a: seq<Event>, b: seq<Event>, start: nat)
    ensures InWindow(a + b, start) == InWindow(a, start) + InWindow(b, start)
    decreases |a|
  {
    if a == [] {
      assert a + b == b && [] + InWindow(b, start) == InWindow(b, start);
    } else {
      assert (a + b)[1..] == a[1..] + b;
      InWindowAppend(a[1..], b, start);
    }
  }

  /** With a window no longer than the retention, the events kept show every event of the window
      exactly when the history holds no more of them than the limit. */
  lemma {:induction false} WindowSeesHistory(
    events: seq<Event>, history: seq<Event>, retention: nat, limit: nat, window: nat)
    requires IsWindowOf(events, history, retention, limit) && Sorted(history) && window <= retention && history != []
    ensures var start := SatSub(history[|history| - 1].at, window);
            InWindow(events, start) == InWindow(history, start) <==> |InWindow(history, start)| <= limit
  {
    var last, m := history[|history| - 1].at, |history| - |events|;
    var start := SatSub(last, window);
    var all := InWindowFrom(history, m, start);
    if all < m { assert Fresh(history[m - 1], last, retention); }
  }
}
