/**
 The scored entries that src/bot/eval.rs and src/behavior/mod.rs keep for a client: contributors with
 the second they were recorded in, retained for a span and counted over a window.
 */
module ScoreWindow {
  import opened Wrappers

  datatype Contributor = Contributor(reason: string, scoreDelta: nat, path: string)

  datatype Entry = Entry(timestamp: nat, contributor: Contributor)

  function Score(contributors: seq<Contributor>): nat {
    if contributors == [] then 0 else contributors[0].scoreDelta + Score(contributors[1..])
  }

  function Stamped(contributors: seq<Contributor>, now: nat): seq<Entry> {
    if contributors == [] then [] else [Entry(now, contributors[0])] + Stamped(contributors[1..], now)
  }

  function Retained(entries: seq<Entry>, span: nat, now: nat): seq<Entry> {
    Filter((e: Entry) => SatSub(now, e.timestamp) <= span, entries)
  }

  /** The loop that pushes an entry for each contributor. */
  method Record(before: seq<Entry>, contributors: seq<Contributor>, now: nat) returns (entries: seq<Entry>)
    ensures entries == before + Stamped(contributors, now)
  {
    entries := before;
    var i := 0;
    while i < |contributors|
      invariant 0 <= i <= |contributors|
      invariant entries + Stamped(contributors[i..], now) == before + Stamped(contributors, now)
    {
      assert contributors[i..][1..] == contributors[i + 1..];
      entries := entries + [Entry(now, contributors[i])];
      i := i + 1;
    }
    assert contributors[i..] == [] && entries + [] == entries;
  }

  /** The entries recorded at or after a second. */
  function Since(entries: seq<Entry>, start: nat): seq<Entry> {
    if entries == [] then []
    else if entries[0].timestamp >= start then [entries[0]] + Since(entries[1..], start)
    else Since(entries[1..], start)
  }

  function ContributorsOf(entries: seq<Entry>): seq<Contributor> {
    if entries == [] then [] else [entries[0].contributor] + ContributorsOf(entries[1..])
  }

  function InWindow(entries: seq<Entry>, window: nat, now: nat): seq<Contributor> {
    ContributorsOf(Since(entries, SatSub(now, window)))
  }

  ghost predicate NoneAfter(entries: seq<Entry>, t: nat) {
    forall i :: 0 <= i < |entries| ==> entries[i].timestamp <= t
  }

  lemma {:induction false} SinceAppend(a: seq<Entry>, b: seq<Entry>, start: nat)
    ensures Since(a + b, start) == Since(a, start) + Since(b, start)
    decreases |a|
  {
    if a == [] {
      assert a + b == b;
    } else {
      assert (a + b)[1..] == a[1..] + b;
      SinceAppend(a[1..], b, start);
    }
  }

  lemma {:induction false} ContributorsAppend(a: seq<Entry>, b: seq<Entry>)
    ensures ContributorsOf(a + b) == ContributorsOf(a) + ContributorsOf(b)
    ensures |ContributorsOf(a)| == |a|
    decreases |a|
  {
    if a == [] {
      assert a + b == b;
    } else {
      assert (a + b)[1..] == a[1..] + b;
      ContributorsAppend(a[1..], b);
    }
  }

  lemma {:induction false} InWindowAppend(a: seq<Entry>, b: seq<Entry>, window: nat, now: nat)
    ensures InWindow(a + b, window, now) == InWindow(a, window, now) + InWindow(b, window, now)
  {
    SinceAppend(a, b, SatSub(now, window));
    ContributorsAppend(Since(a, SatSub(now, window)), Since(b, SatSub(now, window)));
  }

  lemma {:induction false} StampedEntries(contributors: seq<Contributor>, window: nat, now: nat)
    ensures NoneAfter(Stamped(contributors, now), now)
    ensures Since(Stamped(contributors, now), SatSub(now, window)) == Stamped(contributors, now)
    ensures InWindow(Stamped(contributors, now), window, now) == contributors
  {
    if contributors != [] { StampedEntries(contributors[1..], window, now); }
  }

  /** What is retained for at least the window holds all that the window counts, at any clock. */
  lemma {:induction false} SinceOfRetained(entries: seq<Entry>, span: nat, window: nat, now: nat)
    requires window <= span
    ensures Since(Retained(entries, span, now), SatSub(now, window)) == Since(entries, SatSub(now, window))
    ensures forall t :: NoneAfter(entries, t) ==> NoneAfter(Retained(entries, span, now), t)
  {
    if entries != [] {
      SinceOfRetained(entries[1..], span, window, now);
      assert forall t :: NoneAfter(entries, t) ==> NoneAfter(entries[1..], t);
    }
  }

  lemma {:induction false} InWindowOfRetained(entries: seq<Entry>, span: nat, window: nat, now: nat)
    requires NoneAfter(entries, now) && window <= span
    ensures InWindow(Retained(entries, span, now), window, now) == InWindow(entries, window, now)
    ensures NoneAfter(Retained(entries, span, now), now)
  {
    SinceOfRetained(entries, span, window, now);
  }

  lemma {:induction false} NothingInWindow(entries: seq<Entry>, window: nat, now: nat)
    ensures InWindow(entries, window, now) == []
       <==> forall i :: 0 <= i < |entries| ==> entries[i].timestamp < SatSub(now, window)
  {
    if entries != [] {
      NothingInWindow(entries[1..], window, now);
      assert forall i :: 0 <= i < |entries| - 1 ==> entries[1..][i] == entries[i + 1];
    }
  }

  lemma {:induction false} StillInWindow(contributors: seq<Contributor>, window: nat, now: nat, later: nat)
    requires now <= later <= now + window
    ensures InWindow(Stamped(contributors, now), window, later) == contributors
    ensures NoneAfter(Stamped(contributors, now), later)
  {
    if contributors != [] { StillInWindow(contributors[1..], window, now, later); }
  }

  /** Of what is counted at one time, a later start leaves what it would leave of everything. */
  lemma {:induction false} SinceLater(entries: seq<Entry>, start: nat, later: nat)
    requires start <= later
    ensures Since(Since(entries, start), later) == Since(entries, later)
  {
    if entries != [] { SinceLater(entries[1..], start, later); }
  }
}
