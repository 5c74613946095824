/**
 What bot protection and behavior scoring answer, from any state and at any clock reading: which recorded
 contributors count, what they sum up to, and which threshold decides.
 */
module ScoreVerdicts {
  import opened ScoreWindow
  import opened Wrappers
  import opened WafTypes
  import Behavior
  import Bot

  // ----- what counts -----

  ghost function Sum(contributors: seq<Contributor>): nat {
    if contributors == [] then 0
    else Sum(contributors[..|contributors| - 1]) + contributors[|contributors| - 1].scoreDelta
  }

  /** The entries at most so many seconds old. */
  ghost function Young(entries: seq<Entry>, seconds: nat, now: nat): seq<Entry> {
    Filter((e: Entry) => e.timestamp + seconds >= now, entries)
  }

  ghost predicate Are(contributors: seq<Contributor>, entries: seq<Entry>) {
    |contributors| == |entries| && forall i :: 0 <= i < |entries| ==> contributors[i] == entries[i].contributor
  }

  ghost predicate AreStamped(entries: seq<Entry>, contributors: seq<Contributor>, now: nat) {
    && |entries| == |contributors|
    && forall i :: 0 <= i < |entries| ==> entries[i] == Entry(now, contributors[i])
  }

  lemma {:induction false} SumFirst(contributors: seq<Contributor>)
    requires contributors != []
    ensures Sum(contributors) == contributors[0].scoreDelta + Sum(contributors[1..])
    decreases |contributors|
  {
    if |contributors| == 1 {
      assert contributors[..0] == [] && contributors[1..] == [];
    } else {
      var before, rest := contributors[..|contributors| - 1], contributors[1..];
      SumFirst(before);
      assert before[1..] == rest[..|rest| - 1];
    }
  }

  lemma {:induction false} ScoreIsSum(contributors: seq<Contributor>)
    ensures Score(contributors) == Sum(contributors)
    decreases |contributors|
  {
    if contributors != [] {
      ScoreIsSum(contributors[1..]);
      SumFirst(contributors);
    }
  }

  lemma {:induction false} SinceIsYoung(entries: seq<Entry>, window: nat, now: nat)
    ensures Since(entries, SatSub(now, window)) == Young(entries, window, now)
    decreases |entries|
  {
    if entries != [] { SinceIsYoung(entries[1..], window, now); }
  }

  lemma {:induction false} RetainedIsYoung(entries: seq<Entry>, span: nat, now: nat)
    ensures Retained(entries, span, now) == Young(entries, span, now)
  {
    FilterAgree(
      (e: Entry) => SatSub(now, e.timestamp) <= span, (e: Entry) => e.timestamp + span >= now, entries);
  }

  lemma {:induction false} ContributorsAre(entries: seq<Entry>)
    ensures Are(ContributorsOf(entries), entries)
    decreases |entries|
  {
    if entries != [] { ContributorsAre(entries[1..]); }
  }

  lemma {:induction false} StampedAre(contributors: seq<Contributor>, now: nat)
    ensures AreStamped(Stamped(contributors, now), contributors, now)
    decreases |contributors|
  {
    if contributors != [] { StampedAre(contributors[1..], now); }
  }

  /** Of what is kept for at least the window, with new contributors behind it, the window counts the
      recorded ones it reaches and all of the new ones. */
  lemma {:induction false} KeptCounts(entries: seq<Entry>, own: seq<Contributor>, span: nat, window: nat, now: nat)
    returns (kept: seq<Entry>, counted: seq<Entry>, stamped: seq<Entry>)
    requires window <= span
    ensures AreStamped(stamped, own, now)
    ensures kept == Retained(entries, span, now) + Stamped(own, now) == Young(entries, span, now) + stamped
    ensures counted == Young(entries, window, now) + stamped
    ensures Are(InWindow(kept, window, now), counted)
  {
    stamped := Stamped(own, now);
    StampedAre(own, now);
    RetainedIsYoung(entries, span, now);
    kept, counted := Young(entries, span, now) + stamped, Young(entries, window, now) + stamped;
    SinceOfRetained(entries, span, window, now);
    StampedEntries(own, window, now);
    SinceAppend(Retained(entries, span, now), stamped, SatSub(now, window));
    SinceIsYoung(entries, window, now);
    ContributorsAre(counted);
  }

  // ----- bot protection -----

  ghost function OwnToBot(r: Bot.Request): seq<Contributor> {
    if r.blocklisted then r.contributors + [Contributor("blocklist_match", r.blockThreshold, r.path)]
    else r.contributors
  }

  ghost predicate BotActive(c: Bot.Config, r: Bot.Request) {
    c.enabled && (c.mode == BehaviorMode.Monitor || c.mode == BehaviorMode.Block) && r.serverMode != WafMode.Off
  }

  ghost predicate BotBlocks(c: Bot.Config, r: Bot.Request, score: nat) {
    BotActive(c, r) && (r.blocklisted || (c.mode == BehaviorMode.Block && score >= r.blockThreshold))
  }

  /** The answer to a request that is scored. */
  ghost predicate IsScored(
    c: Bot.Config, r: Bot.Request, st: Bot.ClientState, now: nat, next: Bot.ClientState, o: Bot.Outcome)
  {
    exists stamped: seq<Entry> :: IsScoredWith(c, r, st, now, next, o, stamped)
  }

  ghost predicate IsScoredWith(
    c: Bot.Config, r: Bot.Request, st: Bot.ClientState, now: nat, next: Bot.ClientState, o: Bot.Outcome,
    stamped: seq<Entry>)
  {
    && AreStamped(stamped, OwnToBot(r), now)
    && next.entries == Young(st.entries, c.scoreWindow, now) + stamped && Are(o.contributors, next.entries)
    && o.score == Sum(o.contributors) && !o.allowlisted && o.blocklisted == r.blocklisted
    && (o.action == WafAction.Block <==> BotBlocks(c, r, o.score))
    && (o.action == WafAction.Monitor <==>
         !BotBlocks(c, r, o.score) && BotActive(c, r) && o.score >= r.monitorThreshold)
    && next.temporaryBlockedUntil == o.temporaryBlockedUntil
       == (if BotBlocks(c, r, o.score) then Some(now + c.blockDuration) else None)
  }

  /** Every answer of bot protection: allowlisted clients pass, a running block answers by itself, and all
      else is scored. */
  lemma {:induction false} BotIsExact(c: Bot.Config, r: Bot.Request, st: Bot.ClientState, now: nat)
    returns (next: Bot.ClientState, o: Bot.Outcome)
    ensures (next, o) == Bot.Evaluated(c, r, st, now)
    ensures var running := st.temporaryBlockedUntil.Some? && now < st.temporaryBlockedUntil.value;
            if r.allowlisted then next == st && o == Bot.Outcome(WafAction.Allow, 0, None, true, false, [])
            else if running then
              && next == st
              && o == Bot.Outcome(WafAction.Block, r.blockThreshold, st.temporaryBlockedUntil, false, false,
                                  [Contributor("temporary_block_active", r.blockThreshold, r.path)])
            else IsScored(c, r, st, now, next, o)
  {
    next, o := Bot.Evaluated(c, r, st, now).0, Bot.Evaluated(c, r, st, now).1;
    if !r.allowlisted && !Bot.BlockActive(st, now) {
      var own := OwnToBot(r);
      assert r.contributors + [] == r.contributors && own == Bot.NewContributors(r);
      var kept, counted, stamped := KeptCounts(st.entries, own, c.scoreWindow, c.scoreWindow, now);
      ScoreIsSum(o.contributors);
      assert IsScoredWith(c, r, st, now, next, o, stamped);
    }
  }

  // ----- behavior scoring -----

  ghost predicate BehaviorActive(c: Behavior.Config, r: Behavior.Request) {
    c.enabled && (c.mode == BehaviorMode.Monitor || c.mode == BehaviorMode.Block) && r.serverMode != WafMode.Off
  }

  ghost predicate BehaviorBlocks(c: Behavior.Config, r: Behavior.Request, score: nat) {
    BehaviorActive(c, r) && c.mode == BehaviorMode.Block && score >= r.blockThreshold
  }

  /** Every answer of behavior scoring: what the score window reaches counts, the decay window longer is
      kept, and the thresholds decide. */
  lemma {:induction false} BehaviorIsExact(c: Behavior.Config, r: Behavior.Request, entries: seq<Entry>, now: nat)
    returns (next: seq<Entry>, o: Behavior.Outcome, stamped: seq<Entry>)
    ensures (next, o) == Behavior.Evaluated(c, r, entries, now) && AreStamped(stamped, r.contributors, now)
    ensures next == Young(entries, c.scoreWindow + c.decayWindow, now) + stamped
    ensures Are(o.contributors, Young(entries, c.scoreWindow, now) + stamped) && o.score == Sum(o.contributors)
    ensures o.action == WafAction.Block <==> BehaviorBlocks(c, r, o.score)
    ensures o.action == WafAction.Monitor
       <==> !BehaviorBlocks(c, r, o.score) && BehaviorActive(c, r) && o.score >= r.monitorThreshold
  {
    var counted;
    next, counted, stamped := KeptCounts(entries, r.contributors, c.scoreWindow + c.decayWindow, c.scoreWindow, now);
    o := Behavior.Evaluated(c, r, entries, now).1;
    ScoreIsSum(o.contributors);
  }
}
