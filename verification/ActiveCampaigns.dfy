/**
 The active campaigns of src/campaign/eval.rs: how evaluations renew and drop them, and how long one
 keeps its identity.
 */
module ActiveCampaigns {
  import opened Wrappers

  datatype Active = Active(campaignId: string, firstSeenAt: nat, lastSeenAt: nat)

  /** `entry(key).or_insert_with(..)`, then `last_seen_at = now`. */
  function Seen(active: map<string, Active>, key: string, id: string, now: nat): Active {
    if key in active then active[key].(lastSeenAt := now) else Active(id, now, now)
  }

  function Alive(active: map<string, Active>, now: nat, retention: nat): map<string, Active> {
    map k | k in active && SatSub(now, active[k].lastSeenAt) <= retention :: active[k]
  }

  // ----- one evaluation -----

  /** Campaigns already active keep their identity; those under `keys` are dated, or new. */
  ghost predicate Dates(active: map<string, Active>, after: map<string, Active>, keys: set<string>, now: nat) {
    && after.Keys == active.Keys + keys
    && (forall k :: k in active ==> after[k] == if k in keys then active[k].(lastSeenAt := now) else active[k])
    && forall k :: k in after && k !in active ==> after[k].firstSeenAt == after[k].lastSeenAt == now
  }

  lemma {:induction false} DatesOneMore(
    active: map<string, Active>, after: map<string, Active>, key: string, id: string, keys: set<string>, now: nat)
    requires Dates(active[key := Seen(active, key, id, now)], after, keys, now)
    ensures Dates(active, after, {key} + keys, now)
    ensures key in after && after[key] == Seen(active, key, id, now)
  {
  }

  /** After a recorded call exactly the matched campaigns and the unexpired ones are active; those that
      were active before keep their identity. */
  ghost predicate Renews(
    before: map<string, Active>, after: map<string, Active>, keys: set<string>, now: nat, retention: nat)
  {
    && (forall k :: k in after <==> k in keys || (k in before && SatSub(now, before[k].lastSeenAt) <= retention))
    && (forall k :: k in after && k in before ==>
         after[k] == if k in keys then before[k].(lastSeenAt := now) else before[k])
    && forall k :: k in after && k !in before ==> after[k].firstSeenAt == after[k].lastSeenAt == now
  }

  lemma {:induction false} DatedThenPruned(
    before: map<string, Active>, after: map<string, Active>, keys: set<string>, now: nat, retention: nat)
    requires Dates(before, after, keys, now)
    ensures Renews(before, Alive(after, now, retention), keys, now, retention)
  {
  }

  // ----- a run, as the campaigns see it -----

  /** What call i reads on the clock, whether it is recorded, and which campaigns it matches. */
  datatype Visit = Visit(now: nat, recorded: bool, touched: set<string>)

  /** The campaigns before and after each call. */
  datatype Trail = Trail(visits: seq<Visit>, active: seq<map<string, Active>>)

  ghost predicate Moves(t: Trail, retention: nat, i: nat)
    requires i < |t.visits| && |t.active| == |t.visits| + 1
  {
    var v := t.visits[i];
    if v.recorded then Renews(t.active[i], t.active[i + 1], v.touched, v.now, retention)
    else t.active[i + 1] == t.active[i] && v.touched == {}
  }

  ghost predicate IsTrail(t: Trail, retention: nat) {
    && |t.active| == |t.visits| + 1 && t.active[0] == map[]
    && (forall i :: 0 <= i < |t.visits| ==> Moves(t, retention, i))
    && forall i, j :: 0 <= i < j < |t.visits| ==> t.visits[i].now <= t.visits[j].now
  }

  /** When the campaign was last seen before call k, counted from a state in which it is active. */
  ghost function LastSeen(t: Trail, key: string, start: nat, k: nat): nat
    requires start <= k <= |t.visits| < |t.active| && key in t.active[start]
    decreases k
  {
    if k == start then t.active[start][key].lastSeenAt
    else if key in t.visits[k - 1].touched then t.visits[k - 1].now
    else LastSeen(t, key, start, k - 1)
  }

  /** Call k is recorded, does not match the campaign, and comes more than the retention after it was
      last seen. */
  ghost predicate Lapses(t: Trail, retention: nat, key: string, start: nat, k: nat)
    requires start <= k < |t.visits| < |t.active| && key in t.active[start]
  {
    t.visits[k].recorded && key !in t.visits[k].touched
      && SatSub(t.visits[k].now, LastSeen(t, key, start, k)) > retention
  }

  ghost predicate ActiveThroughout(t: Trail, key: string, start: nat, end: nat)
    requires start <= end < |t.active|
  {
    forall i :: start <= i <= end ==> key in t.active[i]
  }

  /** A campaign stays active exactly until a call lapses it, and all that time it keeps its id and
      first sighting, whatever other calls intervene. */
  lemma {:induction false} CampaignIsStable(t: Trail, retention: nat, key: string, start: nat, end: nat)
    requires IsTrail(t, retention) && start <= end <= |t.visits| && key in t.active[start]
    ensures ActiveThroughout(t, key, start, end) <==>
      forall i :: start <= i < end ==> !Lapses(t, retention, key, start, i)
    ensures ActiveThroughout(t, key, start, end) ==>
      t.active[end][key] == t.active[start][key].(lastSeenAt := LastSeen(t, key, start, end))
    decreases end
  {
    if end > start {
      var k: nat := end - 1;
      CampaignIsStable(t, retention, key, start, k);
      assert Moves(t, retention, k);
      if ActiveThroughout(t, key, start, k) {
        assert key in t.active[end] <==> !Lapses(t, retention, key, start, k);
      } else {
        assert !ActiveThroughout(t, key, start, end);
      }
    }
  }

  lemma {:induction false} AbsentStays(t: Trail, retention: nat, key: string, start: nat, end: nat)
    requires IsTrail(t, retention) && start <= end <= |t.visits| && key !in t.active[start]
    requires forall i :: start <= i < end ==> key !in t.visits[i].touched
    ensures key !in t.active[end]
    decreases end
  {
    if end > start {
      AbsentStays(t, retention, key, start, end - 1);
      assert Moves(t, retention, end - 1);
    }
  }

  /** With a steady clock no campaign was first seen after it was last seen. */
  lemma {:induction false} FirstNotAfterLast(t: Trail, retention: nat, k: nat)
    requires IsTrail(t, retention) && k <= |t.visits|
    ensures forall key :: key in t.active[k] ==>
      k > 0 && t.active[k][key].firstSeenAt <= t.active[k][key].lastSeenAt <= t.visits[k - 1].now
    decreases k
  {
    if k > 0 {
      FirstNotAfterLast(t, retention, k - 1);
      assert Moves(t, retention, k - 1);
      assert k > 1 ==> t.visits[k - 2].now <= t.visits[k - 1].now;
    }
  }

  /** Calls i and j match the campaign key and none between them does. */
  ghost predicate Successive(t: Trail, key: string, i: nat, j: nat) {
    && i < j < |t.visits| && key in t.visits[i].touched && key in t.visits[j].touched
    && forall m :: i < m < j ==> key !in t.visits[m].touched
  }

  lemma {:induction false} SeenAtMatch(t: Trail, retention: nat, key: string, i: nat, j: nat, k: nat)
    requires IsTrail(t, retention) && Successive(t, key, i, j) && i < k <= j
    ensures key in t.active[i + 1] && LastSeen(t, key, i + 1, k) == t.visits[i].now
    decreases k
  {
    if k == i + 1 { assert Moves(t, retention, i); } else { SeenAtMatch(t, retention, key, i, j, k - 1); }
  }

  lemma {:induction false} LapsedIsReplaced(t: Trail, retention: nat, key: string, i: nat, m: nat, j: nat)
    requires IsTrail(t, retention) && Successive(t, key, i, j) && i < m < j && t.visits[m].recorded
    requires t.visits[m].now > t.visits[i].now + retention
    ensures key in t.active[i + 1] && key in t.active[j + 1]
    ensures t.active[j + 1][key].firstSeenAt > t.active[i + 1][key].firstSeenAt
  {
    SeenAtMatch(t, retention, key, i, j, m);
    CampaignIsStable(t, retention, key, i + 1, m);
    assert Moves(t, retention, m) && Moves(t, retention, j);
    if ActiveThroughout(t, key, i + 1, m) {
      assert key !in t.active[m + 1];
      AbsentStays(t, retention, key, m + 1, j);
    } else {
      var a :| i + 1 <= a <= m && key !in t.active[a];
      AbsentStays(t, retention, key, a, j);
    }
    FirstNotAfterLast(t, retention, i + 1);
  }

  /** Call m, if it is recorded, comes within the retention of call i. */
  ghost predicate InTime(t: Trail, retention: nat, i: nat, m: nat)
    requires i < |t.visits| && m < |t.visits|
  {
    t.visits[m].recorded ==> t.visits[m].now <= t.visits[i].now + retention
  }

  /** Two successive matches of one key are the same campaign exactly when every recorded call between
      them came within the retention of the first; in particular when the matches themselves are at
      most the retention apart. */
  lemma {:induction false} SuccessiveMatchesAgree(t: Trail, retention: nat, key: string, i: nat, j: nat)
    requires IsTrail(t, retention) && Successive(t, key, i, j)
    ensures key in t.active[i + 1] && key in t.active[j + 1]
    ensures var first, second := t.active[i + 1][key], t.active[j + 1][key];
            && (second.firstSeenAt == first.firstSeenAt <==> forall m :: i < m < j ==> InTime(t, retention, i, m))
            && (second.firstSeenAt == first.firstSeenAt ==> second.campaignId == first.campaignId)
            && (t.visits[j].now <= t.visits[i].now + retention ==> second.firstSeenAt == first.firstSeenAt)
  {
    SeenAtMatch(t, retention, key, i, j, j);
    assert Moves(t, retention, i) && Moves(t, retention, j);
    if m :| i < m < j && !InTime(t, retention, i, m) {
      LapsedIsReplaced(t, retention, key, i, m, j);
    } else {
      var start: nat := i + 1;
      CampaignIsStable(t, retention, key, start, j);
      forall k | start <= k < j ensures !Lapses(t, retention, key, start, k) {
        SeenAtMatch(t, retention, key, i, j, k);
        assert InTime(t, retention, i, k);
      }
    }
  }
}
