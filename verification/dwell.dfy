/** Overload dwell timers as a function of the whole report history: policy.py. */
module Dwell {
  import opened Prelude

  /** A load value as delivered; NotANumber stands for NaN, infinities and booleans. */
  datatype Reading = Watts(w: real) | NotANumber

  predicate Usable(r: Reading) { r.Watts? && r.w >= 0.0 }

  datatype Tier = Tier(id: nat, limit: real, duration: real)

  type Policy = seq<Tier>

  /** A non-empty list of strictly increasing limits with distinct identities. */
  ghost predicate ValidPolicy(p: Policy) {
    && p != []
    && (forall i :: 0 <= i < |p| ==> p[i].limit > 0.0 && p[i].duration >= 0.0)
    && (forall i, j :: 0 <= i < j < |p| ==> p[i].limit < p[j].limit && p[i].id != p[j].id)
  }

  /** Starting instants of the running timers, by tier identity. */
  type Timers = map<nat, Time>

  /** One call that reaches the timers, with the monotonic clock it carried. */
  datatype Sample = Sample(reading: Reading, at: Time)

  predicate Above(s: Sample, limit: real) { Usable(s.reading) && s.reading.w > limit }

  ghost predicate Exceeds(p: Policy, id: nat, w: real) {
    exists i :: 0 <= i < |p| && p[i].id == id && w > p[i].limit
  }

  function IdsAbove(p: Policy, w: real): (ids: set<nat>)
    ensures forall id :: id in ids <==> Exceeds(p, id, w)
  {
    set i | 0 <= i < |p| && w > p[i].limit :: p[i].id
  }

  /** `_update_exceeded_tiers`: a running timer keeps its start, a new one starts now. */
  function Updated(p: Policy, since: Timers, w: real, now: Time): Timers {
    map id | id in IdsAbove(p, w) :: if id in since then since[id] else now
  }

  function Step(p: Policy, since: Timers, s: Sample): Timers {
    if Usable(s.reading) then Updated(p, since, s.reading.w, s.at) else map[]
  }

  function After(p: Policy, h: seq<Sample>): Timers {
    if h == [] then map[] else Step(p, After(p, h[..|h| - 1]), h[|h| - 1])
  }

  /** Where the longest suffix of readings above the limit begins. */
  function RunStart(h: seq<Sample>, limit: real): (k: nat)
    ensures k <= |h|
    ensures forall i :: k <= i < |h| ==> Above(h[i], limit)
    ensures k > 0 ==> !Above(h[k - 1], limit)
  {
    if h == [] || !Above(h[|h| - 1], limit) then |h| else RunStart(h[..|h| - 1], limit)
  }

  ghost predicate ClockNeverGoesBack(h: seq<Sample>) {
    forall i, j :: 0 <= i <= j < |h| ==> h[i].at <= h[j].at
  }

  lemma IdNamesOneTier(p: Policy, i: nat, j: nat)
    requires ValidPolicy(p) && i < |p| && j < |p| && p[i].id == p[j].id
    ensures i == j
  {}

  lemma UpdatedAt(p: Policy, since: Timers, w: real, now: Time, i: nat)
    requires ValidPolicy(p) && i < |p|
    ensures p[i].id in Updated(p, since, w, now) <==> w > p[i].limit
    ensures w > p[i].limit ==>
      Updated(p, since, w, now)[p[i].id] == if p[i].id in since then since[p[i].id] else now
  {
    if p[i].id in IdsAbove(p, w) {
      var j :| 0 <= j < |p| && p[j].id == p[i].id && w > p[j].limit;
      IdNamesOneTier(p, i, j);
    }
    if w > p[i].limit { assert Exceeds(p, p[i].id, w); }
  }

  /** A timer runs exactly while the latest readings are usable and above its limit, and it
      shows the clock of the first reading of that unbroken run. */
  lemma {:induction false} TimersRefineHistory(p: Policy, h: seq<Sample>, i: nat)
    requires ValidPolicy(p) && i < |p|
    ensures p[i].id in After(p, h) <==> RunStart(h, p[i].limit) < |h|
    ensures p[i].id in After(p, h) ==> After(p, h)[p[i].id] == h[RunStart(h, p[i].limit)].at
  {
    if h != [] {
      var n := |h| - 1;
      TimersRefineHistory(p, h[..n], i);
      if Usable(h[n].reading) {
        UpdatedAt(p, After(p, h[..n]), h[n].reading.w, h[n].at, i);
      }
    }
  }

  /** The same in plain terms: a timer runs iff the last reading is a number, not negative and above the limit,
      and shows the clock of the first of the unbroken run of such readings that ends there. */
  lemma TimersInPlainTerms(p: Policy, h: seq<Sample>, i: nat)
    requires ValidPolicy(p) && i < |p|
    ensures p[i].id in After(p, h) <==> h != [] && IsOver(h[|h| - 1].reading, p[i].limit)
    ensures p[i].id in After(p, h) ==>
      exists k :: 0 <= k < |h| && BeginsRun(h, k, p[i].limit) && After(p, h)[p[i].id] == h[k].at
  {
    TimersRefineHistory(p, h, i);
    var k := RunStart(h, p[i].limit);
    assert forall j :: 0 <= j < |h| ==> (IsOver(h[j].reading, p[i].limit) <==> Above(h[j], p[i].limit));
    if k < |h| { assert BeginsRun(h, k, p[i].limit); }
    if k == |h| && h != [] { assert !Above(h[k - 1], p[i].limit); }
  }

  ghost predicate IsOver(r: Reading, limit: real) { r.Watts? && r.w >= 0.0 && r.w > limit }

  ghost predicate BeginsRun(h: seq<Sample>, k: nat, limit: real)
    requires k < |h|
  {
    && (forall j :: k <= j < |h| ==> IsOver(h[j].reading, limit))
    && (k > 0 ==> !IsOver(h[k - 1].reading, limit))
  }

  lemma {:induction false} LowerLimitRunsLonger(h: seq<Sample>, low: real, high: real)
    requires low <= high
    ensures RunStart(h, low) <= RunStart(h, high)
  {
    if h != [] { LowerLimitRunsLonger(h[..|h| - 1], low, high); }
  }

  /** The running timers are a prefix of the thresholds, and a lower tier never started later. */
  lemma TimersFormPrefix(p: Policy, h: seq<Sample>, i: nat, j: nat)
    requires ValidPolicy(p) && i < j < |p| && ClockNeverGoesBack(h)
    requires p[j].id in After(p, h)
    ensures p[i].id in After(p, h) && After(p, h)[p[i].id] <= After(p, h)[p[j].id]
  {
    TimersRefineHistory(p, h, i);
    TimersRefineHistory(p, h, j);
    LowerLimitRunsLonger(h, p[i].limit, p[j].limit);
  }

  // ---------- Triggering ----------

  /** Tier i has been exceeded for its whole duration once this reading is counted. */
  predicate MaturedTier(p: Policy, since: Timers, w: real, now: Time, i: nat)
    requires i < |p|
  {
    && w > p[i].limit
    && now - (if p[i].id in since then since[p[i].id] else now) >= p[i].duration
  }

  /** The `triggered` flag of `observe_load`. */
  ghost predicate Triggers(p: Policy, since: Timers, r: Reading, now: Time) {
    Usable(r) && exists i :: 0 <= i < |p| && MaturedTier(p, since, r.w, now, i)
  }

  /** A load triggers exactly when some tier's unbroken run, this reading included, spans its duration. */
  lemma {:induction false} TriggersIffRunSpansDuration(p: Policy, h: seq<Sample>, s: Sample)
    requires ValidPolicy(p)
    ensures Triggers(p, After(p, h), s.reading, s.at) <==>
      exists i :: 0 <= i < |p| && RunSpans(h + [s], p[i], s.at)
  {
    var all := h + [s];
    assert all[..|h|] == h;
    forall i | 0 <= i < |p|
      ensures Usable(s.reading) && MaturedTier(p, After(p, h), s.reading.w, s.at, i) <==> RunSpans(all, p[i], s.at)
    {
      TimersRefineHistory(p, h, i);
      if Above(s, p[i].limit) {
        assert RunStart(all, p[i].limit) == RunStart(h, p[i].limit);
      }
    }
    if Triggers(p, After(p, h), s.reading, s.at) {
      var i :| 0 <= i < |p| && MaturedTier(p, After(p, h), s.reading.w, s.at, i);
      assert RunSpans(all, p[i], s.at);
    }
    if exists i :: 0 <= i < |p| && RunSpans(all, p[i], s.at) {
      var i :| 0 <= i < |p| && RunSpans(all, p[i], s.at);
      assert MaturedTier(p, After(p, h), s.reading.w, s.at, i);
    }
  }

  lemma TriggersInPlainTerms(p: Policy, since: Timers, r: Reading, now: Time)
    ensures Triggers(p, since, r, now) <==>
      exists i :: 0 <= i < |p| && IsOver(r, p[i].limit)
        && now - (if p[i].id in since then since[p[i].id] else now) >= p[i].duration
  {
    if Triggers(p, since, r, now) {
      var i :| 0 <= i < |p| && MaturedTier(p, since, r.w, now, i);
      assert IsOver(r, p[i].limit);
    }
    if i :| 0 <= i < |p| && IsOver(r, p[i].limit)
            && now - (if p[i].id in since then since[p[i].id] else now) >= p[i].duration {
      assert MaturedTier(p, since, r.w, now, i);
    }
  }

  /** The latest readings above the tier's limit reach back at least its duration. */
  ghost predicate RunSpans(h: seq<Sample>, t: Tier, now: Time) {
    var k := RunStart(h, t.limit);
    k < |h| && now - h[k].at >= t.duration
  }

  /** `_overload_enforced`: predict the engine without touching its timers. */
  method OverloadEnforced(p: Policy, since: Timers, r: Reading, now: Time) returns (b: bool)
    ensures b <==> Triggers(p, since, r, now)
    ensures b <==> exists i :: 0 <= i < |p| && IsOver(r, p[i].limit)
                     && now - (if p[i].id in since then since[p[i].id] else now) >= p[i].duration
  {
    TriggersInPlainTerms(p, since, r, now);
    if !Usable(r) { return false; }
    var i := 0;
    while i < |p|
      invariant 0 <= i <= |p|
      invariant forall j :: 0 <= j < i ==> !MaturedTier(p, since, r.w, now, j)
    {
      var tier := p[i];
      if r.w > tier.limit {
        if tier.id !in since {
          if tier.duration <= 0.0 { assert MaturedTier(p, since, r.w, now, i); return true; }
        } else if now - since[tier.id] >= tier.duration {
          assert MaturedTier(p, since, r.w, now, i);
          return true;
        }
      }
      i := i + 1;
    }
    b := false;
  }
}
