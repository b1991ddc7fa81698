/** The sixty-second safe-capacity window as a function of the call history: policy.py, coordinator.py. */
module RestoreWindow {
  import opened Prelude
  import opened Dwell

  const SAFE_CAPACITY_DWELL: Time := 60.0

  /** Expected power of the next candidate and the lowest threshold. */
  type Capacity = (real, real)

  /** `saved` holds the start that a running mode change will put back if its save fails. */
  datatype Window = Window(since: Option<Time>, capacity: Option<Capacity>, saved: Option<Option<Time>>)

  const CLOSED := Window(None, None, None)

  /** Every call that can touch the window. */
  datatype Op =
    | Report(r: Reading)                                         // observe_report
    | LoadObserved(resets: bool)                                 // observe_load: invalid or triggered resets
    | Offer(r: Reading, expected: Reading, limit: Reading, at: Time) // observe_restore_safe_capacity
    | Reset                                                      // any explicit reset
    | BeginMode(resets: bool)                                    // async_set_mode up to its save
    | EndMode(failed: bool)                                      // the save returned or raised

  function Cleared(s: Window): Window { s.(since := None, capacity := None) }

  predicate OfferIsSafe(r: Reading, expected: Reading, limit: Reading) {
    && Usable(r) && Usable(expected) && limit.Watts? && limit.w > 0.0
    && r.w + expected.w < limit.w
  }

  function Elapsed(s: Window, c: Capacity, at: Time): Window {
    var base := if s.capacity != Some(c) then Cleared(s) else s;
    base.(since := if base.since.None? then Some(at) else base.since, capacity := Some(c))
  }

  function Apply(s: Window, op: Op): Window {
    match op
    case Report(r) =>
      if !Usable(r) then Cleared(s)
      else if s.capacity.Some? && r.w + s.capacity.value.0 >= s.capacity.value.1 then Cleared(s)
      else s
    case LoadObserved(resets) => if resets then Cleared(s) else s
    case Offer(r, expected, limit, at) =>
      if OfferIsSafe(r, expected, limit) then Elapsed(s, (expected.w, limit.w), at) else Cleared(s)
    case Reset => Cleared(s)
    case BeginMode(resets) => (if resets then Cleared(s) else s).(saved := Some(s.since))
    case EndMode(failed) =>
      if failed && s.saved.Some? then s.(since := s.saved.value, saved := None) else s.(saved := None)
  }

  function After(h: seq<Op>): Window {
    if h == [] then CLOSED else Apply(After(h[..|h| - 1]), h[|h| - 1])
  }

  /** `restore_window_matured`. */
  predicate Matured(s: Window, c: Capacity, now: Time) {
    s.capacity == Some(c) && s.since.Some? && now - s.since.value >= SAFE_CAPACITY_DWELL
  }

  /** The evaluation lock: no offer and no second mode change while a mode change is saving. */
  ghost predicate Serialized(h: seq<Op>) {
    h == [] ||
    (Serialized(h[..|h| - 1]) &&
     (After(h[..|h| - 1]).saved.Some? ==> !h[|h| - 1].Offer? && !h[|h| - 1].BeginMode?))
  }

  ghost predicate OffersInOrder(h: seq<Op>) {
    forall i, j :: 0 <= i <= j < |h| && h[i].Offer? && h[j].Offer? ==> h[i].at <= h[j].at
  }

  // ---------- What an open window means ----------

  /** A call that finds room for this candidate below this limit, and could start the window. */
  predicate Opens(op: Op, c: Capacity) {
    && op.Offer? && op.r.Watts? && op.expected == Watts(c.0) && op.limit == Watts(c.1)
    && op.r.w >= 0.0 && c.0 >= 0.0 && c.1 > 0.0 && op.r.w + c.0 < c.1
  }

  /** A call that does not interrupt the window for this candidate and limit. */
  predicate Keeps(op: Op, c: Capacity) {
    match op
    case Report(r) => r.Watts? && r.w >= 0.0 && r.w + c.0 < c.1
    case LoadObserved(resets) => !resets
    case Offer(_, _, _, _) => Opens(op, c)
    case Reset => false
    case BeginMode(resets) => !resets
    case EndMode(_) => true
  }

  /** Safe at call k and never interrupted after it. */
  ghost predicate SafeSince(h: seq<Op>, k: int, c: Capacity) {
    0 <= k < |h| && Opens(h[k], c) && forall i :: k < i < |h| ==> Keeps(h[i], c)
  }

  /** The earliest call since which the capacity was safe without interruption. */
  function Start(h: seq<Op>, c: Capacity): (k: Option<nat>)
    ensures k.Some? ==> k.value < |h|
  {
    if h == [] || !Keeps(h[|h| - 1], c) then None
    else
      var earlier := Start(h[..|h| - 1], c);
      if earlier.Some? then earlier
      else if Opens(h[|h| - 1], c) then Some(|h| - 1) else None
  }

  lemma {:induction false} StartIsEarliest(h: seq<Op>, c: Capacity)
    ensures Start(h, c).Some? ==> SafeSince(h, Start(h, c).value, c)
    ensures forall k :: SafeSince(h, k, c) ==> Start(h, c).Some? && Start(h, c).value <= k
  {
    if h != [] {
      var n := |h| - 1;
      StartIsEarliest(h[..n], c);
      forall k | SafeSince(h, k, c) ensures Start(h, c).Some? && Start(h, c).value <= k {
        if k < n { assert SafeSince(h[..n], k, c); }
      }
    }
  }

  /** The stored start is the clock of the earliest uninterrupted safe call, whatever mode
      changes succeed or roll back in between. */
  lemma {:induction false} WindowRefinesHistory(h: seq<Op>, c: Capacity)
    requires Serialized(h)
    ensures After(h).capacity == Some(c) <==> Start(h, c).Some?
    ensures After(h).capacity == Some(c) ==>
      h[Start(h, c).value].Offer? && After(h).since == Some(h[Start(h, c).value].at)
    ensures After(h).saved.Some? && After(h).capacity.Some? ==> After(h).saved.value == After(h).since
  {
    if h != [] {
      var n := |h| - 1;
      var s := After(h[..n]);
      WindowRefinesHistory(h[..n], c);
      StartIsEarliest(h[..n], c);
      if s.capacity.Some? {
        WindowRefinesHistory(h[..n], s.capacity.value);
        StartIsEarliest(h[..n], s.capacity.value);
      }
    }
  }

  /** Permission to restore means sixty seconds of uninterrupted proof, and such proof is enough. */
  lemma MaturedIffSixtySafeSeconds(h: seq<Op>, c: Capacity, now: Time)
    requires Serialized(h) && OffersInOrder(h)
    ensures Matured(After(h), c, now) <==>
      exists k :: SafeSince(h, k, c) && now - h[k].at >= 60.0
  {
    WindowRefinesHistory(h, c);
    StartIsEarliest(h, c);
    if Matured(After(h), c, now) {
      assert SafeSince(h, Start(h, c).value, c);
    }
  }

  function SafeOffer(at: Time): Op { Offer(Watts(1000.0), Watts(500.0), Watts(5000.0), at) }

  /** A window opened at 0, interrupted while a mode change saves, and offered again before
      the save fails: a run the evaluation lock rules out. */
  function UnlockedRun(now: Time): seq<Op> {
    [SafeOffer(0.0), BeginMode(false), Reset, SafeOffer(now), EndMode(true)]
  }

  /** Without the lock the rollback is unsound: the offer made while the mode change saves
      inherits the start of the interrupted window. */
  lemma RollbackNeedsTheLock(now: Time)
    requires now >= 100.0
    ensures OffersInOrder(UnlockedRun(now)) && !Serialized(UnlockedRun(now))
    ensures Matured(After(UnlockedRun(now)), (500.0, 5000.0), now)
    ensures forall k :: SafeSince(UnlockedRun(now), k, (500.0, 5000.0)) ==>
      now - UnlockedRun(now)[k].at < SAFE_CAPACITY_DWELL
  {
    var c: Capacity := (500.0, 5000.0);
    var h := UnlockedRun(now);
    var s1 := Window(Some(0.0), Some(c), None);
    var s2 := s1.(saved := Some(Some(0.0)));
    assert h[..1] == [] + [h[0]] && h[..2] == h[..1] + [h[1]] && h[..3] == h[..2] + [h[2]];
    assert h[..4] == h[..3] + [h[3]] && h == h[..4] + [h[4]];
    AfterSnoc([], h[0]);
    AfterSnoc(h[..1], h[1]);
    assert After(h[..2]) == s2;
    AfterSnoc(h[..2], h[2]);
    AfterSnoc(h[..3], h[3]);
    assert After(h[..4]) == s2.(since := Some(now));
    AfterSnoc(h[..4], h[4]);
    assert !Serialized(h[..4]) by { assert h[..4][..3] == h[..3]; }
    forall k | SafeSince(h, k, c) ensures now - h[k].at < SAFE_CAPACITY_DWELL {
      assert !Keeps(h[2], c);
    }
  }

  lemma AfterSnoc(h: seq<Op>, op: Op)
    ensures After(h + [op]) == Apply(After(h), op)
  {
    assert (h + [op])[..|h|] == h;
  }
}
