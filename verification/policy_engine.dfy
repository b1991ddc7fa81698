/** The stateful policy engine, tied call by call to the timer, window and fence functions: policy.py. */
module PolicyEngines {
  import opened Prelude
  import opened Dwell
  import W = RestoreWindow
  import F = Fences

  datatype Phase = Startup | Monitoring | Shedding | Faulted | AwaitingShedReport | AwaitingRestoreReport

  /** `reason` names the highest tier that has matured; `active` the highest one exceeded. */
  datatype Decision = Decision(triggered: bool, active: Option<nat>, reason: Option<nat>, elapsed: Time)

  const QUIET := Decision(false, None, None, 0.0)

  class PolicyEngine {
    const policy: Policy
    var tierSince: Timers
    var activeTier: Option<nat>
    var tierStartedAt: Option<Time>
    var phase: Phase
    var decisionSequence: nat
    var restoreSince: Option<Time>
    var capacity: Option<W.Capacity>
    var shed: F.Fence
    var restore: F.Fence

    ghost predicate Valid()
      reads this
    {
      ValidPolicy(policy) && OnlyTiers(policy, tierSince)
    }

    /** The window as the history functions see it, outside any mode change. */
    function WindowState(): W.Window
      reads this
    {
      W.Window(restoreSince, capacity, None)
    }

    function Barriers(): F.Barriers
      reads this
    {
      F.Barriers(shed, restore)
    }

    /** The start of a tier's running timer. */
    function TimerOf(id: Option<nat>): Option<Time>
      reads this
    {
      if id.Some? && id.value in tierSince then Some(tierSince[id.value]) else None
    }

    constructor (p: Policy)
      requires ValidPolicy(p)
      ensures Valid() && policy == p && tierSince == After(p, []) && WindowState() == W.CLOSED
      ensures Barriers() == F.START.mem
    {
      policy := p;
      tierSince, activeTier, tierStartedAt, phase, decisionSequence := map[], None, None, Startup, 0;
      restoreSince, capacity, shed, restore := None, None, F.OPEN, F.OPEN;
    }

    method ResetRestoreWindow()
      modifies this`restoreSince, this`capacity
      ensures WindowState() == W.Apply(old(WindowState()), W.Reset)
    {
      restoreSince, capacity := None, None;
    }

    /** One loop over the thresholds; the exceeded tiers come back in order, lowest first. */
    method UpdateExceededTiers(w: real, now: Time) returns (exceeded: seq<Tier>)
      requires Valid()
      modifies this`tierSince
      ensures Valid() && tierSince == Updated(policy, old(tierSince), w, now)
      ensures exceeded <= policy
      ensures forall i :: 0 <= i < |policy| ==> (w > policy[i].limit <==> i < |exceeded|)
    {
      exceeded := [];
      ghost var before := tierSince;
      var i := 0;
      while i < |policy|
        invariant 0 <= i <= |policy| && |exceeded| <= i
        invariant exceeded == policy[..|exceeded|]
        invariant |exceeded| > 0 ==> w > policy[|exceeded| - 1].limit
        invariant |exceeded| < i ==> w <= policy[|exceeded|].limit
        invariant tierSince == UpdatedUpTo(policy, before, w, now, i)
      {
        var tier := policy[i];
        if w > tier.limit {
          NoGap(policy, w, i, |exceeded|);
          exceeded := exceeded + [tier];
          if tier.id !in tierSince { tierSince := tierSince[tier.id := now]; }
        } else {
          tierSince := tierSince - {tier.id};
        }
        i := i + 1;
      }
      ExceededIsPrefix(policy, w, |exceeded|);
      UpdatedUpToAll(policy, before, w, now);
    }

    /** Every delivered report can only invalidate: it never schedules a command. */
    method ObserveReport(r: Reading, now: Time)
      requires Valid()
      modifies this`tierSince, this`restoreSince, this`capacity
      ensures Valid() && tierSince == Step(policy, old(tierSince), Sample(r, now))
      ensures WindowState() == W.Apply(old(WindowState()), W.Report(r))
    {
      if !Usable(r) {
        tierSince := map[];
        ResetRestoreWindow();
        return;
      }
      var _ := UpdateExceededTiers(r.w, now);
      if capacity.Some? {
        var (expected, limit) := capacity.value;
        if r.w + expected >= limit { ResetRestoreWindow(); }
      }
    }

    method ObserveInvalidLoad() returns (d: Decision)
      requires Valid()
      modifies this`tierSince, this`activeTier, this`tierStartedAt, this`phase, this`decisionSequence
      modifies this`restoreSince, this`capacity
      ensures Valid() && tierSince == map[] && d == QUIET && phase == Faulted
      ensures activeTier == None && tierStartedAt == None && decisionSequence == old(decisionSequence) + 1
      ensures WindowState() == W.Apply(old(WindowState()), W.LoadObserved(true))
    {
      activeTier, tierStartedAt, tierSince, phase := None, None, map[], Faulted;
      ResetRestoreWindow();
      decisionSequence := decisionSequence + 1;
      d := QUIET;
    }

    /** One aggregate value: step every timer, then shed iff some tier is due. */
    method ObserveLoad(r: Reading, now: Time) returns (d: Decision)
      requires Valid()
      modifies this`tierSince, this`activeTier, this`tierStartedAt, this`phase, this`decisionSequence
      modifies this`restoreSince, this`capacity
      ensures Valid() && tierSince == Step(policy, old(tierSince), Sample(r, now))
      ensures d.triggered <==> Triggers(policy, old(tierSince), r, now)
      ensures d.triggered <==> d.reason.Some?
      ensures d.triggered ==> exists i ::
        HighestMatured(policy, old(tierSince), r.w, now, i) && d.reason == Some(policy[i].id)
      ensures WindowState() == W.Apply(old(WindowState()), W.LoadObserved(!Usable(r) || d.triggered))
      ensures Usable(r) ==> (phase == Shedding <==> d.triggered)
      ensures d.active == activeTier && decisionSequence == old(decisionSequence) + 1
      ensures activeTier == None <==> !Usable(r) || forall i :: 0 <= i < |policy| ==> r.w <= policy[i].limit
      ensures activeTier.Some? ==> exists i :: HighestExceeded(policy, r.w, i) && activeTier == Some(policy[i].id)
      ensures tierStartedAt == TimerOf(activeTier)
    {
      if !Usable(r) {
        d := ObserveInvalidLoad();
        return;
      }
      ghost var before := tierSince;
      var exceeded := UpdateExceededTiers(r.w, now);
      ExceededTimers(policy, before, exceeded, r.w, now);
      var matured := LastMatured(exceeded, now);
      TriggerFacts(policy, before, exceeded, r.w, now, matured);
      HighestIsLast(policy, exceeded, r.w);
      NoteActiveTier(exceeded);
      if matured > 0 {
        d := LoadDecision(activeTier, Some(exceeded[matured - 1].id), now);
      } else {
        d := LoadDecision(activeTier, None, now);
      }
      decisionSequence := decisionSequence + 1;
    }

    /** Remember the highest exceeded tier and when it began; with none, no timer runs. */
    method NoteActiveTier(exceeded: seq<Tier>)
      modifies this`activeTier, this`tierStartedAt, this`tierSince
      ensures activeTier == if exceeded == [] then None else Some(exceeded[|exceeded| - 1].id)
      ensures tierSince == if exceeded == [] then map[] else old(tierSince)
      ensures tierStartedAt == TimerOf(activeTier)
    {
      activeTier, tierStartedAt := None, None;
      if exceeded == [] {
        tierSince := map[];
        return;
      }
      var active := exceeded[|exceeded| - 1].id;
      activeTier := Some(active);
      if active in tierSince { tierStartedAt := Some(tierSince[active]); }
    }

    /** Turn the matured tier, if any, into the decision and the phase; the timers stay as they are. */
    method LoadDecision(active: Option<nat>, trigger: Option<nat>, now: Time) returns (d: Decision)
      modifies this`phase, this`restoreSince, this`capacity
      ensures d.triggered <==> trigger.Some?
      ensures d.reason == trigger && d.active == active
      ensures trigger.Some? ==>
        d.elapsed == Max(0.0, now - (if trigger.value in tierSince then tierSince[trigger.value] else now))
      ensures WindowState() == W.Apply(old(WindowState()), W.LoadObserved(trigger.Some?))
      ensures phase == Shedding <==> trigger.Some?
    {
      if trigger.Some? {
        ResetRestoreWindow();
        phase := Shedding;
        var started := if trigger.value in tierSince then tierSince[trigger.value] else now;
        return Decision(true, active, trigger, Max(0.0, now - started));
      }
      phase := if shed.generation.Some? then AwaitingShedReport else Monitoring;
      d := Decision(false, active, None, 0.0);
    }

    /** One more than the position of the highest exceeded tier whose dwell is over, or zero. */
    method LastMatured(exceeded: seq<Tier>, now: Time) returns (n: nat)
      requires forall i :: 0 <= i < |exceeded| ==> exceeded[i].id in tierSince
      ensures n <= |exceeded|
      ensures n > 0 ==> now - tierSince[exceeded[n - 1].id] >= exceeded[n - 1].duration
      ensures forall i :: n <= i < |exceeded| ==> now - tierSince[exceeded[i].id] < exceeded[i].duration
    {
      n := 0;
      var i := 0;
      while i < |exceeded|
        invariant 0 <= n <= i <= |exceeded|
        invariant n > 0 ==> now - tierSince[exceeded[n - 1].id] >= exceeded[n - 1].duration
        invariant forall j :: n <= j < i ==> now - tierSince[exceeded[j].id] < exceeded[j].duration
      {
        i := i + 1;
        if now - tierSince[exceeded[i - 1].id] >= exceeded[i - 1].duration { n := i; }
      }
    }

    method ObserveRestoreSafeCapacity(r: Reading, expected: Reading, limit: Reading, now: Time)
      returns (triggered: bool)
      modifies this`restoreSince, this`capacity
      ensures WindowState() == W.Apply(old(WindowState()), W.Offer(r, expected, limit, now))
      ensures triggered <==>
        && r.Watts? && expected.Watts? && limit.Watts? && r.w >= 0.0 && expected.w >= 0.0 && limit.w > 0.0
        && r.w + expected.w < limit.w
        && capacity == Some((expected.w, limit.w)) && restoreSince.Some? && now - restoreSince.value >= 60.0
    {
      if !Usable(r) || !Usable(expected) || !limit.Watts? || limit.w <= 0.0 || r.w + expected.w >= limit.w {
        ResetRestoreWindow();
        return false;
      }
      if capacity != Some((expected.w, limit.w)) { ResetRestoreWindow(); }
      if restoreSince.None? { restoreSince := Some(now); }
      capacity := Some((expected.w, limit.w));
      triggered := now - restoreSince.value >= W.SAFE_CAPACITY_DWELL;
    }

    /** Install the barrier of a confirmed policy shed together with its confirming report; without
        one the barrier stays until a reload gives it the clock. */
    method AppendShed(loadGeneration: nat, reportedAt: Option<Time>)
      modifies this`shed, this`phase, this`restoreSince, this`capacity
      ensures Barriers() == F.Barriers(F.Fence(Some(loadGeneration), reportedAt), old(restore))
      ensures WindowState() == W.Apply(old(WindowState()), W.Reset)
    {
      ResetRestoreWindow();
      shed := F.Fence(Some(loadGeneration), None);
      phase := AwaitingShedReport;
      shed := shed.(after := reportedAt);
    }

    method AppendRestore(loadGeneration: nat, reportedAt: Option<Time>)
      modifies this`restore, this`phase, this`restoreSince, this`capacity
      ensures Barriers() == F.Barriers(old(shed), F.Fence(Some(loadGeneration), reportedAt))
      ensures WindowState() == W.Apply(old(WindowState()), W.Reset)
    {
      restore := F.Fence(Some(loadGeneration), None);
      ResetRestoreWindow();
      phase := AwaitingRestoreReport;
      restore := restore.(after := reportedAt);
    }

    /** `reconcile_shed`: released tells whether no shed barrier is left. */
    method ReconcileShed(loadGeneration: nat, reportedAt: Option<Time>) returns (released: bool)
      modifies this`shed, this`phase
      ensures released <==>
        || old(shed).generation.None?
        || (&& old(shed).generation.value < loadGeneration
            && old(shed).after.Some? && reportedAt.Some? && old(shed).after.value < reportedAt.value)
      ensures released && old(shed).generation.Some? ==> shed == F.Fence(None, None) && phase == Monitoring
      ensures !released || old(shed).generation.None? ==> shed == old(shed) && phase == old(phase)
      ensures reportedAt.Some? && old(shed).Pending() ==>
        shed == F.Reconciled(old(shed), loadGeneration, reportedAt.value)
    {
      if shed.generation.None? { return true; }
      if loadGeneration <= shed.generation.value || shed.after.None? || reportedAt.None? { return false; }
      if reportedAt.value <= shed.after.value { return false; }
      shed, phase := F.OPEN, Monitoring;
      released := true;
    }

    /** `reconcile_restore`: the same test on the restore barrier alone. */
    method ReconcileRestore(loadGeneration: nat, reportedAt: Option<Time>) returns (released: bool)
      modifies this`restore, this`phase
      ensures released <==>
        || old(restore).generation.None?
        || (&& old(restore).generation.value < loadGeneration
            && old(restore).after.Some? && reportedAt.Some? && old(restore).after.value < reportedAt.value)
      ensures released && old(restore).generation.Some? ==> restore == F.Fence(None, None) && phase == Monitoring
      ensures !released || old(restore).generation.None? ==> restore == old(restore) && phase == old(phase)
      ensures reportedAt.Some? && old(restore).Pending() ==>
        restore == F.Reconciled(old(restore), loadGeneration, reportedAt.value)
    {
      if restore.generation.None? { return true; }
      if loadGeneration <= restore.generation.value || restore.after.None? || reportedAt.None? { return false; }
      if reportedAt.value <= restore.after.value { return false; }
      restore, phase := F.OPEN, Monitoring;
      released := true;
    }
  }

  ghost predicate SameTimer(since: Timers, before: Timers, id: nat) {
    (id in since <==> id in before) && (id in since ==> since[id] == before[id])
  }

  ghost predicate TimerIs(since: Timers, before: Timers, id: nat, exceeded: bool, now: Time) {
    (id in since <==> exceeded) && (exceeded ==> since[id] == if id in before then before[id] else now)
  }

  /** The load is above tier i and above no tier with a higher limit. */
  ghost predicate HighestExceeded(p: Policy, w: real, i: int) {
    0 <= i < |p| && w > p[i].limit && forall j :: i < j < |p| ==> w <= p[j].limit
  }

  lemma HighestIsLast(p: Policy, exceeded: seq<Tier>, w: real)
    requires exceeded <= p && forall i :: 0 <= i < |p| ==> (w > p[i].limit <==> i < |exceeded|)
    ensures exceeded == [] <==> forall i :: 0 <= i < |p| ==> w <= p[i].limit
    ensures exceeded != [] ==> HighestExceeded(p, w, |exceeded| - 1) && p[|exceeded| - 1] == exceeded[|exceeded| - 1]
  {
    if p != [] && exceeded == [] { assert !(w > p[0].limit); }
    if exceeded != [] { assert w > p[0].limit; }
  }

  /** Tier i has matured and no tier with a higher limit has. */
  ghost predicate HighestMatured(p: Policy, before: Timers, w: real, now: Time, i: int) {
    0 <= i < |p| && MaturedTier(p, before, w, now, i)
    && forall j :: i < j < |p| ==> !MaturedTier(p, before, w, now, j)
  }

  lemma NoGap(p: Policy, w: real, i: nat, n: nat)
    requires ValidPolicy(p) && n <= i < |p| && w > p[i].limit
    requires n < i ==> w <= p[n].limit
    ensures n == i
  {}

  /** Limits increase, so the exceeded tiers are exactly the first n. */
  lemma ExceededIsPrefix(p: Policy, w: real, n: nat)
    requires ValidPolicy(p) && n <= |p|
    requires n > 0 ==> w > p[n - 1].limit
    requires n < |p| ==> w <= p[n].limit
    ensures forall i :: 0 <= i < |p| ==> (w > p[i].limit <==> i < n)
  {
    forall i | 0 <= i < |p| ensures w > p[i].limit <==> i < n {
      if i < n - 1 { assert p[i].limit < p[n - 1].limit; }
      if n < i { assert p[n].limit < p[i].limit; }
    }
  }

  /** The timers after the loop has handled the first i tiers. */
  ghost function UpdatedUpTo(p: Policy, before: Timers, w: real, now: Time, i: nat): Timers
    requires i <= |p|
  {
    if i == 0 then before
    else
      var earlier := UpdatedUpTo(p, before, w, now, i - 1);
      var id := p[i - 1].id;
      if w <= p[i - 1].limit then earlier - {id}
      else if id in earlier then earlier else earlier[id := now]
  }

  ghost predicate OnlyTiers(p: Policy, since: Timers) {
    forall id :: id in since ==> exists j :: 0 <= j < |p| && p[j].id == id
  }

  ghost predicate HandledTier(p: Policy, since: Timers, before: Timers, w: real, now: Time, i: nat, j: nat)
    requires i <= |p| && j < |p|
  {
    if j < i then TimerIs(since, before, p[j].id, w > p[j].limit, now) else SameTimer(since, before, p[j].id)
  }

  lemma {:induction false} HandledTiers(p: Policy, before: Timers, w: real, now: Time, i: nat, j: nat)
    requires ValidPolicy(p) && i <= |p| && j < |p|
    ensures HandledTier(p, UpdatedUpTo(p, before, w, now, i), before, w, now, i, j)
  {
    if i > 0 {
      HandledTiers(p, before, w, now, i - 1, j);
      if p[i - 1].id == p[j].id { IdNamesOneTier(p, i - 1, j); }
    }
  }

  lemma {:induction false} UpdatedUpToOnlyTiers(p: Policy, before: Timers, w: real, now: Time, i: nat)
    requires OnlyTiers(p, before) && i <= |p|
    ensures OnlyTiers(p, UpdatedUpTo(p, before, w, now, i))
  {
    if i > 0 { UpdatedUpToOnlyTiers(p, before, w, now, i - 1); }
  }

  lemma UpdatedUpToAll(p: Policy, before: Timers, w: real, now: Time)
    requires ValidPolicy(p) && OnlyTiers(p, before)
    ensures OnlyTiers(p, UpdatedUpTo(p, before, w, now, |p|))
    ensures UpdatedUpTo(p, before, w, now, |p|) == Updated(p, before, w, now)
  {
    var since := UpdatedUpTo(p, before, w, now, |p|);
    UpdatedUpToOnlyTiers(p, before, w, now, |p|);
    forall j | 0 <= j < |p| ensures TimerIs(since, before, p[j].id, w > p[j].limit, now) {
      HandledTiers(p, before, w, now, |p|, j);
    }
    TimersAreUpdated(p, before, since, w, now);
  }

  lemma TimersAreUpdated(p: Policy, before: Timers, since: Timers, w: real, now: Time)
    requires ValidPolicy(p)
    requires forall j :: 0 <= j < |p| ==> TimerIs(since, before, p[j].id, w > p[j].limit, now)
    requires OnlyTiers(p, since)
    ensures since == Updated(p, before, w, now)
  {
    var u := Updated(p, before, w, now);
    forall id | id in since || id in u ensures id in since && id in u && since[id] == u[id] {
      var j :| 0 <= j < |p| && p[j].id == id;
      UpdatedAt(p, before, w, now, j);
      assert TimerIs(since, before, p[j].id, w > p[j].limit, now);
    }
  }

  lemma TriggerFacts(p: Policy, before: Timers, exceeded: seq<Tier>, w: real, now: Time, n: nat)
    requires n <= |exceeded| <= |p| && w >= 0.0
    requires forall i :: 0 <= i < |p| ==> (w > p[i].limit <==> i < |exceeded|)
    requires n > 0 ==> MaturedTier(p, before, w, now, n - 1)
    requires forall i :: n <= i < |exceeded| ==> !MaturedTier(p, before, w, now, i)
    ensures Triggers(p, before, Watts(w), now) <==> n > 0
    ensures n > 0 ==> HighestMatured(p, before, w, now, n - 1)
  {}

  lemma ExceededTimers(p: Policy, before: Timers, exceeded: seq<Tier>, w: real, now: Time)
    requires ValidPolicy(p) && exceeded <= p
    requires forall i :: 0 <= i < |p| ==> (w > p[i].limit <==> i < |exceeded|)
    ensures forall i :: 0 <= i < |exceeded| ==> exceeded[i].id in Updated(p, before, w, now)
    ensures forall i :: 0 <= i < |exceeded| ==>
      (MaturedTier(p, before, w, now, i) <==> now - Updated(p, before, w, now)[exceeded[i].id] >= exceeded[i].duration)
    ensures exceeded == [] ==> Updated(p, before, w, now) == map[]
  {
    forall i | 0 <= i < |exceeded|
      ensures exceeded[i] == p[i] && p[i].id in Updated(p, before, w, now)
      ensures MaturedTier(p, before, w, now, i) <==> now - Updated(p, before, w, now)[p[i].id] >= p[i].duration
    {
      UpdatedAt(p, before, w, now, i);
    }
    if exceeded == [] { assert IdsAbove(p, w) == {}; }
  }
}
