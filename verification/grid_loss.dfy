/**
 * The all-stop lane of a grid-loss incident: `_safety_lane_handled` and `_handle_grid_loss`
 * of coordinator.py. Loads are stopped one after the other in shed order, and a load whose
 * stop was rejected before any call is deferred to later cycles of the same incident.
 */
module GridLoss {
  import opened Prelude
  import P = Protocol
  import E = Execution

  /** What one emergency stop came to, and whether a service had been called by then. */
  datatype Attempt = Confirmed | Rejected | Failed(called: bool) | Cancelled(called: bool)

  predicate Called(a: Attempt) { a.Confirmed? || ((a.Failed? || a.Cancelled?) && a.called) }

  /** A transition's result as the lane reads it: a blocked store counts as a failure. */
  ghost function Seen(r: E.Result, made: seq<P.Call>): Attempt {
    match r
    case Confirmed => Confirmed
    case Rejected => Rejected
    case Failed => Failed(made != [])
    case StorageBlocked => Failed(made != [])
    case Cancelled => Cancelled(made != [])
  }

  /** The lane may defer a rejected stop, because a rejected stop called nothing. */
  lemma SeenIsAccurate(t: P.Txn, r: E.Result, made: seq<P.Call>)
    requires t.kind.SwitchOff? && E.Sequence(t, made) && E.CallsFit(r, made)
    ensures Called(Seen(r, made)) <==> made != []
  {
    assert made != [] ==> made[0] in made && made[0].verb == P.TurnOff;
  }

  /** What a pass finds and does at one load. */
  datatype Turn = Turn(confirmedOff: bool, batteryPermits: bool, attempt: Attempt)

  /** Stops of the current incident: those that called a service, those cancelled after their call
      in a retry pass, and the loads rejected since the source was last seen lost. */
  datatype Log = Log(calls: multiset<DeviceId>, lost: multiset<DeviceId>, rejected: set<DeviceId>)

  const EMPTY := Log(multiset{}, multiset{}, {})

  datatype Lane = Lane(handled: bool, deferred: set<DeviceId>, log: Log)

  const IDLE := Lane(false, {}, EMPTY)

  /** The loads in shed order and those whose battery policy takes them out of the lane. */
  datatype Fleet = Fleet(order: seq<DeviceId>, battery: set<DeviceId>)

  ghost predicate ValidFleet(f: Fleet) { Distinct(f.order) }

  /** The loads this pass tries to stop, when it comes to them. */
  predicate Tries(f: Fleet, d: DeviceId, turn: Turn, retry: bool, lane: Lane) {
    (retry ==> d in lane.deferred) && !turn.confirmedOff && d !in f.battery
  }

  function Logged(log: Log, d: DeviceId, a: Attempt, retry: bool): Log {
    Log(if Called(a) then log.calls + multiset{d} else log.calls,
        if Called(a) && a.Cancelled? && retry then log.lost + multiset{d} else log.lost,
        if a.Rejected? then log.rejected + {d} else log.rejected)
  }

  /** One load's turn. */
  function AtLoad(f: Fleet, lane: Lane, d: DeviceId, turn: Turn, retry: bool): Lane {
    if Tries(f, d, turn, retry, lane) then
      Lane(lane.handled,
           match turn.attempt
           case Rejected => lane.deferred + {d}
           case Cancelled(_) => lane.deferred
           case _ => lane.deferred - {d},
           Logged(lane.log, d, turn.attempt, retry))
    else if turn.confirmedOff && (retry ==> d in lane.deferred) then lane.(deferred := lane.deferred - {d})
    else lane
  }

  /** A cancellation leaves the loop, from an ordinary stop or from a battery-minimum stop. */
  predicate EndsPass(f: Fleet, lane: Lane, d: DeviceId, turn: Turn, retry: bool) {
    && turn.attempt.Cancelled? && !turn.confirmedOff && (retry ==> d in lane.deferred)
    && (d in f.battery ==> !turn.batteryPermits)
  }

  function Pass(f: Fleet, turns: seq<Turn>, i: nat, lane: Lane, retry: bool): Lane
    requires i <= |f.order| == |turns|
    decreases |turns| - i
  {
    if i == |turns| then lane else
      var next := AtLoad(f, lane, f.order[i], turns[i], retry);
      if EndsPass(f, lane, f.order[i], turns[i], retry) then next else Pass(f, turns, i + 1, next, retry)
  }

  /** One evaluation, as far as this lane can tell them apart. `Elsewhere` returns before the lane. */
  datatype Cycle =
    | SourceLost(auto: bool, sweepCancelled: bool, turns: seq<Turn>)
    | SourceOk(telemetryLatched: bool)
    | FaultCleared
    | Elsewhere

  predicate Fits(f: Fleet, c: Cycle) { c.SourceLost? ==> |c.turns| == |f.order| }

  function Handle(f: Fleet, lane: Lane, c: Cycle): Lane
    requires c.SourceLost? && Fits(f, c)
  {
    if lane.handled && ((c.auto && c.sweepCancelled) || lane.deferred == {}) then lane else
      var begun := if lane.handled then lane else Lane(true, {}, EMPTY);
      if c.auto then Pass(f, c.turns, 0, begun, lane.handled) else begun
  }

  function Step(f: Fleet, lane: Lane, c: Cycle): Lane
    requires Fits(f, c)
  {
    match c
    case SourceLost(_, _, _) => Handle(f, lane, c)
    case SourceOk(latched) => Lane(lane.handled && latched, {}, lane.log.(rejected := {}))
    case FaultCleared => lane.(handled := false)
    case Elsewhere => lane
  }

  class GridLossLane {
    const fleet: Fleet
    var handled: bool
    var deferred: set<DeviceId>
    ghost var log: Log

    ghost function State(): Lane
      reads this
    {
      Lane(handled, deferred, log)
    }

    constructor (f: Fleet)
      ensures fleet == f && State() == IDLE
    {
      fleet, handled, deferred, log := f, false, {}, EMPTY;
    }

    /** `_handle_grid_loss`; the answer is whether the cancellation propagates. */
    method HandleGridLoss(auto: bool, sweepCancelled: bool, turns: seq<Turn>) returns (cancelled: bool)
      requires |turns| == |fleet.order|
      modifies this
      ensures State() == Handle(fleet, old(State()), SourceLost(auto, sweepCancelled, turns))
    {
      var retry := handled;
      if retry {
        if auto && sweepCancelled {
          return true;
        }
        if deferred == {} {
          return false;
        }
      } else {
        deferred, log := {}, EMPTY;
      }
      handled := true;
      if !auto {
        return false;
      }
      ghost var begun := State();
      var i := 0;
      while i < |turns|
        invariant 0 <= i <= |turns| && handled
        invariant Pass(fleet, turns, 0, begun, retry) == Pass(fleet, turns, i, State(), retry)
      {
        var d, turn := fleet.order[i], turns[i];
        i := i + 1;
        if retry && d !in deferred {
          continue;
        }
        if turn.confirmedOff {
          deferred := deferred - {d};
          continue;
        }
        if d in fleet.battery {
          if !turn.batteryPermits && turn.attempt.Cancelled? {
            return true;
          }
          continue;
        }
        log := Logged(log, d, turn.attempt, retry);
        match turn.attempt {
          case Confirmed => deferred := deferred - {d};
          case Rejected => deferred := deferred + {d};
          case Failed(_) => deferred := deferred - {d};
          case Cancelled(_) => return true;
        }
      }
      cancelled := false;
    }

    /** The lane of an evaluation that finds the source present. */
    method SourceReturned(telemetryLatched: bool)
      modifies this
      ensures State() == Step(fleet, old(State()), SourceOk(telemetryLatched))
    {
      deferred := {};
      log := log.(rejected := {});
      if !telemetryLatched { handled := false; }
    }

    /** `async_clear_fault` forgets the incident. */
    method ForgetIncident()
      modifies this
      ensures State() == Step(fleet, old(State()), FaultCleared)
    {
      handled := false;
    }
  }

  // ---------- At most one stop ----------

  /** Stops made and still possible, for every load the lane owns. */
  predicate Bounded(lane: Lane, d: DeviceId) {
    lane.log.lost[d] <= lane.log.calls[d] <= lane.log.lost[d] + (if d in lane.deferred then 0 else 1)
  }

  ghost predicate Inv(f: Fleet, lane: Lane) {
    && (lane.handled ==> forall d :: Bounded(lane, d))
    && lane.deferred !! f.battery
    && (lane.handled ==> lane.deferred <= lane.log.rejected)
  }

  /** During the first pass, what is still to come has no calls yet. */
  ghost predicate Ahead(f: Fleet, i: nat, lane: Lane, retry: bool)
    requires i <= |f.order|
  {
    !retry ==> forall j :: i <= j < |f.order| ==> lane.log.calls[f.order[j]] == 0 && f.order[j] !in lane.deferred
  }

  lemma LoadKeepsInv(f: Fleet, lane: Lane, i: nat, turn: Turn, retry: bool)
    requires ValidFleet(f) && i < |f.order| && Inv(f, lane) && lane.handled && Ahead(f, i, lane, retry)
    ensures var next := AtLoad(f, lane, f.order[i], turn, retry);
      Inv(f, next) && next.handled && Ahead(f, i + 1, next, retry)
  {
    var next := AtLoad(f, lane, f.order[i], turn, retry);
    assert Bounded(lane, f.order[i]);
    forall d ensures Bounded(next, d) {
      assert Bounded(lane, d);
    }
  }

  lemma {:induction false} PassKeepsInv(f: Fleet, turns: seq<Turn>, i: nat, lane: Lane, retry: bool)
    requires ValidFleet(f) && i <= |f.order| == |turns| && Inv(f, lane) && lane.handled && Ahead(f, i, lane, retry)
    ensures Inv(f, Pass(f, turns, i, lane, retry)) && Pass(f, turns, i, lane, retry).handled
    decreases |turns| - i
  {
    if i < |turns| {
      LoadKeepsInv(f, lane, i, turns[i], retry);
      PassKeepsInv(f, turns, i + 1, AtLoad(f, lane, f.order[i], turns[i], retry), retry);
    }
  }

  lemma StepKeepsInv(f: Fleet, lane: Lane, c: Cycle)
    requires ValidFleet(f) && Fits(f, c) && Inv(f, lane)
    ensures Inv(f, Step(f, lane, c))
  {
    match c
    case SourceLost(_, _, turns) =>
      PassKeepsInv(f, turns, 0, if lane.handled then lane else Lane(true, {}, EMPTY), lane.handled);
    case SourceOk(_) =>
      forall d | lane.handled ensures Bounded(Step(f, lane, c), d) { assert Bounded(lane, d); }
    case _ =>
  }

  ghost function Lanes(f: Fleet, lane: Lane, cs: seq<Cycle>): Lane
    requires forall c :: c in cs ==> Fits(f, c)
    decreases |cs|
  {
    if cs == [] then lane else Lanes(f, Step(f, lane, cs[0]), cs[1..])
  }

  lemma {:induction false} RunKeepsInv(f: Fleet, lane: Lane, cs: seq<Cycle>)
    requires ValidFleet(f) && (forall c :: c in cs ==> Fits(f, c)) && Inv(f, lane)
    ensures Inv(f, Lanes(f, lane, cs))
    decreases |cs|
  {
    if cs != [] {
      StepKeepsInv(f, lane, cs[0]);
      RunKeepsInv(f, Step(f, lane, cs[0]), cs[1..]);
    }
  }

  /** Over every sequence of evaluations: within one incident a load is physically stopped at most
      once, plus once for each cancellation that struck a retry of it after its call; so at most
      once if none struck, and more than once if two did. A load that waits for a retry was
      rejected since the source was lost, and any call made for it was so cancelled. */
  lemma OneStopPerIncident(f: Fleet, cs: seq<Cycle>, d: DeviceId)
    requires ValidFleet(f) && forall c :: c in cs ==> Fits(f, c)
    ensures var lane := Lanes(f, IDLE, cs);
      lane.handled ==>
        && lane.log.lost[d] <= lane.log.calls[d] <= lane.log.lost[d] + 1
        && (d in lane.deferred ==> d in lane.log.rejected && lane.log.calls[d] == lane.log.lost[d])
  {
    RunKeepsInv(f, IDLE, cs);
    var lane := Lanes(f, IDLE, cs);
    if lane.handled { assert Bounded(lane, d); }
  }

  // ---------- When the bound of one fails ----------

  function Seized(a: Attempt): Cycle { SourceLost(true, false, [Turn(false, false, a)]) }

  /** A rejected stop is retried, the retry is cancelled after its call, and the next cycle calls again. */
  lemma {:induction false} CancelledRetryStopsTwice(d: DeviceId)
    ensures var f := Fleet([d], {});
      Lanes(f, IDLE, [Seized(Rejected), Seized(Cancelled(true)), Seized(Confirmed)]).log.calls[d] == 2
  {
    var f := Fleet([d], {});
    var s1 := Step(f, IDLE, Seized(Rejected));
    assert s1 == Pass(f, [Turn(false, false, Rejected)], 1, s1, false);
    assert s1.deferred == {d} && s1.handled && s1.log.calls == multiset{};
    var s2 := Step(f, s1, Seized(Cancelled(true)));
    assert s2.deferred == {d} && s2.handled && s2.log.calls == multiset{d};
    var s3 := Step(f, s2, Seized(Confirmed));
    assert s3 == Pass(f, [Turn(false, false, Confirmed)], 1, s3, true);
    assert s3.log.calls == multiset{d, d};
    var cs := [Seized(Rejected), Seized(Cancelled(true)), Seized(Confirmed)];
    assert cs[1..][1..] == [Seized(Confirmed)] && cs[1..][0] == Seized(Cancelled(true));
    assert [Seized(Confirmed)][1..] == [];
    assert Lanes(f, IDLE, cs) == Lanes(f, s1, cs[1..]) == Lanes(f, s2, [Seized(Confirmed)]) == Lanes(f, s3, []);
  }

  // ---------- What one pass does ----------

  predicate Uncancelled(turns: seq<Turn>) { forall turn :: turn in turns ==> !turn.attempt.Cancelled? }

  /** The pass tries the load at this position, read off the lane the pass began with. */
  predicate TriedAt(f: Fleet, turns: seq<Turn>, j: nat, lane: Lane, retry: bool)
    requires |f.order| == |turns| && j < |turns|
  {
    Tries(f, f.order[j], turns[j], retry, lane)
  }

  /** Positions from i on are untouched so far. */
  ghost predicate SameAhead(f: Fleet, i: nat, lane: Lane, begun: Lane)
    requires i <= |f.order|
  {
    forall j :: i <= j < |f.order| ==> (f.order[j] in lane.deferred <==> f.order[j] in begun.deferred)
  }

  lemma {:induction false} PassDefersFrom(
      f: Fleet, turns: seq<Turn>, i: nat, lane: Lane, begun: Lane, retry: bool, k: nat)
    requires ValidFleet(f) && k < |f.order| == |turns| && i <= |turns| && Uncancelled(turns)
    requires SameAhead(f, i, lane, begun)
    requires begun.deferred !! f.battery && (!retry ==> begun.deferred == {})
    requires k < i ==>
      (f.order[k] in lane.deferred <==> TriedAt(f, turns, k, begun, retry) && turns[k].attempt.Rejected?)
    ensures var after := Pass(f, turns, i, lane, retry);
      f.order[k] in after.deferred <==> TriedAt(f, turns, k, begun, retry) && turns[k].attempt.Rejected?
    decreases |turns| - i
  {
    if i < |turns| {
      assert turns[i] in turns;
      var next := AtLoad(f, lane, f.order[i], turns[i], retry);
      PassDefersFrom(f, turns, i + 1, next, begun, retry, k);
    }
  }

  /** A pass nobody cancels visits every load, and defers exactly those it tried and had rejected:
      in a first pass every load not already off, in a retry only the deferred ones. */
  lemma PassDefersExactlyTheRejected(f: Fleet, lane: Lane, c: Cycle, k: nat)
    requires ValidFleet(f) && c.SourceLost? && Fits(f, c) && k < |f.order|
    requires c.auto && !c.sweepCancelled && Uncancelled(c.turns) && lane.deferred !! f.battery
    ensures f.order[k] in Step(f, lane, c).deferred <==>
      && (lane.handled ==> f.order[k] in lane.deferred) && !c.turns[k].confirmedOff
      && f.order[k] !in f.battery && c.turns[k].attempt.Rejected?
  {
    var begun := if lane.handled then lane else Lane(true, {}, EMPTY);
    PassDefersFrom(f, c.turns, 0, begun, begun, lane.handled, k);
  }

  lemma {:induction false} PassCallsFrom(
      f: Fleet, turns: seq<Turn>, i: nat, lane: Lane, begun: Lane, retry: bool, k: nat)
    requires ValidFleet(f) && k < |f.order| == |turns| && i <= |turns| && Uncancelled(turns)
    requires SameAhead(f, i, lane, begun)
    requires lane.log.calls[f.order[k]] == begun.log.calls[f.order[k]] +
               (if k < i && TriedAt(f, turns, k, begun, retry) && Called(turns[k].attempt) then 1 else 0)
    ensures Pass(f, turns, i, lane, retry).log.calls[f.order[k]] == begun.log.calls[f.order[k]] +
              (if TriedAt(f, turns, k, begun, retry) && Called(turns[k].attempt) then 1 else 0)
    decreases |turns| - i
  {
    if i < |turns| {
      assert turns[i] in turns;
      PassCallsFrom(f, turns, i + 1, AtLoad(f, lane, f.order[i], turns[i], retry), begun, retry, k);
    }
  }

  /** And it calls each load it tries once at most: a first pass calls every load not already off whose stop was
      not rejected, a retry only deferred ones; loads with a battery policy are not its business. */
  lemma PassCallsExactlyTheTried(f: Fleet, lane: Lane, c: Cycle, k: nat)
    requires ValidFleet(f) && c.SourceLost? && Fits(f, c) && k < |f.order|
    requires c.auto && !c.sweepCancelled && Uncancelled(c.turns)
    ensures Step(f, lane, c).log.calls[f.order[k]] ==
      (if lane.handled then lane.log.calls[f.order[k]] else 0) +
      (if (lane.handled ==> f.order[k] in lane.deferred) && !c.turns[k].confirmedOff && f.order[k] !in f.battery
          && (c.turns[k].attempt == Confirmed || c.turns[k].attempt == Failed(true)) then 1 else 0)
  {
    var begun := if lane.handled then lane else Lane(true, {}, EMPTY);
    PassCallsFrom(f, c.turns, 0, begun, begun, lane.handled, k);
  }

  /** A cancellation at position j, the first of its pass, at a load the pass was trying. */
  ghost predicate FirstCancelledAt(f: Fleet, turns: seq<Turn>, j: nat, begun: Lane, retry: bool)
    requires |f.order| == |turns| && j < |turns|
  {
    && turns[j].attempt.Cancelled? && TriedAt(f, turns, j, begun, retry)
    && forall i :: 0 <= i < j ==> !turns[i].attempt.Cancelled?
  }

  lemma {:induction false} CancelledFrom(
      f: Fleet, turns: seq<Turn>, i: nat, lane: Lane, begun: Lane, retry: bool, j: nat, k: nat)
    requires ValidFleet(f) && i <= j < k < |f.order| == |turns| && SameAhead(f, i, lane, begun)
    requires FirstCancelledAt(f, turns, j, begun, retry)
    requires lane.log.calls[f.order[k]] == begun.log.calls[f.order[k]]
    ensures var after := Pass(f, turns, i, lane, retry);
      && (f.order[k] in after.deferred <==> f.order[k] in begun.deferred)
      && after.log.calls[f.order[k]] == begun.log.calls[f.order[k]]
    decreases j - i
  {
    var next := AtLoad(f, lane, f.order[i], turns[i], retry);
    if i < j { CancelledFrom(f, turns, i + 1, next, begun, retry, j, k); }
  }

  /** A cancelled pass goes no further: the loads after the one it struck are neither called nor deferred anew. */
  lemma CancellationEndsThePass(f: Fleet, lane: Lane, c: Cycle, j: nat, k: nat)
    requires ValidFleet(f) && c.SourceLost? && Fits(f, c) && j < k < |f.order| && c.auto && !c.sweepCancelled
    requires c.turns[j].attempt.Cancelled? && !c.turns[j].confirmedOff && f.order[j] !in f.battery
    requires lane.handled ==> f.order[j] in lane.deferred
    requires forall i :: 0 <= i < j ==> !c.turns[i].attempt.Cancelled?
    ensures var after := Step(f, lane, c);
      && (f.order[k] in after.deferred <==> lane.handled && f.order[k] in lane.deferred)
      && after.log.calls[f.order[k]] == if lane.handled then lane.log.calls[f.order[k]] else 0
  {
    var begun := if lane.handled then lane else Lane(true, {}, EMPTY);
    CancelledFrom(f, c.turns, 0, begun, begun, lane.handled, j, k);
  }

  /** Outside automatic mode a loss is only noted: the incident counts as handled and nothing is deferred or
      called, so nothing is retried if automatic mode is entered later in the same incident. */
  lemma OutsideAutoALossIsOnlyNoted(f: Fleet, lane: Lane, turns: seq<Turn>, sweepCancelled: bool)
    requires |turns| == |f.order|
    ensures var after := Step(f, lane, SourceLost(false, sweepCancelled, turns));
      after.handled && (if lane.handled then after == lane else after.deferred == {} && after.log.calls == multiset{})
  {}

  /** A known incident with nothing deferred, or whose battery sweep was cancelled, leaves the lane alone. */
  lemma NothingToRetry(f: Fleet, lane: Lane, auto: bool, sweepCancelled: bool, turns: seq<Turn>)
    requires |turns| == |f.order| && lane.handled && (lane.deferred == {} || (auto && sweepCancelled))
    ensures Step(f, lane, SourceLost(auto, sweepCancelled, turns)) == lane
  {}

  // ---------- After the source returns ----------

  /** Cycles that stay in the incident of the moment. */
  predicate SameIncident(cs: seq<Cycle>) { forall c :: c in cs ==> c.SourceLost? || c.Elsewhere? }

  lemma {:induction false} NothingDeferredNothingTried(f: Fleet, lane: Lane, cs: seq<Cycle>)
    requires (forall c :: c in cs ==> Fits(f, c)) && SameIncident(cs) && lane.handled && lane.deferred == {}
    ensures Lanes(f, lane, cs) == lane
  {
    if cs != [] {
      assert cs[0] in cs && Step(f, lane, cs[0]) == lane;
      NothingDeferredNothingTried(f, lane, cs[1..]);
    }
  }

  /** A deferred stop is never replayed: once the source has been seen present nothing is deferred.
      If the telemetry fault was still latched then, the next loss of the source counts as the same
      incident and this lane stops nothing; otherwise the next loss is a new first pass. */
  lemma ReturnForgetsDeferrals(f: Fleet, lane: Lane, latched: bool, cs: seq<Cycle>)
    requires (forall c :: c in cs ==> Fits(f, c)) && SameIncident(cs)
    ensures var back := Step(f, lane, SourceOk(latched));
      && back.deferred == {}
      && (back.handled <==> lane.handled && latched)
      && (back.handled ==> Lanes(f, back, cs) == back)
  {
    var back := Step(f, lane, SourceOk(latched));
    if back.handled { NothingDeferredNothingTried(f, back, cs); }
  }
}
