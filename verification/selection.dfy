/** Which load is restored next: states.py, selection.py and coordinator.py. */
module Selection {
  import opened Prelude
  import opened Ownership

  /** A load is on or off only when all its members agree; otherwise nobody knows. */
  function LogicalState(members: seq<Option<bool>>): (r: Option<bool>)
    ensures r == Some(false) <==> members != [] && forall m :: m in members ==> m == Some(false)
    ensures r == Some(true) <==> members != [] && forall m :: m in members ==> m == Some(true)
  {
    if members == [] || None in members then None
    else
      assert members[0] in members;
      if forall m :: m in members ==> m == Some(true) then Some(true)
    else if forall m :: m in members ==> m == Some(false) then Some(false)
    else None
  }

  /** What the gates read about one configured load at one instant. */
  datatype LoadView = LoadView(
    members: seq<Option<bool>>,
    expectedPower: real,
    pauseActive: bool,
    requestPermits: bool)

  datatype House = House(
    loads: map<DeviceId, LoadView>,
    faulted: set<DeviceId>,
    quarantined: set<DeviceId>,
    lowestLimit: real,
    currentLoad: real)

  /** `_restore_eligible`, for a queue entry that may no longer be configured. */
  predicate Eligible(h: House, d: DeviceId) {
    && d in h.loads && d !in h.faulted && d !in h.quarantined
    && LogicalState(h.loads[d].members) == Some(false) && !h.loads[d].pauseActive
    && h.currentLoad + Max(0.0, h.loads[d].expectedPower) < h.lowestLimit
  }

  /** A ticket left by a telemetry loss is never replayed. */
  predicate CauseAllows(ts: seq<Ticket>, recoverable: set<string>, d: DeviceId) {
    var t := Lookup(ts, d);
    t.Some? ==> t.value.cause !in recoverable
  }

  /** Every gate between the queue and the choice of one load. */
  predicate Passes(h: House, ts: seq<Ticket>, recoverable: set<string>, d: DeviceId) {
    Eligible(h, d) && CauseAllows(ts, recoverable, d) && h.loads[d].requestPermits
  }

  /** A queued load passes iff it is configured, not faulted or quarantined, not paused, has members and every
      one reads off, leaves room for its expected power below the lowest limit, has an owner who
      permits it, and was not stopped for a cause that is never undone. */
  lemma PassesIff(h: House, ts: seq<Ticket>, recoverable: set<string>, d: DeviceId)
    requires OnePerDevice(ts)
    ensures Passes(h, ts, recoverable, d) <==>
      && d in h.loads && d !in h.faulted && d !in h.quarantined
      && h.loads[d].members != [] && (forall m :: m in h.loads[d].members ==> m == Some(false))
      && !h.loads[d].pauseActive && h.loads[d].requestPermits
      && h.currentLoad < h.lowestLimit && h.currentLoad + h.loads[d].expectedPower < h.lowestLimit
      && forall t :: t in ts && t.device == d ==> t.cause !in recoverable
  {
    forall t | t in ts && t.device == d ensures Lookup(ts, d) == Some(t) {
      var i :| 0 <= i < |ts| && ts[i] == t;
      TicketAt(ts, i);
    }
  }

  /** The queue entries that pass, from the latest shed to the earliest. */
  function LatestFirst(h: House, ts: seq<Ticket>, recoverable: set<string>, pending: seq<DeviceId>): (r: seq<DeviceId>)
    ensures forall d :: d in r <==> d in pending && Passes(h, ts, recoverable, d)
  {
    if pending == [] then []
    else LatestFirst(h, ts, recoverable, pending[1..]) +
         (if Passes(h, ts, recoverable, pending[0]) then [pending[0]] else [])
  }

  method RestoreCandidates(h: House, pending: seq<DeviceId>, ts: seq<Ticket>, recoverable: set<string>)
    returns (candidates: seq<DeviceId>)
    ensures candidates == LatestFirst(h, ts, recoverable, pending)
    ensures candidates == [] <==> forall i :: 0 <= i < |pending| ==> !Passes(h, ts, recoverable, pending[i])
    ensures candidates != [] ==>
      exists i :: LatestPassing(h, ts, recoverable, pending, i) && pending[i] == candidates[0]
  {
    candidates := [];
    var i := |pending|;
    while i > 0
      invariant 0 <= i <= |pending|
      invariant candidates == LatestFirst(h, ts, recoverable, pending[i..])
      invariant candidates == [] ==> forall j :: i <= j < |pending| ==> !Passes(h, ts, recoverable, pending[j])
      invariant candidates != [] ==>
        exists j :: i <= j < |pending| && LatestPassing(h, ts, recoverable, pending, j) && pending[j] == candidates[0]
    {
      i := i - 1;
      assert pending[i..][1..] == pending[i + 1..];
      if Passes(h, ts, recoverable, pending[i]) {
        ghost var before := candidates;
        candidates := candidates + [pending[i]];
        if before == [] { assert LatestPassing(h, ts, recoverable, pending, i); }
      }
    }
    assert pending[0..] == pending;
  }

  /** Position i passes every gate and everything shed after it fails one. */
  ghost predicate LatestPassing(h: House, ts: seq<Ticket>, recoverable: set<string>, pending: seq<DeviceId>, i: int) {
    && 0 <= i < |pending| && Passes(h, ts, recoverable, pending[i])
    && forall j :: i < j < |pending| ==> !Passes(h, ts, recoverable, pending[j])
  }

  datatype Choice = NoCandidate | Restore(ticket: Ticket)

  /** The head of `_perform_restore`: the one load this cycle may restore. The queue is always
      the ticket keys, so the branch for a queued load without a ticket has no case here. */
  method ChooseRestore(h: House, owner: RestoreTransactions, recoverable: set<string>) returns (c: Choice)
    requires owner.Valid()
    ensures c.NoCandidate? <==> forall d :: d in owner.pending ==> !Passes(h, owner.tickets, recoverable, d)
    ensures c.Restore? ==> Passes(h, owner.tickets, recoverable, c.ticket.device) && c.ticket in owner.tickets
    ensures c.Restore? ==> exists i ::
      LatestPassing(h, owner.tickets, recoverable, owner.pending, i) && owner.tickets[i] == c.ticket
  {
    var candidates := RestoreCandidates(h, owner.pending, owner.tickets, recoverable);
    if candidates == [] {
      return NoCandidate;
    }
    ghost var i :| LatestPassing(h, owner.tickets, recoverable, owner.pending, i) && owner.pending[i] == candidates[0];
    TicketAt(owner.tickets, i);
    var t := Lookup(owner.tickets, candidates[0]);
    c := Restore(t.value);
  }

  /** The ticket looked up for a queued load stands where the load is queued. */
  lemma TicketAt(ts: seq<Ticket>, i: nat)
    requires OnePerDevice(ts) && i < |ts|
    ensures Lookup(ts, ts[i].device) == Some(ts[i])
  {
    assert Holds(ts, ts[i].device);
    var t := Lookup(ts, ts[i].device).value;
    var k :| 0 <= k < |ts| && ts[k] == t;
    assert k == i;
  }
}
