/**
 * When a call is permitted, condition by condition, and what closes the gate: the permission checks,
 * shutdown, mode changes and quarantine clears of coordinator.py.
 */
module ProtocolControl {
  import opened Prelude
  import opened Ownership
  import opened Protocol
  import opened ProtocolJournal
  import F = Fences
  import J = Journal

  // ---------- Permission, both ways ----------

  /** An ordinary stop is permitted iff the gate is open, the load reads valid, the source is present and
      good, and no telemetry fault or source loss stands. */
  lemma OrdinaryStopIsPermittedIff(m: Mem, w: World, source: Source)
    ensures OffPermitted(m, w, false, source) <==>
      && m.mode == Auto && !m.stopping && !m.storageInvalid && !m.reconfigure
      && w.loadValid && w.sourceAvailable && w.sourceOk && m.telemetry == NoFault && !m.sourceLoss
  {}

  /** An emergency stop is permitted iff the gate is open and, unless the evaluator itself failed, the source
      is present and lost, and no battery carries the load where its policy counts. Telemetry faults do
      not stop it. */
  lemma EmergencyStopIsPermittedIff(m: Mem, w: World, source: Source)
    ensures OffPermitted(m, w, true, source) <==>
      && m.mode == Auto && !m.stopping && !m.storageInvalid && !m.reconfigure
      && (|| source == Emergency
          || (&& w.sourceAvailable && !w.sourceOk
              && (source == GridLoss || source == BatteryMinimum || source == ManualReshed ==> !w.batteryPermits)))
  {}

  /** A start is permitted iff an ordinary stop would be, no fence is pending, and the very ticket still
      stands: its cause restorable, its target this command, its deadline ahead; no flag, no pause, load
      and actuator off, an intent permitting it, room below the lowest limit, the window mature. */
  lemma StartIsPermittedIff(m: Mem, w: World, d: DeviceId, t: Ticket)
    requires OnePerDevice(m.own.tickets)
    ensures OnPermitted(m, w, d, t) <==>
      && m.mode == Auto && !m.stopping && !m.storageInvalid && !m.reconfigure
      && w.loadValid && w.sourceAvailable && w.sourceOk && m.telemetry == NoFault && !m.sourceLoss
      && m.own.fences.shed.generation.None? && m.own.fences.restore.generation.None?
      && t in m.own.tickets && t.device == d && w.now < t.expiresAt
      && t.cause !in {"safety_telemetry_unavailable", "load_unavailable", "load_unsupported_unit",
                      "load_invalid_value", "load_stale"}
      && t.restore.entity == w.commandEntity && t.restore.climate == w.climate
      && d !in m.faulted && d !in m.quarantined && (d in m.own.pauses ==> m.own.pauses[d] <= w.now)
      && w.loadOff && w.actuatorOff && w.requestPermits
      && w.load + w.expectedPower < w.lowestLimit && w.windowMatured
  {
    LookupIsMember(m.own.tickets, t, d);
  }

  /** The first call of a dispatch may be made iff its transition is permitted, and is what its kind says. */
  lemma FirstCallIsEnabledIff(s: Sys, verb: Verb, w: World)
    requires s.task.Transition? && s.task.stage == Dispatching(Start)
    ensures var t := s.task.t;
      Enabled(s, Issue(verb, w)) <==>
        match t.kind
        case SwitchOff(emergency, source, _, _) => verb == TurnOff && OffPermitted(s.mem, w, emergency, source)
        case SwitchOn(ticket) =>
          && verb == (if w.climate && ticket.restore.temperature.Some? then SetTemperature else TurnOn)
          && OnPermitted(s.mem, w, t.device, ticket)
  {}

  /** And it may be denied iff it is not permitted. */
  lemma FirstCallIsDeniedIff(s: Sys, w: World)
    requires s.task.Transition? && s.task.stage == Dispatching(Start)
    ensures var t := s.task.t;
      Enabled(s, Deny(w)) <==>
        match t.kind
        case SwitchOff(emergency, source, _, _) => !OffPermitted(s.mem, w, emergency, source)
        case SwitchOn(ticket) => !OnPermitted(s.mem, w, t.device, ticket)
  {}

  // ---------- What closes the gate ----------

  /** Shutdown, unreadable storage and a pending reconfiguration last as long as the process. */
  predicate Closed(m: Mem) { m.stopping || m.storageInvalid || m.reconfigure }

  lemma DispatchStepStaysClosed(s: Sys, l: Label)
    requires Enabled(s, l) && DispatchLabel(l) && Closed(s.mem)
    ensures Closed(Apply(s, l).mem) && Apply(s, l).calls == s.calls
  {}

  lemma OtherStepStaysClosed(s: Sys, l: Label)
    requires Enabled(s, l) && !DispatchLabel(l) && !l.Restart? && Closed(s.mem)
    ensures Closed(Apply(s, l).mem) && Apply(s, l).calls == s.calls
  {}

  ghost predicate NoRestart(ls: seq<Label>) { forall l :: l in ls ==> !l.Restart? }

  lemma {:induction false} ClosedProcessCallsNothing(s: Sys, ls: seq<Label>)
    requires Run(s, ls) && NoRestart(ls) && Closed(s.mem)
    ensures Exec(s, ls).calls == s.calls
    decreases |ls|
  {
    if ls != [] {
      assert ls[0] in ls;
      if DispatchLabel(ls[0]) { DispatchStepStaysClosed(s, ls[0]); } else { OtherStepStaysClosed(s, ls[0]); }
      ClosedProcessCallsNothing(Apply(s, ls[0]), ls[1..]);
    }
  }

  /** Shutdown is final: once it is requested, whatever is under way, this process calls nothing more. */
  lemma ShutdownIsFinal(s: Sys, ls: seq<Label>)
    requires Run(Apply(s, Shutdown), ls) && NoRestart(ls)
    ensures Exec(Apply(s, Shutdown), ls).calls == s.calls
  {
    ClosedProcessCallsNothing(Apply(s, Shutdown), ls);
  }

  /** An intent that could not be saved closes the gate for the rest of the process. */
  lemma FailedIntentSaveIsFinal(s: Sys, ls: seq<Label>)
    requires Enabled(s, IntentSaveFailed) && Run(Apply(s, IntentSaveFailed), ls) && NoRestart(ls)
    ensures Exec(Apply(s, IntentSaveFailed), ls).calls == s.calls
  {
    ClosedProcessCallsNothing(Apply(s, IntentSaveFailed), ls);
  }

  /** Neither in automatic mode nor on the way back to it. */
  predicate NotAuto(s: Sys) { s.mem.mode != Auto && (s.task.ChangingMode? ==> s.task.previous != Auto) }

  lemma DispatchStepStaysOutside(s: Sys, l: Label)
    requires Enabled(s, l) && DispatchLabel(l) && NotAuto(s)
    ensures NotAuto(Apply(s, l)) && Apply(s, l).calls == s.calls
  {}

  lemma OtherStepStaysOutside(s: Sys, l: Label)
    requires Enabled(s, l) && !DispatchLabel(l) && !l.Restart? && l != SetMode(Auto) && NotAuto(s)
    ensures NotAuto(Apply(s, l)) && Apply(s, l).calls == s.calls
  {}

  /** Outside automatic mode nothing is called until someone sets it or a new process recovers it. */
  lemma {:induction false} OutsideAutoNothingIsCalled(s: Sys, ls: seq<Label>)
    requires Run(s, ls) && NoRestart(ls) && SetMode(Auto) !in ls && NotAuto(s)
    ensures Exec(s, ls).calls == s.calls && Exec(s, ls).mem.mode != Auto
    decreases |ls|
  {
    if ls != [] {
      assert ls[0] in ls;
      if DispatchLabel(ls[0]) { DispatchStepStaysOutside(s, ls[0]); } else { OtherStepStaysOutside(s, ls[0]); }
      OutsideAutoNothingIsCalled(Apply(s, ls[0]), ls[1..]);
    }
  }

  // ---------- A mode change ----------

  /** When a mode may be set: any, but automatic only with readable storage and a usable configuration. */
  lemma ModeMayBeSetIff(s: Sys, mode: Mode)
    requires s.task == Idle
    ensures Enabled(s, SetMode(mode)) <==> (mode == Auto ==> !s.mem.storageInvalid && !s.mem.reconfigure)
  {}

  /** The task has not come back from its save. */
  ghost predicate StillSaving(ls: seq<Label>) {
    forall l :: l in ls ==> !l.Resume? && !l.Cancel? && !l.Restart?
  }

  ghost predicate ChangingTo(s: Sys, previous: Mode, mode: Mode) {
    && s.task.ChangingMode? && s.task.previous == previous && s.mem.mode == mode
    && (s.task.written ==> Contents(s.disk).mode == Some(mode))
  }

  lemma ChangingStep(s: Sys, l: Label, previous: Mode, mode: Mode)
    requires Enabled(s, l) && ChangingTo(s, previous, mode) && !l.Resume? && !l.Cancel? && !l.Restart?
    ensures ChangingTo(Apply(s, l), previous, mode)
  {}

  lemma {:induction false} ChangingRun(s: Sys, ls: seq<Label>, previous: Mode, mode: Mode)
    requires Run(s, ls) && ChangingTo(s, previous, mode) && StillSaving(ls)
    ensures ChangingTo(Exec(s, ls), previous, mode)
    decreases |ls|
  {
    if ls != [] {
      assert ls[0] in ls;
      ChangingStep(s, ls[0], previous, mode);
      ChangingRun(Apply(s, ls[0]), ls[1..], previous, mode);
    }
  }

  /** A mode change is all or nothing: when its save returns, the new mode is in memory and on disk; when its
      save fails, memory has the old mode back, whatever reached disk meanwhile. */
  lemma ModeChangeIsAllOrNothing(s: Sys, mode: Mode, ls: seq<Label>)
    requires Enabled(s, SetMode(mode)) && Run(Apply(s, SetMode(mode)), ls) && StillSaving(ls)
    ensures var e := Exec(Apply(s, SetMode(mode)), ls);
      && e.mem.mode == mode && Enabled(e, Resume(false))
      && (Enabled(e, Resume(true)) ==>
            Apply(e, Resume(true)).mem.mode == mode && Contents(Apply(e, Resume(true)).disk).mode == Some(mode))
      && Apply(e, Resume(false)).mem.mode == s.mem.mode
      && Apply(e, Resume(false)).task == Idle
  {
    ChangingRun(Apply(s, SetMode(mode)), ls, s.mem.mode, mode);
  }

  // ---------- A quarantine clear ----------

  ghost predicate ClearingOut(s: Sys, d: DeviceId) {
    && s.task.Clearing? && s.task.device == d && d !in s.mem.faulted && d !in s.mem.quarantined
    && (s.task.written ==> UnflaggedOnDisk(s.disk, d))
  }

  ghost predicate UnflaggedOnDisk(disk: Disk, d: DeviceId) {
    disk.Stored? && disk.d.flags.Present? && d !in disk.d.flags.v.faulted && d !in disk.d.flags.v.quarantined
  }

  lemma ClearingStep(s: Sys, l: Label, d: DeviceId)
    requires Enabled(s, l) && ClearingOut(s, d) && !l.Resume? && !l.Cancel? && !l.Restart?
    ensures ClearingOut(Apply(s, l), d)
  {}

  lemma {:induction false} ClearingRun(s: Sys, ls: seq<Label>, d: DeviceId)
    requires Run(s, ls) && ClearingOut(s, d) && StillSaving(ls)
    ensures ClearingOut(Exec(s, ls), d)
    decreases |ls|
  {
    if ls != [] {
      assert ls[0] in ls;
      ClearingStep(s, ls[0], d);
      ClearingRun(Apply(s, ls[0]), ls[1..], d);
    }
  }

  /** A clear that succeeds has lifted the flags in memory and on disk; one whose save fails has put them back
      in memory, whether or not they were up before both. */
  lemma ClearIsDurableOrUndone(s: Sys, d: DeviceId, ls: seq<Label>)
    requires Enabled(s, Clear(d)) && Run(Apply(s, Clear(d)), ls) && StillSaving(ls)
    ensures var e := Exec(Apply(s, Clear(d)), ls);
      && (Enabled(e, Resume(true)) ==>
            && d !in Apply(e, Resume(true)).mem.faulted && d !in Apply(e, Resume(true)).mem.quarantined
            && UnflaggedOnDisk(Apply(e, Resume(true)).disk, d))
      && Enabled(e, Resume(false))
      && d in Apply(e, Resume(false)).mem.faulted && d in Apply(e, Resume(false)).mem.quarantined
  {
    ClearingRun(Apply(s, Clear(d)), ls, d);
  }

  // ---------- Between transitions ----------

  /** A start may begin iff its ticket is the load's own and no fence is pending. */
  lemma StartMayBeginIff(s: Sys, t: Txn)
    requires s.task == Idle && FreshId(s, t) && t.device in s.configured && t.before == s.mem.own
    requires t.kind.SwitchOn? && OnePerDevice(s.mem.own.tickets)
    ensures Enabled(s, Begin(t)) <==>
      && t.kind.ticket in s.mem.own.tickets && t.kind.ticket.device == t.device
      && s.mem.own.fences.shed.generation.None? && s.mem.own.fences.restore.generation.None?
  {
    LookupIsMember(s.mem.own.tickets, t.kind.ticket, t.device);
  }

  lemma LookupIsMember(ts: seq<Ticket>, t: Ticket, d: DeviceId)
    requires OnePerDevice(ts)
    ensures Lookup(ts, d) == Some(t) <==> t in ts && t.device == d
  {
    if t in ts && t.device == d {
      var i :| 0 <= i < |ts| && ts[i] == t;
      assert Holds(ts, d);
      var found := Lookup(ts, d).value;
      var k :| 0 <= k < |ts| && ts[k] == found;
      assert i == k;
    }
  }

  /** A stop without a fence may begin at any time, but an ordinary one not on a quarantined load. */
  lemma StopMayBeginIff(s: Sys, t: Txn)
    requires s.task == Idle && FreshId(s, t) && t.device in s.configured && t.before == s.mem.own
    requires t.kind.SwitchOff? && (t.kind.commit.Keep? ==> !t.kind.commit.fenced)
    ensures Enabled(s, Begin(t)) <==> t.kind.emergency || t.device !in s.mem.quarantined
  {}

  /** Nothing of a process changes but its tickets. */
  ghost predicate OnlyTickets(s: Sys, s': Sys) {
    s' == s.(mem := s.mem.(own := s.mem.own.(tickets := s'.mem.own.tickets)))
  }

  /** Cancelling a restore drops that load's ticket and nothing else. */
  lemma CancelledRestore(s: Sys, d: DeviceId)
    requires s.task == Idle && OnePerDevice(s.mem.own.tickets)
    ensures Enabled(s, Retire(d)) && OnlyTickets(s, Apply(s, Retire(d)))
    ensures var after := Apply(s, Retire(d)).mem.own.tickets;
      Subsequence(after, s.mem.own.tickets) && forall t :: t in after <==> t in s.mem.own.tickets && t.device != d
  {
    WithoutMembers(s.mem.own.tickets, d);
    WithoutIsSubsequence(s.mem.own.tickets, d);
  }

  /** Reconciling drops the tickets past their deadline or without a live intent, and nothing else. */
  lemma ReconciledTickets(s: Sys, v: Intents, now: Time)
    requires s.task == Idle
    ensures Enabled(s, Reconcile(v, now)) && OnlyTickets(s, Apply(s, Reconcile(v, now)))
    ensures var after := Apply(s, Reconcile(v, now)).mem.own.tickets;
      && Subsequence(after, s.mem.own.tickets)
      && forall t :: t in after <==>
           && t in s.mem.own.tickets && now < t.expiresAt
           && exists k :: k in v && k.0 == t.device && v[k].active && now < v[k].expiresAt
  {
    KeptAreUnexpiredAndLive(s.mem.own.tickets, v, now);
  }

  /** A fault that an evaluation latches faults and quarantines the load. */
  lemma LatchedFault(s: Sys, d: DeviceId)
    requires s.task == Idle && d in s.configured
    ensures Enabled(s, LatchFault(d))
    ensures var m := Apply(s, LatchFault(d)).mem;
      m == s.mem.(faulted := s.mem.faulted + {d}, quarantined := s.mem.quarantined + {d})
  {}

  /** A clear may be granted iff the load is flagged either way. */
  lemma ClearMayBeGrantedIff(s: Sys, d: DeviceId)
    requires s.task == Idle && d in s.configured
    ensures Enabled(s, Clear(d)) <==> d in s.mem.faulted || d in s.mem.quarantined
  {}

  /** What an evaluation notes that is no unfinished action reaches the journal as its newest record. */
  lemma NotedRecord(s: Sys, e: J.Event, at: Time)
    requires s.task == Idle && J.Storable(e) && !J.IsUnresolved(e) && J.NormalForm(s.mem.journal)
    requires FreeOf(s.mem.journal, J.IdOf(J.Normalize(e, at).value))
    ensures Enabled(s, Note(e, at))
    ensures var h := Apply(s, Note(e, at)).mem.journal;
      h != [] && h[|h| - 1] == J.Normalize(e, at).value && Apply(s, Note(e, at)) == s.(mem := s.mem.(journal := h))
  {
    J.NewActionGoesLast(s.mem.journal, e, at);
  }

  // ---------- What a confirmed transition leaves ----------

  lemma ConfirmedPauses(t: Txn, o: Owned, now: Time, pauseUntil: Option<Time>, stamp: Time, g: nat, d: DeviceId)
    ensures var c := CommitOwned(t, o, now, pauseUntil, stamp, g);
      && (t.kind.SwitchOn? || d != t.device ==>
            (d in c.pauses <==> d in o.pauses) && (d in o.pauses ==> c.pauses[d] == o.pauses[d]))
      && (t.kind.SwitchOff? && d == t.device ==>
            (d in c.pauses <==> pauseUntil.Some?) && (pauseUntil.Some? ==> c.pauses[d] == pauseUntil.value))
  {}

  /** A confirmed stop pauses its load; where it keeps a ticket, the load's only ticket is the new one, last in
      the queue and good for a day; a policy shed also puts up the shed barrier. Nothing else changes. */
  lemma ConfirmedStop(t: Txn, o: Owned, now: Time, pauseUntil: Option<Time>, stamp: Time, g: nat)
    requires t.kind.SwitchOff?
    ensures var c := CommitOwned(t, o, now, pauseUntil, stamp, g);
      match t.kind.commit
      case PauseOnly => c.tickets == o.tickets && c.fences == o.fences
      case Keep(cause, restore, fenced) =>
        && |c.tickets| > 0
        && c.tickets[|c.tickets| - 1] == Ticket(t.device, cause, t.operation, now, now + 86400.0, restore)
        && Subsequence(c.tickets[..|c.tickets| - 1], o.tickets)
        && (forall x :: x in c.tickets[..|c.tickets| - 1] <==> x in o.tickets && x.device != t.device)
        && c.fences.restore == o.fences.restore
        && c.fences.shed == if fenced then F.Fence(Some(g), Some(stamp)) else o.fences.shed
  {
    var c := CommitOwned(t, o, now, pauseUntil, stamp, g);
    WithoutMembers(o.tickets, t.device);
    WithoutIsSubsequence(o.tickets, t.device);
    if t.kind.commit.Keep? { assert c.tickets[..|c.tickets| - 1] == Without(o.tickets, t.device); }
  }

  /** A confirmed start spends its load's ticket and puts up the restore barrier. Nothing else changes. */
  lemma ConfirmedStart(t: Txn, o: Owned, now: Time, pauseUntil: Option<Time>, stamp: Time, g: nat)
    requires t.kind.SwitchOn?
    ensures var c := CommitOwned(t, o, now, pauseUntil, stamp, g);
      && Subsequence(c.tickets, o.tickets) && (forall x :: x in c.tickets <==> x in o.tickets && x.device != t.device)
      && c.fences.shed == o.fences.shed && c.fences.restore == F.Fence(Some(g), Some(stamp))
      && c.pauses == o.pauses
  {
    WithoutMembers(o.tickets, t.device);
    WithoutIsSubsequence(o.tickets, t.device);
  }

  // ---------- Cancellation ----------

  /** A cancelled mode change or clear is not undone: nobody handles a cancellation there. */
  lemma CancelledChangeStays(s: Sys)
    requires s.task.ChangingMode? || s.task.Clearing?
    ensures Enabled(s, Cancel) && Apply(s, Cancel) == s.(task := Idle)
  {}
}
