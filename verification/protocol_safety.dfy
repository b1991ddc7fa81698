/** Conservation, atomicity and permission over every run of the protocol. */
module ProtocolSafety {
  import opened Prelude
  import opened Ownership
  import opened Protocol
  import opened ProtocolJournal
  import J = Journal
  import F = Fences
  import TS = TicketStore

  // ---------- Restore credit ----------

  /** The restore whose ON call is out and not yet settled. */
  predicate OnIssued(task: Task, d: DeviceId) {
    && task.Transition? && task.t.device == d && task.t.kind.SwitchOn?
    && task.stage.Dispatching? && task.stage.p.AwaitingReadback?
  }

  /** Memory could still authorize an ON call for the load. */
  predicate MemCredit(s: Sys, d: DeviceId) {
    Holds(s.mem.own.tickets, d) && !Flagged(s.mem, d) && !OnIssued(s.task, d)
  }

  /** A recovery from disk could still authorize one. */
  predicate DiskCredit(disk: Disk, configured: set<DeviceId>, d: DeviceId) {
    var c := Contents(disk);
    c.tickets.Present? && Holds(c.tickets.v, d) && !DiskFlagged(c, configured, d)
  }

  function Credit(s: Sys, d: DeviceId): nat {
    if MemCredit(s, d) || DiskCredit(s.disk, s.configured, d) then 1 else 0
  }

  function OnCalls(cs: seq<Call>, d: DeviceId): nat {
    if cs == [] then 0
    else OnCalls(cs[..|cs| - 1], d) +
         (if cs[|cs| - 1].verb == TurnOn && cs[|cs| - 1].txn.device == d then 1 else 0)
  }

  /** ON calls made and still possible, less what tickets and granted clears have paid for. */
  function Balance(s: Sys, d: DeviceId): int {
    OnCalls(s.calls, d) + Credit(s, d) - s.created[d] - s.cleared[d]
  }

  ghost predicate Nameable(s: Sys, d: DeviceId) { d in s.configured && |d| <= J.MAX_FIELD_LENGTH }

  lemma HoldsWithout(ts: seq<Ticket>, d: DeviceId, e: DeviceId)
    ensures Holds(Without(ts, e), d) <==> Holds(ts, d) && d != e
  {
    WithoutMembers(ts, e);
    var w := Without(ts, e);
    forall i | 0 <= i < |w| && w[i].device == d ensures Holds(ts, d) && d != e {
      assert w[i] in ts;
    }
    forall i | 0 <= i < |ts| && ts[i].device == d && d != e ensures Holds(w, d) {
      assert ts[i] in w;
    }
  }

  lemma HoldsKept(ts: seq<Ticket>, v: Intents, now: Time, d: DeviceId)
    requires Holds(Kept(ts, v, now), d)
    ensures Holds(ts, d)
  {
    KeptMembers(ts, v, now);
    var k := Kept(ts, v, now);
    var i :| 0 <= i < |k| && k[i].device == d;
    assert k[i] in ts;
  }

  lemma HoldsReloaded(rows: seq<Ticket>, configured: set<DeviceId>, now: Time, d: DeviceId)
    requires Holds(TS.Reloaded(rows, configured, now), d)
    ensures Holds(rows, d)
  {
    var u := TS.Reloaded(rows, configured, now);
    var i :| 0 <= i < |u| && u[i].device == d;
    TS.ReloadedMembers(rows, configured, now, u[i]);
  }

  /** A save never gives disk a credit that memory does not have: an unsettled ON call is
      still the newest record and recovers as ambiguous. */
  lemma SnapshotCredit(s: Sys, d: DeviceId)
    requires JournalInv(s) && Nameable(s, d)
    requires DiskCredit(Snapshot(s.configured, s.mem), s.configured, d)
    ensures MemCredit(s, d)
  {
    if OnIssued(s.task, d) {
      SnapshotLatches(s, d);
    }
  }

  lemma RebootCredit(s: Sys, now: Time, reconfigure: bool, outcome: SaveOutcome, d: DeviceId)
    requires d in s.configured && Credit(Rebooted(s, now, reconfigure, outcome), d) == 1
    ensures DiskCredit(s.disk, s.configured, d)
  {
    var c := Contents(s.disk);
    var m := Recover(s.configured, s.disk, now, reconfigure);
    DiskFlaggedIsRecovered(s, d, now, reconfigure);
    if c.tickets.Present? && Holds(m.own.tickets, d) {
      HoldsReloaded(c.tickets.v, s.configured, now, d);
    }
  }

  lemma CommitHolds(t: Txn, o: Owned, now: Time, pauseUntil: Option<Time>, stamp: Time, g: nat, d: DeviceId)
    ensures var c := CommitOwned(t, o, now, pauseUntil, stamp, g);
      && (Holds(c.tickets, d) ==> Holds(o.tickets, d) || (d == t.device && CreatesTicket(t)))
      && (t.kind.SwitchOn? ==> !Holds(c.tickets, t.device))
  {
    HoldsWithout(o.tickets, d, t.device);
    HoldsWithout(o.tickets, t.device, t.device);
    var c := CommitOwned(t, o, now, pauseUntil, stamp, g);
    if CreatesTicket(t) {
      var w := Without(o.tickets, t.device);
      forall i | 0 <= i < |c.tickets| && c.tickets[i].device == d ensures Holds(w, d) || d == t.device {
        if i < |w| { assert w[i].device == d; }
      }
    }
  }

  /** A step that leaves disk and calls alone adds credit only by a new ticket or a lifted flag. */
  lemma SameDiskCredit(s: Sys, s': Sys, d: DeviceId)
    requires s'.configured == s.configured && s'.disk == s.disk && s'.calls == s.calls
    requires s'.created[d] >= s.created[d] && s'.cleared[d] >= s.cleared[d]
    requires MemCredit(s', d) && !MemCredit(s, d) ==> s'.created[d] + s'.cleared[d] > s.created[d] + s.cleared[d]
    ensures Balance(s', d) <= Balance(s, d)
  {}

  lemma ConfirmedCredit(s: Sys, l: Label, d: DeviceId)
    requires Enabled(s, l) && l.ReadBack?
    ensures Balance(Apply(s, l), d) <= Balance(s, d)
  {
    CommitHolds(s.task.t, s.mem.own, l.at, l.pauseUntil, l.stamp, s.mem.loadGeneration, d);
    SameDiskCredit(s, Apply(s, l), d);
  }

  lemma DispatchCredit(s: Sys, l: Label, d: DeviceId)
    requires JournalInv(s) && Nameable(s, d) && Enabled(s, l) && DispatchLabel(l)
    ensures Balance(Apply(s, l), d) <= Balance(s, d)
  {
    if l.Issue? {
      IssueCredit(s, l, d);
    } else if l.ReadBack? {
      ConfirmedCredit(s, l, d);
    } else {
      SameDiskCredit(s, Failing(s), d);
      if l.Deny? { SameDiskCredit(s, Finish(s, s.mem, J.Rejected), d); }
    }
  }

  predicate StartsLoad(s: Sys, l: Label, d: DeviceId) {
    l.Issue? && l.verb == TurnOn && s.task.Transition? && s.task.t.device == d
  }

  lemma IssueCounts(s: Sys, l: Label, d: DeviceId)
    requires Enabled(s, l) && l.Issue?
    ensures OnCalls(Apply(s, l).calls, d) == OnCalls(s.calls, d) + (if StartsLoad(s, l, d) then 1 else 0)
  {
    var after := Apply(s, l).calls;
    assert after[..|s.calls|] == s.calls;
  }

  lemma StartSpendsCredit(s: Sys, l: Label, d: DeviceId)
    requires JournalInv(s) && Nameable(s, d) && Enabled(s, l) && StartsLoad(s, l, d)
    ensures Credit(s, d) == 1 && Credit(Apply(s, l), d) == 0
  {
    CallGuardsItsLoad(s, l);
  }

  lemma OtherCallKeepsCredit(s: Sys, l: Label, d: DeviceId)
    requires Enabled(s, l) && l.Issue? && !StartsLoad(s, l, d)
    ensures Credit(Apply(s, l), d) <= Credit(s, d)
  {}

  /** An ON call spends the load's only credit: its ticket in memory was unflagged, and from
      now on neither memory nor any recovery authorizes another. */
  lemma IssueCredit(s: Sys, l: Label, d: DeviceId)
    requires JournalInv(s) && Nameable(s, d) && Enabled(s, l) && l.Issue?
    ensures Balance(Apply(s, l), d) <= Balance(s, d)
    ensures l.verb == TurnOn && s.task.t.device == d ==> Credit(s, d) == 1 && Credit(Apply(s, l), d) == 0
  {
    IssueCounts(s, l, d);
    if StartsLoad(s, l, d) { StartSpendsCredit(s, l, d); } else { OtherCallKeepsCredit(s, l, d); }
  }

  lemma FailureCredit(s: Sys, l: Label, d: DeviceId)
    requires Enabled(s, l) && (l.Resume? || l.Cancel?)
    ensures Balance(Apply(s, l), d) <= Balance(s, d)
  {
    if s.task.Transition? { HoldsWithout(s.mem.own.tickets, d, s.task.t.device); }
    if l.Cancel? { SameDiskCredit(s, Cancelled(s), d); } else { SameDiskCredit(s, AfterSave(s, l.ok), d); }
  }

  lemma SaveCredit(s: Sys, l: Label, d: DeviceId)
    requires JournalInv(s) && Nameable(s, d) && Enabled(s, l) && SaveLabel(l)
    ensures Balance(Apply(s, l), d) <= Balance(s, d)
  {
    match l
    case Restart(now, reconfigure, outcome) =>
      if Credit(Apply(s, l), d) == 1 { RebootCredit(s, now, reconfigure, outcome, d); }
    case Resume(_) => FailureCredit(s, l, d);
    case Cancel => FailureCredit(s, l, d);
    case _ =>
      if DiskCredit(Snapshot(s.configured, s.mem), s.configured, d) { SnapshotCredit(s, d); }
  }

  lemma StepConservesCredit(s: Sys, l: Label, d: DeviceId)
    requires JournalInv(s) && Nameable(s, d) && Enabled(s, l)
    ensures Balance(Apply(s, l), d) <= Balance(s, d)
  {
    if DispatchLabel(l) {
      DispatchCredit(s, l, d);
    } else if SaveLabel(l) {
      SaveCredit(s, l, d);
    } else if l.Reconcile? {
      if Holds(Kept(s.mem.own.tickets, l.intents, l.at), d) { HoldsKept(s.mem.own.tickets, l.intents, l.at, d); }
    } else if l.Retire? {
      HoldsWithout(s.mem.own.tickets, d, l.device);
    }
  }

  lemma {:induction false} RunConservesCredit(s: Sys, ls: seq<Label>, d: DeviceId)
    requires JournalInv(s) && Nameable(s, d) && Run(s, ls)
    ensures Balance(Exec(s, ls), d) <= Balance(s, d)
    decreases |ls|
  {
    if ls != [] {
      StepKeepsJournal(s, ls[0]);
      StepConservesCredit(s, ls[0], d);
      RunConservesCredit(Apply(s, ls[0]), ls[1..], d);
    }
  }

  /** Over every run, with any save failures, exceptions, cancellations, crashes and reloads:
      the ON calls made to a load never exceed the tickets created for it, the quarantine
      clears granted for it, and one if the run began with an unflagged ticket. */
  lemma RestoreCreditIsConserved(s0: Sys, s: Sys, d: DeviceId)
    requires Initial(s0) && Reaches(s0, s) && Nameable(s0, d)
    ensures OnCalls(s.calls, d) + Credit(s, d) <= s.created[d] + s.cleared[d] + Credit(s0, d)
  {
    InitialJournal(s0);
    var ls :| Run(s0, ls) && Exec(s0, ls) == s;
    RunConservesCredit(s0, ls, d);
  }

  // ---------- Atomic terminal commit ----------

  /** The ownership a confirmed transition leaves, for some clock, pause and report. */
  ghost predicate WholePostState(t: Txn, o: Owned) {
    exists now, pauseUntil, stamp, g :: o == CommitOwned(t, t.before, now, pauseUntil, stamp, g)
  }

  /** Memory holds the whole pre-state until the outcome is recorded, and then the whole outcome. */
  ghost predicate MemIsWhole(t: Txn, stage: Stage, o: Owned) {
    if stage.Saving? && stage.unwinding then true
    else if stage.Saving? && stage.phase == J.Confirmed then WholePostState(t, o)
    else o == t.before
  }

  /** The durable record's phase tells which of the two states disk holds. */
  ghost predicate DiskIsWhole(configured: set<DeviceId>, t: Txn, c: Durable) {
    && (Tail(c.journal, t, J.Prepared) || Tail(c.journal, t, J.Dispatched) || Tail(c.journal, t, J.Rejected) ==>
        OwnsExactly(c, t.before))
    && (Tail(c.journal, t, J.Confirmed) ==> exists o :: WholePostState(t, o) && OwnsExactly(c, o))
    && (Tail(c.journal, t, J.Failed) ==>
        t.device in DiskQuarantined(c, configured) && t.device in DiskFaulted(c, configured))
  }

  predicate OwnsExactly(c: Durable, o: Owned) {
    c.tickets == Present(o.tickets) && c.pauses == o.pauses && c.fences == o.fences
  }

  ghost predicate AtomicInv(s: Sys) {
    s.task.Transition? ==>
      && MemIsWhole(s.task.t, s.task.stage, s.mem.own)
      && (s.task.stage.Saving? && s.task.stage.phase == J.Failed ==>
          s.task.t.device in s.mem.faulted && s.task.t.device in s.mem.quarantined)
      && DiskIsWhole(s.configured, s.task.t, Contents(s.disk))
  }

  lemma TailIsUnique(h: seq<J.Event>, t: Txn, p: J.Phase, q: J.Phase)
    requires Tail(h, t, p) && Tail(h, t, q)
    ensures p == q
  {}

  /** Saving the memory of the moment stores exactly the state its own record announces. */
  lemma SnapshotIsWhole(s: Sys)
    requires JournalInv(s) && AtomicInv(s) && s.task.Transition?
    ensures DiskIsWhole(s.configured, s.task.t, Contents(Snapshot(s.configured, s.mem)))
  {
    var t := s.task.t;
    var c := Contents(Snapshot(s.configured, s.mem));
    forall p | Tail(c.journal, t, p) ensures p == PhaseOf(s.task.stage) {
      TailIsUnique(c.journal, t, p, PhaseOf(s.task.stage));
    }
    assert OwnsExactly(c, s.mem.own);
  }

  lemma FreeIsWhole(configured: set<DeviceId>, t: Txn, c: Durable)
    requires FreeOf(c.journal, TxnId(t))
    ensures DiskIsWhole(configured, t, c)
  {
    forall p ensures !Tail(c.journal, t, p) {
      if c.journal != [] { assert J.IdOf(c.journal[|c.journal| - 1]) != TxnId(t); }
    }
  }

  lemma DispatchIsAtomic(s: Sys, l: Label)
    requires AtomicInv(s) && Enabled(s, l) && DispatchLabel(l)
    ensures AtomicInv(Apply(s, l))
  {
    if l.ReadBack? {
      var own := CommitOwned(s.task.t, s.mem.own, l.at, l.pauseUntil, l.stamp, s.mem.loadGeneration);
      assert WholePostState(s.task.t, own);
    }
  }

  lemma SaveIsAtomic(s: Sys, l: Label)
    requires JournalInv(s) && AtomicInv(s) && Enabled(s, l) && SaveLabel(l)
    ensures AtomicInv(Apply(s, l))
  {
    if (l.ExtraSave? || l.Write?) && s.task.Transition? { SnapshotIsWhole(s); }
  }

  lemma StepIsAtomic(s: Sys, l: Label)
    requires JournalInv(s) && AtomicInv(s) && Enabled(s, l)
    ensures AtomicInv(Apply(s, l))
  {
    if DispatchLabel(l) {
      DispatchIsAtomic(s, l);
    } else if SaveLabel(l) {
      SaveIsAtomic(s, l);
    } else if l.Begin? {
      FreeIsWhole(s.configured, l.t, Contents(s.disk));
    }
  }

  lemma {:induction false} RunIsAtomic(s: Sys, ls: seq<Label>)
    requires JournalInv(s) && AtomicInv(s) && Run(s, ls)
    ensures AtomicInv(Exec(s, ls))
    decreases |ls|
  {
    if ls != [] {
      StepKeepsJournal(s, ls[0]);
      StepIsAtomic(s, ls[0]);
      RunIsAtomic(Apply(s, ls[0]), ls[1..]);
    }
  }

  /** Atomic commit: in every reachable state, if the durable record of the running action reads
      prepared, dispatched or rejected, disk holds the whole ownership from before it; if it
      reads confirmed, disk holds the whole outcome with ticket, pause and fence together. */
  lemma TerminalCommitIsAtomic(s0: Sys, s: Sys)
    requires Initial(s0) && Reaches(s0, s) && s.task.Transition?
    ensures DiskIsWhole(s.configured, s.task.t, Contents(s.disk))
  {
    InitialJournal(s0);
    var ls :| Run(s0, ls) && Exec(s0, ls) == s;
    RunIsAtomic(s0, ls);
  }

  // ---------- Permission at every call ----------

  /** The dispatch predicate of the transition that made the call held at that instant. */
  ghost predicate CallWasPermitted(c: Call) {
    match c.txn.kind
    case SwitchOn(ticket) => c.verb in {SetTemperature, TurnOn} && OnPermitted(c.mem, c.world, c.txn.device, ticket)
    case SwitchOff(emergency, source, _, _) =>
      c.verb in {TurnOff, FallbackOff} && OffPermitted(c.mem, c.world, emergency, source)
  }

  /** Disk already showed the call's own transition as its newest record, dispatched. */
  ghost predicate WasWrittenAhead(c: Call) { Tail(c.durable, c.txn, J.Dispatched) }

  ghost predicate Warranted(c: Call) { CallWasPermitted(c) && WasWrittenAhead(c) }

  ghost predicate LogInv(cs: seq<Call>) { forall i :: 0 <= i < |cs| ==> Warranted(cs[i]) }

  /** A stage of a stop never issues a start and the reverse. */
  ghost predicate VerbsMatch(task: Task) {
    task.Transition? && task.stage.Dispatching? ==>
      match task.stage.p
      case TemperatureSet => task.t.kind.SwitchOn?
      case FallbackIssued(_) => task.t.kind.SwitchOff?
      case AwaitingReadback(open) => open ==> task.t.kind.SwitchOff?
      case Start => true
  }

  lemma StepVerbsMatch(s: Sys, l: Label)
    requires VerbsMatch(s.task) && Enabled(s, l)
    ensures VerbsMatch(Apply(s, l).task)
  {}

  /** Only an issue step appends to the log, and its call is warranted. */
  lemma StepCallsAreWarranted(s: Sys, l: Label)
    requires JournalInv(s) && LogInv(s.calls) && VerbsMatch(s.task) && Enabled(s, l)
    ensures LogInv(Apply(s, l).calls)
  {
    if l.Issue? {
      var calls := Apply(s, l).calls;
      assert Warranted(calls[|s.calls|]);
    } else {
      assert Apply(s, l).calls == s.calls;
    }
  }

  lemma {:induction false} RunCallsAreWarranted(s: Sys, ls: seq<Label>)
    requires JournalInv(s) && LogInv(s.calls) && VerbsMatch(s.task) && Run(s, ls)
    ensures LogInv(Exec(s, ls).calls)
    decreases |ls|
  {
    if ls != [] {
      StepKeepsJournal(s, ls[0]);
      StepVerbsMatch(s, ls[0]);
      StepCallsAreWarranted(s, ls[0]);
      RunCallsAreWarranted(Apply(s, ls[0]), ls[1..]);
    }
  }

  /** Every call of every run was made where its whole dispatch predicate held and disk already showed
      its transition dispatched. */
  lemma EveryCallWasWarranted(s0: Sys, s: Sys, i: nat)
    requires Initial(s0) && Reaches(s0, s) && i < |s.calls|
    ensures CallWasPermitted(s.calls[i]) && WasWrittenAhead(s.calls[i])
  {
    InitialJournal(s0);
    var ls :| Run(s0, ls) && Exec(s0, ls) == s;
    RunCallsAreWarranted(s0, ls);
    assert Warranted(s.calls[i]);
  }

  /** What that says of each call. Any: Auto, not stopping, storage valid, no reconfiguration pending.
      Ordinary stop: valid load, source present, no fault. Emergency stop: the source is lost, and no
      battery permits the load where its policy counts. Temperature and start: ordinary, fences open,
      the load's own unexpired ticket of a restorable cause and for this target, no flag, no pause, load
      and actuator off, an intent that permits it, room below the lowest limit, the window mature. */
  lemma EveryCallWasPermitted(s0: Sys, s: Sys, i: nat)
    requires Initial(s0) && Reaches(s0, s) && i < |s.calls|
    ensures var c := s.calls[i];
      && c.mem.mode == Auto && !c.mem.stopping && !c.mem.storageInvalid && !c.mem.reconfigure
      && (c.txn.kind.SwitchOn? || !c.txn.kind.emergency ==>
          && c.world.loadValid && c.world.sourceAvailable && c.world.sourceOk
          && c.mem.telemetry == NoFault && !c.mem.sourceLoss)
      && (c.txn.kind.SwitchOff? && c.txn.kind.emergency && c.txn.kind.source != Emergency ==>
          && c.world.sourceAvailable && !c.world.sourceOk
          && (c.txn.kind.source in {GridLoss, BatteryMinimum, ManualReshed} ==> !c.world.batteryPermits))
      && (c.verb in {SetTemperature, TurnOn} <==> c.txn.kind.SwitchOn?)
      && (c.verb in {SetTemperature, TurnOn} ==>
          var t, d := c.txn.kind.ticket, c.txn.device;
          && c.mem.own.fences.shed.generation.None? && c.mem.own.fences.restore.generation.None?
          && Lookup(c.mem.own.tickets, d) == Some(t)
          && c.world.now < t.expiresAt && t.cause !in RECOVERABLE_REASONS
          && t.restore.entity == c.world.commandEntity && t.restore.climate == c.world.climate
          && d !in c.mem.faulted && d !in c.mem.quarantined
          && (d in c.mem.own.pauses ==> c.mem.own.pauses[d] <= c.world.now)
          && c.world.loadOff && c.world.actuatorOff && c.world.requestPermits && c.world.windowMatured
          && c.world.load + c.world.expectedPower < c.world.lowestLimit)
  {
    EveryCallWasWarranted(s0, s, i);
  }

  // ---------- Sticky corruption ----------

  predicate ModeBlocked(s: Sys) {
    && s.mem.storageInvalid && s.mem.mode != Auto
    && (s.task.ChangingMode? ==> s.task.previous != Auto)
  }

  /** A store flag in memory always closes the coordinator's gate and keeps Auto out. */
  predicate FlagInv(s: Sys) { s.mem.storeInvalid ==> ModeBlocked(s) }

  /** The flag has reached disk. */
  predicate Condemned(s: Sys) {
    s.mem.storeInvalid && ModeBlocked(s) && s.disk.Stored? && s.disk.d.invalid == Present(true)
  }

  lemma DispatchKeepsFlag(s: Sys, l: Label)
    requires FlagInv(s) && Enabled(s, l) && DispatchLabel(l)
    ensures FlagInv(Apply(s, l))
  {}

  lemma SaveKeepsFlag(s: Sys, l: Label)
    requires FlagInv(s) && Enabled(s, l) && SaveLabel(l)
    ensures FlagInv(Apply(s, l))
    ensures s.mem.storeInvalid && (l.ExtraSave? || l.Write?) ==> Condemned(Apply(s, l))
  {}

  lemma StepKeepsFlag(s: Sys, l: Label)
    requires FlagInv(s) && Enabled(s, l)
    ensures FlagInv(Apply(s, l))
  {
    if DispatchLabel(l) {
      DispatchKeepsFlag(s, l);
    } else if SaveLabel(l) {
      SaveKeepsFlag(s, l);
    }
  }

  lemma StepStaysCondemned(s: Sys, l: Label)
    requires Condemned(s) && Enabled(s, l)
    ensures Condemned(Apply(s, l)) && Apply(s, l).calls == s.calls
  {}

  lemma {:induction false} RunKeepsFlag(s: Sys, ls: seq<Label>)
    requires FlagInv(s) && Run(s, ls)
    ensures FlagInv(Exec(s, ls))
    decreases |ls|
  {
    if ls != [] {
      StepKeepsFlag(s, ls[0]);
      RunKeepsFlag(Apply(s, ls[0]), ls[1..]);
    }
  }

  lemma {:induction false} RunStaysCondemned(s: Sys, ls: seq<Label>)
    requires Condemned(s) && Run(s, ls)
    ensures Condemned(Exec(s, ls)) && Exec(s, ls).calls == s.calls
    decreases |ls|
  {
    if ls != [] {
      StepStaysCondemned(s, ls[0]);
      RunStaysCondemned(Apply(s, ls[0]), ls[1..]);
    }
  }

  lemma CondemnedRecovers(s: Sys, now: Time, reconfigure: bool)
    requires Condemned(s)
    ensures Recover(s.configured, s.disk, now, reconfigure).mode == Off
  {}

  lemma ReachableFlag(s0: Sys, s: Sys)
    requires Initial(s0) && Reaches(s0, s)
    ensures FlagInv(s)
  {
    var ls :| Run(s0, ls) && Exec(s0, ls) == s;
    RunKeepsFlag(s0, ls);
  }

  lemma StaysCondemned(s: Sys, later: Sys)
    requires Condemned(s) && Reaches(s, later)
    ensures Condemned(later) && later.calls == s.calls
  {
    var ls :| Run(s, ls) && Exec(s, ls) == later;
    RunStaysCondemned(s, ls);
  }

  /** Sticky corruption: once a reader has set the store's flag and one save has succeeded, no
      later process selects Auto, no mode change to Auto is accepted, and no service is called. */
  lemma CorruptionIsSticky(s0: Sys, s: Sys, save: Label, later: Sys)
    requires Initial(s0) && Reaches(s0, s) && s.mem.storeInvalid
    requires (save.ExtraSave? || save.Write?) && Enabled(s, save) && Reaches(Apply(s, save), later)
    ensures later.calls == s.calls && later.mem.mode != Auto && !Enabled(later, SetMode(Auto))
    ensures forall now, reconfigure :: Recover(later.configured, later.disk, now, reconfigure).mode == Off
  {
    ReachableFlag(s0, s);
    SaveKeepsFlag(s, save);
    StaysCondemned(Apply(s, save), later);
    forall now, reconfigure ensures Recover(later.configured, later.disk, now, reconfigure).mode == Off {
      CondemnedRecovers(later, now, reconfigure);
    }
  }
}
