/** What the journal shows of a running transition, in memory and on disk, at every await. */
module ProtocolJournal {
  import opened Prelude
  import opened Protocol
  import J = Journal

  // ---------- Recording one transition ----------

  ghost predicate GoodId(t: Txn) { |t.action| <= J.MAX_FIELD_LENGTH && !J.Blank(t.action) }

  ghost predicate ShowsPhase(r: J.Event, t: Txn, phase: J.Phase) {
    && J.IdOf(r) == TxnId(t)
    && J.HasWord(r, J.PhaseKey, phase) && J.HasWord(r, J.ResultKey, phase)
    && J.ActionKey in r && r[J.ActionKey] == J.Plain(J.Text(if t.kind.SwitchOn? then "turn_on" else "turn_off"))
    && J.DeviceKey in r && r[J.DeviceKey] == J.Plain(J.Text(J.Cut(t.device, J.MAX_FIELD_LENGTH)))
  }

  /** The transition's record is the newest one and reads `phase`. */
  ghost predicate Tail(h: seq<J.Event>, t: Txn, phase: J.Phase) {
    h != [] && ShowsPhase(h[|h| - 1], t, phase)
    && forall i :: 0 <= i < |h| - 1 ==> J.IdOf(h[i]) != TxnId(t)
  }

  lemma TxnEventNormalizes(t: Txn, phase: J.Phase)
    requires GoodId(t)
    ensures J.Storable(TxnEvent(t, phase))
    ensures ShowsPhase(J.Normalize(TxnEvent(t, phase), t.startedAt).value, t, phase)
  {
    var e := TxnEvent(t, phase);
    var action := if t.kind.SwitchOn? then "turn_on" else "turn_off";
    assert action[0] == 't' && !J.Blank(action);
    var n := J.NormFields(e);
    assert J.NormField(J.PhaseKey, e[J.PhaseKey]) == Some(e[J.PhaseKey]);
    assert J.NormField(J.ResultKey, e[J.ResultKey]) == Some(e[J.ResultKey]);
    assert J.TimestampKey in e && J.NormField(J.TimestampKey, e[J.TimestampKey]).Some?;
  }

  lemma MergeShows(p: J.Event, n: J.Event, t: Txn, phase: J.Phase)
    requires ShowsPhase(n, t, phase)
    ensures ShowsPhase(J.Merge(p, n), t, phase)
  {}

  lemma RecordFresh(h: seq<J.Event>, t: Txn, phase: J.Phase)
    requires J.NormalForm(h) && GoodId(t) && FreeOf(h, TxnId(t))
    ensures J.NormalForm(Rec(h, t, phase))
    ensures Tail(Rec(h, t, phase), t, phase)
  {
    var e := TxnEvent(t, phase);
    TxnEventNormalizes(t, phase);
    J.RecordKeepsNormalForm(h, e, t.startedAt);
    J.RecordIsEffect(h, e, t.startedAt);
  }

  lemma RecordAgain(h: seq<J.Event>, t: Txn, phase: J.Phase, next: J.Phase)
    requires J.NormalForm(h) && GoodId(t) && Tail(h, t, phase)
    ensures J.NormalForm(Rec(h, t, next))
    ensures Tail(Rec(h, t, next), t, next)
  {
    var e := TxnEvent(t, next);
    TxnEventNormalizes(t, next);
    J.RecordKeepsNormalForm(h, e, t.startedAt);
    J.RecordIsEffect(h, e, t.startedAt);
    EffectAgain(h, t, phase, next);
  }

  lemma EffectAgain(h: seq<J.Event>, t: Txn, phase: J.Phase, next: J.Phase)
    requires Tail(h, t, phase) && J.Storable(TxnEvent(t, next))
    requires ShowsPhase(J.Normalize(TxnEvent(t, next), t.startedAt).value, t, next)
    ensures Tail(J.Effect(h, TxnEvent(t, next), t.startedAt), t, next)
  {
    var n := J.Normalize(TxnEvent(t, next), t.startedAt).value;
    assert J.FindId(h, J.IdOf(n)) == |h| - 1;
    MergeShows(h[|h| - 1], n, t, next);
  }

  // ---------- The invariant ----------

  /** Phases the newest durable record may still show while `phase` is being saved. */
  predicate MayShow(phase: J.Phase, shown: J.Phase) {
    shown == phase || shown == (if phase == J.Dispatched then J.Prepared else J.Dispatched)
  }

  ghost predicate FreeOrTail(h: seq<J.Event>, t: Txn) { FreeOf(h, TxnId(t)) || exists q :: Tail(h, t, q) }

  lemma FollowsIsFreeOrTail(h: seq<J.Event>, t: Txn, stage: Stage)
    requires DiskFollows(h, t, stage)
    ensures FreeOrTail(h, t)
  {
    if stage.Saving? && !stage.unwinding && stage.phase != J.Prepared {
      var q :| MayShow(stage.phase, q) && Tail(h, t, q) && (stage.written ==> q == stage.phase);
      assert Tail(h, t, q);
    }
  }

  ghost predicate DiskFollows(h: seq<J.Event>, t: Txn, stage: Stage) {
    match stage
    case Dispatching(_) => Tail(h, t, J.Dispatched)
    case Saving(phase, written, unwinding) =>
      if unwinding then FreeOrTail(h, t)
      else if phase == J.Prepared then (FreeOf(h, TxnId(t)) && !written) || Tail(h, t, J.Prepared)
      else exists q :: MayShow(phase, q) && Tail(h, t, q) && (written ==> q == phase)
  }

  function PhaseOf(stage: Stage): J.Phase {
    match stage
    case Dispatching(_) => J.Dispatched
    case Saving(phase, _, _) => phase
  }

  ghost predicate StageIsProper(stage: Stage) {
    stage.Saving? ==>
      && stage.phase in {J.Prepared, J.Dispatched, J.Confirmed, J.Rejected, J.Failed}
      && (stage.unwinding ==> stage.phase == J.Failed)
  }

  /** A running transition is the newest record in memory, and disk follows it. */
  ghost predicate Follows(configured: set<DeviceId>, mem: seq<J.Event>, disk: seq<J.Event>, t: Txn, stage: Stage) {
    && GoodId(t) && t.device in configured && StageIsProper(stage)
    && Tail(mem, t, PhaseOf(stage)) && DiskFollows(disk, t, stage)
  }

  ghost predicate JournalInv(s: Sys) {
    && J.NormalForm(s.mem.journal) && J.NormalForm(Contents(s.disk).journal)
    && (s.task.Transition? ==>
        Follows(s.configured, s.mem.journal, Contents(s.disk).journal, s.task.t, s.task.stage))
  }

  lemma InitialJournal(s: Sys)
    requires Initial(s)
    ensures JournalInv(s)
  {}

  /** A save stores the journal of the moment, whose newest record is the running transition. */
  lemma SaveFollows(s: Sys)
    requires JournalInv(s)
    ensures s.task.Transition? ==> DiskFollows(s.mem.journal, s.task.t, s.task.stage)
    ensures s.task.Transition? && s.task.stage.Saving? ==>
      DiskFollows(s.mem.journal, s.task.t, s.task.stage.(written := true))
  {
    if s.task.Transition? { assert MayShow(PhaseOf(s.task.stage), PhaseOf(s.task.stage)); }
  }

  /** From one save to the next phase, and from a dispatch to its terminal record. */
  lemma NextPhaseFollows(
      configured: set<DeviceId>, mem: seq<J.Event>, disk: seq<J.Event>, t: Txn, stage: Stage, next: J.Phase)
    requires J.NormalForm(mem) && Follows(configured, mem, disk, t, stage)
    requires next in {J.Dispatched, J.Confirmed, J.Rejected, J.Failed}
    requires if next == J.Dispatched then Tail(disk, t, J.Prepared) else Tail(disk, t, J.Dispatched)
    ensures J.NormalForm(Rec(mem, t, next))
    ensures Follows(configured, Rec(mem, t, next), disk, t, Saving(next, false, false))
  {
    RecordAgain(mem, t, PhaseOf(stage), next);
    assert MayShow(next, if next == J.Dispatched then J.Prepared else J.Dispatched);
  }

  lemma UnwindFollows(configured: set<DeviceId>, mem: seq<J.Event>, disk: seq<J.Event>, t: Txn, stage: Stage)
    requires J.NormalForm(mem) && Follows(configured, mem, disk, t, stage)
    ensures J.NormalForm(Rec(mem, t, J.Failed))
    ensures Follows(configured, Rec(mem, t, J.Failed), disk, t, Saving(J.Failed, false, true))
  {
    RecordAgain(mem, t, PhaseOf(stage), J.Failed);
    FollowsIsFreeOrTail(disk, t, stage);
  }

  lemma FinishJournal(s: Sys, m: Mem, phase: J.Phase)
    requires JournalInv(s) && s.task.Transition? && s.task.stage.Dispatching? && m.journal == s.mem.journal
    requires phase in {J.Confirmed, J.Rejected, J.Failed}
    ensures JournalInv(Finish(s, m, phase))
  {
    NextPhaseFollows(s.configured, s.mem.journal, Contents(s.disk).journal, s.task.t, s.task.stage, phase);
  }

  lemma AfterSaveJournal(s: Sys, ok: bool)
    requires JournalInv(s) && Waiting(s.task) && (ok ==> WrittenFlag(s.task))
    ensures JournalInv(AfterSave(s, ok))
  {
    if s.task.Transition? {
      var t, mem, disk := s.task.t, s.mem.journal, Contents(s.disk).journal;
      UnwindFollows(s.configured, mem, disk, t, s.task.stage);
      if ok && s.task.stage.phase == J.Prepared && !s.task.stage.unwinding {
        NextPhaseFollows(s.configured, mem, disk, t, s.task.stage, J.Dispatched);
      }
    }
  }

  lemma CancelledJournal(s: Sys)
    requires JournalInv(s) && Enabled(s, Cancel)
    ensures JournalInv(Cancelled(s))
  {
    if s.task.Transition? {
      UnwindFollows(s.configured, s.mem.journal, Contents(s.disk).journal, s.task.t, s.task.stage);
    }
  }

  predicate DispatchLabel(l: Label) {
    l.Deny? || l.Issue? || l.ReadBack? || l.Unconfirmed? || l.Raise?
  }

  lemma DispatchStepKeepsJournal(s: Sys, l: Label)
    requires JournalInv(s) && Enabled(s, l) && DispatchLabel(l)
    ensures JournalInv(Apply(s, l))
  {
    if l.Issue? {
    } else if l.ReadBack? {
      var own := CommitOwned(s.task.t, s.mem.own, l.at, l.pauseUntil, l.stamp, s.mem.loadGeneration);
      FinishJournal(s, s.mem.(own := own), J.Confirmed);
    } else {
      FinishJournal(s, s.mem, J.Rejected);
      FinishJournal(s, Latched(s.mem, s.task.t.device), J.Failed);
    }
  }

  predicate SaveLabel(l: Label) { l.ExtraSave? || l.Write? || l.Resume? || l.Cancel? || l.Restart? }

  lemma SaveStepKeepsJournal(s: Sys, l: Label)
    requires JournalInv(s) && Enabled(s, l) && SaveLabel(l)
    ensures JournalInv(Apply(s, l))
  {
    match l
    case Resume(ok) => AfterSaveJournal(s, ok);
    case Cancel => CancelledJournal(s);
    case _ => SaveFollows(s);
  }

  lemma StepKeepsJournal(s: Sys, l: Label)
    requires JournalInv(s) && Enabled(s, l)
    ensures JournalInv(Apply(s, l))
  {
    if DispatchLabel(l) {
      DispatchStepKeepsJournal(s, l);
    } else if SaveLabel(l) {
      SaveStepKeepsJournal(s, l);
    } else if l.Begin? {
      RecordFresh(s.mem.journal, l.t, J.Prepared);
    } else if l.Note? {
      J.RecordKeepsNormalForm(s.mem.journal, l.e, l.at);
    }
  }

  lemma {:induction false} RunKeepsJournal(s: Sys, ls: seq<Label>)
    requires JournalInv(s) && Run(s, ls)
    ensures JournalInv(Exec(s, ls))
    decreases |ls|
  {
    if ls != [] {
      StepKeepsJournal(s, ls[0]);
      RunKeepsJournal(Apply(s, ls[0]), ls[1..]);
    }
  }

  lemma ReachableJournal(s0: Sys, s: Sys)
    requires Initial(s0) && Reaches(s0, s)
    ensures JournalInv(s)
  {
    InitialJournal(s0);
    var ls :| Run(s0, ls) && Exec(s0, ls) == s;
    RunKeepsJournal(s0, ls);
  }

  // ---------- Write-ahead ----------

  /** Write-ahead: whatever saves failed, whoever else saved, and wherever processes died
      before, no service is called unless the durable journal already shows this action
      as dispatched in its newest record. */
  lemma CallsAreWrittenAhead(s0: Sys, s: Sys, l: Label)
    requires Initial(s0) && Reaches(s0, s) && l.Issue? && Enabled(s, l)
    ensures s.task.Transition? && Tail(Contents(s.disk).journal, s.task.t, J.Dispatched)
  {
    ReachableJournal(s0, s);
  }

  /** Recovery from a journal whose newest record is an unfinished action flags its load, as
      long as the journal keeps the whole device identity. */
  lemma NewestUnfinishedIsFlagged(h: seq<J.Event>, t: Txn, phase: J.Phase, configured: set<DeviceId>)
    requires Tail(h, t, phase) && phase in {J.Prepared, J.Dispatched}
    requires t.device in configured && |t.device| <= J.MAX_FIELD_LENGTH
    ensures t.device in Ambiguous(h, configured)
  {
    J.NewestUnresolvedIsReported(h);
    assert NamesDevice(h[|h| - 1], t.device);
  }

  lemma {:induction false} UnresolvedAreRecords(h: seq<J.Event>)
    ensures forall r :: r in J.UnresolvedIn(h) ==> r in h && J.IsUnresolved(r)
  {
    if h != [] {
      UnresolvedAreRecords(h[..|h| - 1]);
    }
  }

  /** Exactly the loads whose identity the journal did not truncate are flagged by their own
      unfinished action: a longer identity escapes recovery altogether. */
  lemma UnfinishedIsFlaggedIffNotTruncated(h: seq<J.Event>, t: Txn, phase: J.Phase, configured: set<DeviceId>)
    requires J.NormalForm(h) && Tail(h, t, phase) && phase in {J.Prepared, J.Dispatched} && t.device in configured
    ensures t.device in Ambiguous(h, configured) <==> |t.device| <= J.MAX_FIELD_LENGTH
  {
    if |t.device| <= J.MAX_FIELD_LENGTH {
      NewestUnfinishedIsFlagged(h, t, phase, configured);
    }
    UnresolvedAreRecords(h);
    forall r | r in J.Unresolved(h) && NamesDevice(r, t.device) ensures |t.device| <= J.MAX_FIELD_LENGTH {
      assert r in J.UnresolvedIn(h);
      var i :| 0 <= i < |h| && h[i] == r;
      assert J.NormField(J.DeviceKey, r[J.DeviceKey]) == Some(r[J.DeviceKey]);
    }
  }

  // ---------- Until the terminal record is durable ----------

  predicate DiskFlagged(c: Durable, configured: set<DeviceId>, d: DeviceId) {
    d in DiskFaulted(c, configured) || d in DiskQuarantined(c, configured) || d in Ambiguous(c.journal, configured)
  }

  lemma DiskFlaggedIsRecovered(s: Sys, d: DeviceId, now: Time, reconfigure: bool)
    ensures DiskFlagged(Contents(s.disk), s.configured, d) <==>
            Flagged(Recover(s.configured, s.disk, now, reconfigure), d)
  {}

  /** Both faulted and quarantined, as every failure leaves a load. */
  predicate MemLatched(m: Mem, d: DeviceId) { d in m.faulted && d in m.quarantined }

  /** Every recovery from here leaves the load both faulted and quarantined. */
  predicate DiskLatched(c: Durable, configured: set<DeviceId>, d: DeviceId) {
    d in Ambiguous(c.journal, configured) || (d in DiskFaulted(c, configured) && d in DiskQuarantined(c, configured))
  }

  lemma DiskLatchedIsRecovered(s: Sys, d: DeviceId, now: Time, reconfigure: bool)
    requires DiskLatched(Contents(s.disk), s.configured, d)
    ensures MemLatched(Recover(s.configured, s.disk, now, reconfigure), d)
  {}

  /** The load is under a transition that has no durable terminal record yet. */
  predicate InFlight(task: Task, d: DeviceId) {
    && task.Transition? && task.t.device == d
    && (task.stage.Dispatching? ||
        (task.stage.phase in {J.Confirmed, J.Rejected} && !task.stage.unwinding && !task.stage.written))
  }

  /** Recovery would latch the load, and the running process either has or is still at work on it. */
  predicate Guarded(s: Sys, d: DeviceId) {
    && DiskLatched(Contents(s.disk), s.configured, d)
    && (MemLatched(s.mem, d) || InFlight(s.task, d))
  }

  /** This step makes a confirmed or rejected outcome durable. */
  predicate MakesOutcomeDurable(s: Sys, l: Label, d: DeviceId) {
    (l.Write? || l.ExtraSave?) && InFlight(s.task, d) && s.task.stage.Saving?
  }

  lemma CallGuardsItsLoad(s: Sys, l: Label)
    requires JournalInv(s) && l.Issue? && Enabled(s, l) && |s.task.t.device| <= J.MAX_FIELD_LENGTH
    ensures Guarded(Apply(s, l), s.task.t.device)
  {
    var t := s.task.t;
    assert Follows(s.configured, s.mem.journal, Contents(s.disk).journal, t, s.task.stage);
    NewestUnfinishedIsFlagged(Contents(s.disk).journal, t, J.Dispatched, s.configured);
  }

  lemma SnapshotLatches(s: Sys, d: DeviceId)
    requires JournalInv(s) && d in s.configured && |d| <= J.MAX_FIELD_LENGTH
    requires MemLatched(s.mem, d) || (InFlight(s.task, d) && s.task.stage.Dispatching?)
    ensures DiskLatched(Contents(Snapshot(s.configured, s.mem)), s.configured, d)
  {
    if !MemLatched(s.mem, d) {
      NewestUnfinishedIsFlagged(s.mem.journal, s.task.t, J.Dispatched, s.configured);
    }
  }

  lemma RestartKeepsGuard(s: Sys, d: DeviceId, now: Time, reconfigure: bool, outcome: SaveOutcome)
    requires d in s.configured && DiskLatched(Contents(s.disk), s.configured, d)
    ensures Guarded(Rebooted(s, now, reconfigure, outcome), d)
  {
    DiskLatchedIsRecovered(s, d, now, reconfigure);
    var m := Recover(s.configured, s.disk, now, reconfigure);
    assert DiskLatched(Contents(Snapshot(s.configured, m)), s.configured, d);
  }

  lemma FinishKeepsGuard(s: Sys, m: Mem, phase: J.Phase, d: DeviceId)
    requires Guarded(s, d) && s.task.Transition? && phase in {J.Confirmed, J.Rejected, J.Failed}
    requires MemLatched(s.mem, d) || (phase == J.Failed && s.task.t.device == d) ==> MemLatched(m, d)
    ensures Guarded(Finish(s, m, phase), d)
  {}

  lemma DispatchKeepsGuard(s: Sys, l: Label, d: DeviceId)
    requires Guarded(s, d) && Enabled(s, l) && DispatchLabel(l)
    ensures Guarded(Apply(s, l), d)
  {
    if l.Issue? {
    } else if l.ReadBack? {
      var own := CommitOwned(s.task.t, s.mem.own, l.at, l.pauseUntil, l.stamp, s.mem.loadGeneration);
      FinishKeepsGuard(s, s.mem.(own := own), J.Confirmed, d);
    } else {
      FinishKeepsGuard(s, s.mem, J.Rejected, d);
      FinishKeepsGuard(s, Latched(s.mem, s.task.t.device), J.Failed, d);
    }
  }

  lemma StorageFailureKeepsGuard(s: Sys, d: DeviceId, task: Task)
    requires Guarded(s, d) && s.task.Transition?
    ensures Guarded(s.(mem := StorageFailed(s.mem, s.task.t), task := task), d)
  {}

  lemma FailureKeepsGuard(s: Sys, l: Label, d: DeviceId)
    requires Guarded(s, d) && Enabled(s, l) && (l.Resume? || l.Cancel?)
    ensures Guarded(Apply(s, l), d)
  {
    if s.task.Transition? {
      StorageFailureKeepsGuard(s, d, Idle);
      StorageFailureKeepsGuard(s, d, Transition(s.task.t, Saving(J.Failed, false, true)));
    }
  }

  /** Saves and restarts apart, no step touches disk, and only a granted clear unflags a load. */
  lemma QuietStepKeepsGuard(s: Sys, l: Label, d: DeviceId)
    requires Guarded(s, d) && Enabled(s, l) && l != Clear(d)
    requires !DispatchLabel(l) && !SaveLabel(l)
    ensures Guarded(Apply(s, l), d)
  {}

  lemma SnapshotKeepsGuard(s: Sys, l: Label, d: DeviceId)
    requires JournalInv(s) && d in s.configured && |d| <= J.MAX_FIELD_LENGTH
    requires Guarded(s, d) && Enabled(s, l) && (l.ExtraSave? || l.Write?) && !MakesOutcomeDurable(s, l, d)
    ensures Guarded(Apply(s, l), d)
  {
    SnapshotLatches(s, d);
  }

  lemma SaveStepKeepsGuard(s: Sys, l: Label, d: DeviceId)
    requires JournalInv(s) && d in s.configured && |d| <= J.MAX_FIELD_LENGTH
    requires Guarded(s, d) && Enabled(s, l) && SaveLabel(l) && !MakesOutcomeDurable(s, l, d)
    ensures Guarded(Apply(s, l), d)
  {
    if l.Restart? {
      RestartKeepsGuard(s, d, l.now, l.reconfigure, l.outcome);
    } else if l.Resume? || l.Cancel? {
      FailureKeepsGuard(s, l, d);
    } else {
      SnapshotKeepsGuard(s, l, d);
    }
  }

  lemma GuardHolds(s: Sys, l: Label, d: DeviceId)
    requires JournalInv(s) && d in s.configured && |d| <= J.MAX_FIELD_LENGTH
    requires Guarded(s, d) && Enabled(s, l) && l != Clear(d) && !MakesOutcomeDurable(s, l, d)
    ensures Guarded(Apply(s, l), d)
  {
    if DispatchLabel(l) {
      DispatchKeepsGuard(s, l, d);
    } else if SaveLabel(l) {
      SaveStepKeepsGuard(s, l, d);
    } else {
      QuietStepKeepsGuard(s, l, d);
    }
  }

  /** Along these steps no outcome for the load becomes durable and no clear of it is granted. */
  ghost predicate Unsettled(s: Sys, ls: seq<Label>, d: DeviceId)
    requires Run(s, ls)
    decreases |ls|
  {
    ls == [] || (ls[0] != Clear(d) && !MakesOutcomeDurable(s, ls[0], d) && Unsettled(Apply(s, ls[0]), ls[1..], d))
  }

  lemma {:induction false} RunKeepsGuard(s: Sys, ls: seq<Label>, d: DeviceId)
    requires JournalInv(s) && d in s.configured && |d| <= J.MAX_FIELD_LENGTH
    requires Guarded(s, d) && Run(s, ls) && Unsettled(s, ls, d)
    ensures Guarded(Exec(s, ls), d)
    decreases |ls|
  {
    if ls != [] {
      StepKeepsJournal(s, ls[0]);
      GuardHolds(s, ls[0], d);
      RunKeepsGuard(Apply(s, ls[0]), ls[1..], d);
    }
  }

  /** From its first service call on, whatever fails and whoever dies, every recovery leaves the
      load faulted and quarantined until its outcome is durable or an operator's clear is granted. */
  lemma UnsettledCallIsRecoveredLatched(s0: Sys, s: Sys, l: Label, ls: seq<Label>, now: Time, reconfigure: bool)
    requires Initial(s0) && Reaches(s0, s) && l.Issue? && Enabled(s, l)
    requires |s.task.t.device| <= J.MAX_FIELD_LENGTH
    requires Run(Apply(s, l), ls) && Unsettled(Apply(s, l), ls, s.task.t.device)
    ensures var later := Exec(Apply(s, l), ls);
      MemLatched(Recover(later.configured, later.disk, now, reconfigure), s.task.t.device)
  {
    ReachableJournal(s0, s);
    CallGuardsItsLoad(s, l);
    StepKeepsJournal(s, l);
    RunKeepsGuard(Apply(s, l), ls, s.task.t.device);
    DiskLatchedIsRecovered(Exec(Apply(s, l), ls), s.task.t.device, now, reconfigure);
  }
}
