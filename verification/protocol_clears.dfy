/**
 * What a quarantine clear costs: `async_clear_quarantine` of coordinator.py against the credit bound.
 *
 * A granted clear ends in one of three ways. It succeeds; it fails or its process dies with nothing
 * written since the grant, and is refunded; or it fails, dies or is cancelled after something was
 * written or memory kept it, and it stays unsure whether it took effect.
 */
module ProtocolClears {
  import opened Prelude
  import opened Ownership
  import opened Protocol
  import opened ProtocolJournal
  import opened ProtocolSafety

  /** `clean`: a clear of the load is under way and no snapshot was written since its grant. */
  datatype Tally = Tally(successes: nat, refunds: nat, unsure: nat, clean: bool)

  const NO_CLEARS := Tally(0, 0, 0, false)

  predicate ClearingOf(task: Task, d: DeviceId) { task.Clearing? && task.device == d }

  function Pending(s: Sys, d: DeviceId): nat { if ClearingOf(s.task, d) then 1 else 0 }

  function Undone(y: Tally): Tally {
    if y.clean then y.(refunds := y.refunds + 1, clean := false) else y.(unsure := y.unsure + 1)
  }

  function Counted(s: Sys, l: Label, y: Tally, d: DeviceId): Tally {
    if l == Clear(d) then y.(clean := true)
    else if !ClearingOf(s.task, d) then y
    else match l
      case ExtraSave => y.(clean := false)
      case Write => y.(clean := false)
      case Resume(ok) => if ok then y.(successes := y.successes + 1, clean := false) else Undone(y)
      case Restart(_, _, _) => Undone(y)
      case Cancel => y.(unsure := y.unsure + 1, clean := false)
      case _ => y
  }

  ghost function Tallied(s: Sys, ls: seq<Label>, y: Tally, d: DeviceId): Tally
    requires Run(s, ls)
    decreases |ls|
  {
    if ls == [] then y else Tallied(Apply(s, ls[0]), ls[1..], Counted(s, ls[0], y, d), d)
  }

  function DiskCredits(s: Sys, d: DeviceId): nat { if DiskCredit(s.disk, s.configured, d) then 1 else 0 }

  // ---------- The sharp bound ----------

  /** Every granted clear is counted once, and a clean one may still be refunded. */
  predicate Settles(s: Sys, y: Tally, d: DeviceId, k: int) {
    && s.cleared[d] == y.successes + y.refunds + y.unsure + Pending(s, d)
    && Balance(s, d) + y.refunds <= k
    && OnCalls(s.calls, d) - s.created[d] - y.successes - y.unsure <= k
    && (y.clean ==> ClearingOf(s.task, d)
                    && OnCalls(s.calls, d) + DiskCredits(s, d) - s.created[d] - s.cleared[d] + 1 + y.refunds <= k)
  }

  /** Which steps can touch the clear under way, and what the others leave alone. */
  lemma OutsideAClear(s: Sys, l: Label, d: DeviceId)
    requires Enabled(s, l) && !ClearingOf(s.task, d) && l != Clear(d)
    ensures Pending(Apply(s, l), d) == 0 && Apply(s, l).cleared[d] == s.cleared[d]
  {}

  lemma GrantSettles(s: Sys, y: Tally, d: DeviceId, k: int)
    requires Settles(s, y, d, k) && Enabled(s, Clear(d))
    ensures Settles(Apply(s, Clear(d)), y.(clean := true), d, k)
  {}

  lemma DuringAClear(s: Sys, l: Label, d: DeviceId)
    requires Enabled(s, l) && ClearingOf(s.task, d)
    ensures Apply(s, l).cleared[d] == s.cleared[d] && Apply(s, l).created[d] == s.created[d]
    ensures Apply(s, l).calls == s.calls
    ensures Pending(Apply(s, l), d) == if l.Resume? || l.Restart? || l.Cancel? then 0 else 1
    ensures l.ExtraSave? || l.Write? || l.Resume? || l.Restart? || l.Cancel? || l.Disturb? || l.Shutdown?
    ensures l.ExtraSave? || l.Write? || l.Restart? || Apply(s, l).disk == s.disk
  {}

  /** A clear undone before anything was written leaves at most the credit disk had at its grant. */
  lemma UndoneCleanCredit(s: Sys, l: Label, d: DeviceId)
    requires d in s.configured && Enabled(s, l) && ClearingOf(s.task, d) && (l == Resume(false) || l.Restart?)
    ensures Credit(Apply(s, l), d) <= DiskCredits(s, d)
  {
    if l.Restart? && Credit(Apply(s, l), d) == 1 { RebootCredit(s, l.now, l.reconfigure, l.outcome, d); }
  }

  lemma ClearStepSettles(s: Sys, l: Label, y: Tally, d: DeviceId, k: int)
    requires JournalInv(s) && Nameable(s, d) && Enabled(s, l) && ClearingOf(s.task, d) && Settles(s, y, d, k)
    ensures Settles(Apply(s, l), Counted(s, l, y, d), d, k)
  {
    DuringAClear(s, l, d);
    StepConservesCredit(s, l, d);
    if l == Resume(false) || l.Restart? { UndoneCleanCredit(s, l, d); }
  }

  lemma StepSettles(s: Sys, l: Label, y: Tally, d: DeviceId, k: int)
    requires JournalInv(s) && Nameable(s, d) && Enabled(s, l) && Settles(s, y, d, k)
    ensures Settles(Apply(s, l), Counted(s, l, y, d), d, k)
  {
    if l == Clear(d) {
      GrantSettles(s, y, d, k);
    } else if ClearingOf(s.task, d) {
      ClearStepSettles(s, l, y, d, k);
    } else {
      OutsideAClear(s, l, d);
      StepConservesCredit(s, l, d);
    }
  }

  lemma {:induction false} RunSettles(s: Sys, ls: seq<Label>, y: Tally, d: DeviceId, k: int)
    requires JournalInv(s) && Nameable(s, d) && Settles(s, y, d, k) && Run(s, ls)
    ensures Settles(Exec(s, ls), Tallied(s, ls, y, d), d, k)
    decreases |ls|
  {
    if ls != [] {
      StepKeepsJournal(s, ls[0]);
      StepSettles(s, ls[0], y, d, k);
      RunSettles(Apply(s, ls[0]), ls[1..], Counted(s, ls[0], y, d), d, k);
    }
  }

  /** Over every run the ON calls to a load never exceed the tickets created for it, its successful
      clears, its unsure ones, the one that may be under way, and one if the run began with an
      unflagged ticket. A clear undone with nothing written is never charged. */
  lemma OnlyUnsureClearsAreCharged(s0: Sys, ls: seq<Label>, d: DeviceId)
    requires Initial(s0) && Nameable(s0, d) && Run(s0, ls)
    ensures var s, y := Exec(s0, ls), Tallied(s0, ls, NO_CLEARS, d);
      && OnCalls(s.calls, d) + Credit(s, d) <= s.created[d] + y.successes + y.unsure + Pending(s, d) + Credit(s0, d)
      && OnCalls(s.calls, d) + Credit(s, d) + y.refunds <= s.created[d] + s.cleared[d] + Credit(s0, d)
  {
    InitialJournal(s0);
    RunSettles(s0, ls, NO_CLEARS, d, Balance(s0, d));
  }

  /** So in a run whose clears all succeeded or were undone in time, successful clears alone are
      charged: while a clear is under way nothing is started. */
  lemma SuccessfulClearsAreChargedAlone(s0: Sys, ls: seq<Label>, d: DeviceId)
    requires Initial(s0) && Nameable(s0, d) && Run(s0, ls)
    requires Tallied(s0, ls, NO_CLEARS, d).unsure == 0
    ensures var s := Exec(s0, ls);
      OnCalls(s.calls, d) <= s.created[d] + Tallied(s0, ls, NO_CLEARS, d).successes + Credit(s0, d)
  {
    InitialJournal(s0);
    RunSettles(s0, ls, NO_CLEARS, d, Balance(s0, d));
  }

  // ---------- What an undone clear leaves ----------

  /** During a clear memory has the load unflagged, and whatever was written since has it so too. */
  predicate ClearView(s: Sys, y: Tally, d: DeviceId) {
    ClearingOf(s.task, d) ==>
      && d in s.configured && !Flagged(s.mem, d)
      && (!y.clean ==> (DiskCredit(s.disk, s.configured, d) <==>
                        Holds(s.mem.own.tickets, d) && d !in Ambiguous(s.mem.journal, s.configured)))
  }

  lemma SnapshotOfUnflagged(configured: set<DeviceId>, m: Mem, d: DeviceId)
    requires !Flagged(m, d)
    ensures DiskCredit(Snapshot(configured, m), configured, d) <==>
            Holds(m.own.tickets, d) && d !in Ambiguous(m.journal, configured)
  {}

  lemma StepKeepsClearView(s: Sys, l: Label, y: Tally, d: DeviceId)
    requires Enabled(s, l) && ClearView(s, y, d)
    ensures ClearView(Apply(s, l), Counted(s, l, y, d), d)
  {
    if l != Clear(d) {
      if ClearingOf(s.task, d) {
        DuringAClear(s, l, d);
        SnapshotOfUnflagged(s.configured, s.mem, d);
      } else {
        OutsideAClear(s, l, d);
      }
    }
  }

  lemma {:induction false} RunKeepsClearView(s: Sys, ls: seq<Label>, y: Tally, d: DeviceId)
    requires ClearView(s, y, d) && Run(s, ls)
    ensures ClearView(Exec(s, ls), Tallied(s, ls, y, d), d)
    decreases |ls|
  {
    if ls != [] {
      StepKeepsClearView(s, ls[0], y, d);
      RunKeepsClearView(Apply(s, ls[0]), ls[1..], Counted(s, ls[0], y, d), d);
    }
  }

  /** What a clear leaves, in every run and exactly. Failing with nothing written, the credit disk had.
      Failing after a write, a credit iff the ticket is held and no unfinished action names the load.
      Cancelled, a credit iff the ticket is held or disk has one. */
  lemma UndoneClearLeavesCreditIff(s0: Sys, ls: seq<Label>, d: DeviceId)
    requires Initial(s0) && Run(s0, ls) && ClearingOf(Exec(s0, ls).task, d)
    ensures var s, y := Exec(s0, ls), Tallied(s0, ls, NO_CLEARS, d);
      && (Credit(AfterSave(s, false), d) == 1 <==>
            if y.clean then DiskCredit(s.disk, s.configured, d)
            else Holds(s.mem.own.tickets, d) && d !in Ambiguous(s.mem.journal, s.configured))
      && (Credit(Cancelled(s), d) == 1 <==> Holds(s.mem.own.tickets, d) || DiskCredit(s.disk, s.configured, d))
  {
    RunKeepsClearView(s0, ls, NO_CLEARS, d);
  }

  /** What a restart leaves the load, from any state and exactly: a credit iff disk does not flag it and it
      holds a ticket that is reloaded, or one still stored because recovery's own save wrote nothing. */
  lemma RestartLeavesCreditIff(s: Sys, d: DeviceId, now: Time, reconfigure: bool, outcome: SaveOutcome)
    requires d in s.configured
    ensures var c := Contents(s.disk);
      Credit(Rebooted(s, now, reconfigure, outcome), d) == 1 <==>
        && !DiskFlagged(c, s.configured, d)
        && (Holds(RecoveredTickets(c, s.configured, now), d) ||
            (outcome == FailedUnwritten && c.tickets.Present? && Holds(c.tickets.v, d)))
  {
    var m := Recover(s.configured, s.disk, now, reconfigure);
    DiskFlaggedIsRecovered(s, d, now, reconfigure);
    if !Flagged(m, d) {
      SnapshotOfUnflagged(s.configured, m, d);
    } else {
      assert DiskFlagged(Contents(Snapshot(s.configured, m)), s.configured, d);
    }
  }

  /** A process that dies during a clear after something was written leaves a credit at most when the
      ticket was held and no unfinished action named the load, and then iff a ticket is reloaded. */
  lemma DeadClearLeavesCreditIff(
      s0: Sys, ls: seq<Label>, d: DeviceId, now: Time, reconfigure: bool, outcome: SaveOutcome)
    requires Initial(s0) && Run(s0, ls) && ClearingOf(Exec(s0, ls).task, d)
    requires !Tallied(s0, ls, NO_CLEARS, d).clean
    ensures var s := Exec(s0, ls);
      Credit(Rebooted(s, now, reconfigure, outcome), d) == 1 <==>
        && Holds(s.mem.own.tickets, d) && d !in Ambiguous(s.mem.journal, s.configured)
        && (Holds(RecoveredTickets(Contents(s.disk), s.configured, now), d) || outcome == FailedUnwritten)
  {
    var s := Exec(s0, ls);
    RunKeepsClearView(s0, ls, NO_CLEARS, d);
    RestartLeavesCreditIff(s, d, now, reconfigure, outcome);
    var c := Contents(s.disk);
    if c.tickets.Present? && Holds(RecoveredTickets(c, s.configured, now), d) {
      HoldsReloaded(c.tickets.v, s.configured, now, d);
    }
  }
}
