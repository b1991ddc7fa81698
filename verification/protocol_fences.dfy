/**
 * The causal fences inside the protocol: every run of the state machine is a history of
 * confirmations, reports, saves and reloads whose gates were open where they had to be.
 */
module ProtocolFences {
  import opened Prelude
  import opened Protocol
  import opened ProtocolJournal
  import J = Journal
  import F = Fences

  // ---------- Positions of a run ----------

  ghost function StateAt(s: Sys, ls: seq<Label>, n: nat): Sys
    requires Run(s, ls) && n <= |ls|
    decreases n
  {
    if n == 0 then s else StateAt(Apply(s, ls[0]), ls[1..], n - 1)
  }

  lemma {:induction false} StateAtNext(s: Sys, ls: seq<Label>, n: nat)
    requires Run(s, ls) && n < |ls|
    ensures Enabled(StateAt(s, ls, n), ls[n])
    ensures StateAt(s, ls, n + 1) == Apply(StateAt(s, ls, n), ls[n])
    decreases n
  {
    if n > 0 { StateAtNext(Apply(s, ls[0]), ls[1..], n - 1); }
  }

  // ---------- Projection ----------

  function FenceView(s: Sys): F.State {
    F.State(s.mem.own.fences, s.mem.loadGeneration, s.mem.lastAccepted, Contents(s.disk).fences)
  }

  /** What a step is to the fences. */
  function OpOf(s: Sys, l: Label): F.Op {
    match l
    case Ingest(stamp) => F.Ingest(stamp)
    case ReadBack(stamp, _, _) =>
      if s.task.Transition? && FencedAs(s.task.t).Some? then F.Confirm(FencedAs(s.task.t).value, stamp) else F.Other
    case ExtraSave => F.Save
    case Write => F.Save
    case Restart(now, _, outcome) => F.Reload(now, outcome != FailedUnwritten)
    case _ => F.Other
  }

  predicate StoreLabel(l: Label) { l.ExtraSave? || l.Write? || l.Restart? }

  predicate FenceLabel(l: Label) { l.Ingest? || l.ReadBack? || StoreLabel(l) }

  /** The step does to the fences what its operation does. */
  ghost predicate Projects(s: Sys, l: Label)
    requires Enabled(s, l)
  {
    FenceView(Apply(s, l)) == F.Apply(FenceView(s), OpOf(s, l))
  }

  lemma IngestProjects(s: Sys, l: Label)
    requires Enabled(s, l) && l.Ingest?
    ensures Projects(s, l)
  {}

  lemma ReadBackProjects(s: Sys, l: Label)
    requires Enabled(s, l) && l.ReadBack?
    ensures Projects(s, l)
  {}

  lemma StoreStepProjects(s: Sys, l: Label)
    requires Enabled(s, l) && StoreLabel(l)
    ensures Projects(s, l)
  {}

  lemma IssueProjects(s: Sys, l: Label)
    requires Enabled(s, l) && l.Issue?
    ensures Projects(s, l)
  {}

  lemma FinishIsQuiet(s: Sys, phase: J.Phase)
    requires s.task.Transition?
    ensures FenceView(Finish(s, s.mem, phase)) == FenceView(s) == FenceView(Failing(s))
  {}

  lemma StorageFailureIsQuiet(s: Sys, task: Task)
    requires s.task.Transition?
    ensures FenceView(s.(mem := StorageFailed(s.mem, s.task.t), task := task)) == FenceView(s)
  {}

  lemma DenyProjects(s: Sys, l: Label)
    requires Enabled(s, l) && l.Deny?
    ensures Projects(s, l)
  {
    FinishIsQuiet(s, J.Rejected);
  }

  lemma FailureProjects(s: Sys, l: Label)
    requires Enabled(s, l) && (l.Unconfirmed? || l.Raise?)
    ensures Projects(s, l)
  {
    FinishIsQuiet(s, J.Failed);
  }

  lemma ResumeProjects(s: Sys, l: Label)
    requires Enabled(s, l) && l.Resume?
    ensures Projects(s, l)
  {
    if s.task.Transition? { StorageFailureIsQuiet(s, Idle); }
  }

  lemma CancelProjects(s: Sys, l: Label)
    requires Enabled(s, l) && l.Cancel?
    ensures Projects(s, l)
  {
    if s.task.Transition? { StorageFailureIsQuiet(s, Transition(s.task.t, Saving(J.Failed, false, true))); }
  }

  lemma OtherStepProjects(s: Sys, l: Label)
    requires Enabled(s, l) && !FenceLabel(l) && !DispatchLabel(l) && !SaveLabel(l)
    ensures Projects(s, l)
  {}

  lemma StepProjects(s: Sys, l: Label)
    requires Enabled(s, l)
    ensures Projects(s, l)
  {
    if l.Ingest? {
      IngestProjects(s, l);
    } else if l.ReadBack? {
      ReadBackProjects(s, l);
    } else if StoreLabel(l) {
      StoreStepProjects(s, l);
    } else if l.Issue? {
      IssueProjects(s, l);
    } else if l.Deny? {
      DenyProjects(s, l);
    } else if DispatchLabel(l) {
      FailureProjects(s, l);
    } else if l.Resume? {
      ResumeProjects(s, l);
    } else if l.Cancel? {
      CancelProjects(s, l);
    } else {
      OtherStepProjects(s, l);
    }
  }

  ghost function Ops(s: Sys, ls: seq<Label>): (ops: seq<F.Op>)
    requires Run(s, ls)
    ensures |ops| == |ls| && forall i :: 0 <= i < |ls| ==> ops[i] == OpOf(StateAt(s, ls, i), ls[i])
  {
    seq(|ls|, i requires 0 <= i < |ls| => OpOf(StateAt(s, ls, i), ls[i]))
  }

  lemma {:induction false} RunProjects(s: Sys, ls: seq<Label>, n: nat)
    requires Run(s, ls) && n <= |ls|
    ensures F.After(FenceView(s), Ops(s, ls)[..n]) == FenceView(StateAt(s, ls, n))
  {
    if n > 0 {
      RunProjects(s, ls, n - 1);
      StateAtNext(s, ls, n - 1);
      StepProjects(StateAt(s, ls, n - 1), ls[n - 1]);
      assert Ops(s, ls)[..n][..n - 1] == Ops(s, ls)[..n - 1];
    }
  }

  // ---------- The gates ----------

  /** The transition has not settled yet. */
  predicate Unsettling(stage: Stage) {
    stage.Dispatching? || (!stage.unwinding && stage.phase in {J.Prepared, J.Dispatched})
  }

  /** The fences a transition found open when it began are open until it settles. */
  predicate GateInv(s: Sys) {
    s.task.Transition? && Unsettling(s.task.stage) ==> FenceGateOpen(s.task.t, s.mem.own.fences)
  }

  lemma IssueKeepsGate(s: Sys, l: Label)
    requires GateInv(s) && Enabled(s, l) && l.Issue?
    ensures GateInv(Apply(s, l))
  {}

  lemma SettledNeedsNoGate(s: Sys, l: Label)
    requires Enabled(s, l) && DispatchLabel(l) && !l.Issue?
    ensures GateInv(Apply(s, l))
  {}

  lemma SaveKeepsGate(s: Sys, l: Label)
    requires GateInv(s) && Enabled(s, l) && SaveLabel(l)
    ensures GateInv(Apply(s, l))
  {}

  lemma QuietStepKeepsGate(s: Sys, l: Label)
    requires GateInv(s) && Enabled(s, l) && !DispatchLabel(l) && !SaveLabel(l)
    ensures GateInv(Apply(s, l))
  {}

  lemma {:induction false} GateHoldsAt(s: Sys, ls: seq<Label>, n: nat)
    requires GateInv(s) && Run(s, ls) && n <= |ls|
    ensures GateInv(StateAt(s, ls, n))
    decreases n
  {
    if n > 0 {
      if ls[0].Issue? {
        IssueKeepsGate(s, ls[0]);
      } else if DispatchLabel(ls[0]) {
        SettledNeedsNoGate(s, ls[0]);
      } else if SaveLabel(ls[0]) {
        SaveKeepsGate(s, ls[0]);
      } else {
        QuietStepKeepsGate(s, ls[0]);
      }
      GateHoldsAt(Apply(s, ls[0]), ls[1..], n - 1);
    }
  }

  lemma ConfirmIsPermitted(s: Sys, ls: seq<Label>, i: nat)
    requires GateInv(s) && Run(s, ls) && i < |ls| && Ops(s, ls)[i].Confirm?
    ensures F.Permits(F.After(FenceView(s), Ops(s, ls)[..i]).mem, Ops(s, ls)[i].kind)
  {
    GateHoldsAt(s, ls, i);
    StateAtNext(s, ls, i);
    RunProjects(s, ls, i);
  }

  /** Every run confirms fenced actions only where their gates were open. */
  lemma RunIsPermitted(s: Sys, ls: seq<Label>)
    requires GateInv(s) && Run(s, ls)
    ensures F.Permitted(FenceView(s), Ops(s, ls))
  {
    forall i | 0 <= i < |ls| && Ops(s, ls)[i].Confirm?
      ensures F.Permits(F.After(FenceView(s), Ops(s, ls)[..i]).mem, Ops(s, ls)[i].kind)
    {
      ConfirmIsPermitted(s, ls, i);
    }
  }

  // ---------- Separation in every run ----------

  /** Position i confirms, by readback, a transition that installs this fence. */
  ghost predicate ConfirmsAt(s: Sys, ls: seq<Label>, i: nat, k: F.Kind)
    requires Run(s, ls)
  {
    i < |ls| && ls[i].ReadBack? && StateAt(s, ls, i).task.Transition? && FencedAs(StateAt(s, ls, i).task.t) == Some(k)
  }

  /** Whoever wrote it, some snapshot was written after i and before every restart between i and j. */
  ghost predicate WrittenBeforeRestart(ls: seq<Label>, i: nat, j: nat) {
    forall r :: i < r < j < |ls| && ls[r].Restart? ==> exists m :: i < m < r && (ls[m].ExtraSave? || ls[m].Write?)
  }

  /** An aggregate report ingested at k, accepted as new there, and stamped later than this. */
  ghost predicate LaterReportAt(s: Sys, ls: seq<Label>, k: nat, stamp: Time)
    requires Run(s, ls)
  {
    k < |ls| && ls[k].Ingest? && ls[k].stamp > stamp && AcceptsReport(StateAt(s, ls, k).mem, ls[k].stamp)
  }

  /** Operations that mirror the saves and restarts of these labels. */
  ghost predicate Mirrors(ls: seq<Label>, ops: seq<F.Op>) {
    && |ops| == |ls|
    && forall i :: 0 <= i < |ls| ==>
         (ops[i].Reload? ==> ls[i].Restart?) && (ls[i].ExtraSave? || ls[i].Write? ==> ops[i] == F.Save)
  }

  lemma OpsMirror(s: Sys, ls: seq<Label>)
    requires Run(s, ls)
    ensures Mirrors(ls, Ops(s, ls))
  {}

  lemma WrittenIsDurable(ls: seq<Label>, ops: seq<F.Op>, i: nat, j: nat)
    requires Mirrors(ls, ops) && i < j < |ls| && WrittenBeforeRestart(ls, i, j)
    ensures F.DurableBeforeReload(ops, i, j)
  {
    forall r | i < r < j && ops[r].Reload? ensures exists m :: i < m < r && ops[m] == F.Save {
      assert ls[r].Restart?;
      var m :| i < m < r && (ls[m].ExtraSave? || ls[m].Write?);
      assert ops[m] == F.Save;
    }
  }

  lemma AcceptedIsLaterReport(s: Sys, ls: seq<Label>, k: nat, stamp: Time)
    requires Run(s, ls) && F.AcceptedAfter(FenceView(s), Ops(s, ls), k, stamp)
    ensures LaterReportAt(s, ls, k, stamp)
  {
    RunProjects(s, ls, k);
  }

  lemma ConfirmsAtIsConfirm(s: Sys, ls: seq<Label>, i: nat, k: F.Kind)
    requires Run(s, ls) && ConfirmsAt(s, ls, i, k)
    ensures Ops(s, ls)[i] == F.Confirm(k, ls[i].stamp)
  {
    assert Ops(s, ls)[i] == OpOf(StateAt(s, ls, i), ls[i]);
  }

  /** Causal separation in every run of the protocol: of two confirmed transitions, a policy shed and a
      later shed or restore, or two restores, the second is confirmed only after an aggregate report,
      accepted in between, that is stamped later than the readback of the first, through failed saves,
      crashes and restarts, as long as one snapshot was written before the process died. */
  lemma ConfirmedActionsAreSeparated(s0: Sys, ls: seq<Label>, i: nat, j: nat, first: F.Kind, second: F.Kind)
    requires Initial(s0) && Run(s0, ls) && i < j && ConfirmsAt(s0, ls, i, first) && ConfirmsAt(s0, ls, j, second)
    requires F.Fenced(first, second) && WrittenBeforeRestart(ls, i, j)
    ensures exists k :: i < k < j && LaterReportAt(s0, ls, k, ls[i].stamp)
  {
    var view, ops := FenceView(s0), Ops(s0, ls);
    RunIsPermitted(s0, ls);
    OpsMirror(s0, ls);
    WrittenIsDurable(ls, ops, i, j);
    ConfirmsAtIsConfirm(s0, ls, i, first);
    ConfirmsAtIsConfirm(s0, ls, j, second);
    F.CausalSeparation(view, ops, i, j);
    var k :| i < k < j && F.AcceptedAfter(view, ops, k, ls[i].stamp);
    AcceptedIsLaterReport(s0, ls, k, ls[i].stamp);
  }

  // ---------- Release in every run ----------

  /** Between i and n no process ended and no newer transition of this kind was confirmed. */
  ghost predicate StillLatest(s: Sys, ls: seq<Label>, i: nat, n: nat, k: F.Kind)
    requires Run(s, ls)
  {
    i <= n <= |ls| && forall r :: i < r < n ==> !ls[r].Restart? && !ConfirmsAt(s, ls, r, k)
  }

  lemma StillLatestIsUndisturbed(s: Sys, ls: seq<Label>, i: nat, n: nat, k: F.Kind)
    requires Run(s, ls) && StillLatest(s, ls, i, n, k)
    ensures F.Undisturbed(Ops(s, ls), i, n, k)
  {
    forall r | i < r < n ensures !Ops(s, ls)[r].Reload? && !(Ops(s, ls)[r].Confirm? && Ops(s, ls)[r].kind == k) {
      assert Ops(s, ls)[r] == OpOf(StateAt(s, ls, r), ls[r]) && !ConfirmsAt(s, ls, r, k);
    }
  }

  lemma LaterReportIsIngest(s: Sys, ls: seq<Label>, m: nat, stamp: Time)
    requires Run(s, ls) && m < |ls|
    ensures LaterReportAt(s, ls, m, stamp) <==>
      && Ops(s, ls)[m].Ingest? && Ops(s, ls)[m].stamp > stamp
      && (var last := F.After(FenceView(s), Ops(s, ls)[..m]).lastAccepted;
          last.None? || Ops(s, ls)[m].stamp > last.value)
  {
    RunProjects(s, ls, m);
    assert Ops(s, ls)[m] == OpOf(StateAt(s, ls, m), ls[m]);
  }

  /** The barrier that a confirmed policy shed or restore put up is up exactly until the first aggregate
      report accepted since that is stamped later than its readback; then it is down. */
  lemma BarrierIsUpIffNoLaterReport(s0: Sys, ls: seq<Label>, i: nat, n: nat, k: F.Kind)
    requires Run(s0, ls) && ConfirmsAt(s0, ls, i, k) && i < n && StillLatest(s0, ls, i, n, k)
    ensures F.FenceOf(StateAt(s0, ls, n).mem.own.fences, k).generation.Some? <==>
      !exists m :: i < m < n && LaterReportAt(s0, ls, m, ls[i].stamp)
  {
    var view, ops, stamp := FenceView(s0), Ops(s0, ls), ls[i].stamp;
    ConfirmsAtIsConfirm(s0, ls, i, k);
    StillLatestIsUndisturbed(s0, ls, i, n, k);
    RunProjects(s0, ls, n);
    F.BarrierIsUpIffNoLaterReport(view, ops, i, n);
    if m :| i < m < n && LaterReportAt(s0, ls, m, stamp) { LaterReportIsIngest(s0, ls, m, stamp); }
    if m :| i < m < n && ops[m].Ingest? && ops[m].stamp > stamp
            && (var last := F.After(view, ops[..m]).lastAccepted; last.None? || ops[m].stamp > last.value) {
      LaterReportIsIngest(s0, ls, m, stamp);
    }
  }

  /** When a policy shed may begin: no policy shed is waiting for its report; a pending restore is no bar. */
  lemma ShedMayBeginIff(s: Sys, t: Txn)
    requires s.task == Idle && FreshId(s, t) && t.device in s.configured && t.before == s.mem.own
    requires t.kind.SwitchOff? && !t.kind.emergency && t.kind.source == Policy
    requires t.kind.commit.Keep? && t.kind.commit.fenced
    ensures Enabled(s, Begin(t)) <==> s.mem.own.fences.shed.generation.None? && t.device !in s.mem.quarantined
  {}
}
