/**
 * A run in which a confirmed shed's fence never reached disk: the process dies before any snapshot,
 * and the next one sheds again on a report older than the first shed's readback.
 */
module ProtocolForgotten {
  import opened Prelude
  import opened Ownership
  import opened Protocol
  import opened ProtocolJournal
  import opened ProtocolFences
  import PR = ProtocolRuns
  import PC = ProtocolClears
  import J = Journal
  import F = Fences
  import TS = TicketStore

  // ---------- Runs label by label ----------

  ghost predicate RunsTo(s0: Sys, ls: seq<Label>, s: Sys) { Run(s0, ls) && Exec(s0, ls) == s }

  lemma RunsToNext(s0: Sys, ls: seq<Label>, s: Sys, l: Label, s': Sys)
    requires RunsTo(s0, ls, s) && Enabled(s, l) && Apply(s, l) == s'
    ensures RunsTo(s0, ls + [l], s')
  {
    RunSnoc(s0, ls, l);
  }

  lemma {:induction false} StateAtPrefix(s: Sys, a: seq<Label>, b: seq<Label>)
    requires Run(s, a) && Run(s, a + b)
    ensures StateAt(s, a + b, |a|) == Exec(s, a)
    decreases |a|
  {
    if a != [] {
      assert (a + b)[0] == a[0] && (a + b)[1..] == a[1..] + b;
      StateAtPrefix(Apply(s, a[0]), a[1..], b);
    }
  }

  // ---------- A house of two loads ----------

  const LOADS := {"x", "y"}

  const FOUND: Disk := Stored(NOTHING.(mode := Some(Auto)))

  const HOUSE := Sys(LOADS, Recover(LOADS, FOUND, 0.0, false), FOUND, Idle, [], multiset{}, multiset{})

  const UNOWNED := Owned([], map[], F.START.mem)

  function ShedOf(d: DeviceId, action: string): Txn {
    var commit := Keep("overload", RestoreState("switch.load", false, None), true);
    Txn(action, 0, d, SwitchOff(false, Policy, 0, commit), 0.0, UNOWNED)
  }

  /** Memory in which the load may be shed. */
  predicate Ready(m: Mem, d: DeviceId) {
    && EmergencyAllowed(m) && m.telemetry == NoFault && !m.sourceLoss && m.own == UNOWNED && d !in m.quarantined
  }

  lemma ReadyMayShed(m: Mem, d: DeviceId)
    requires Ready(m, d)
    ensures OffPermitted(m, PR.CALM, false, Policy)
  {}

  lemma ShedIsGood(d: DeviceId, action: string)
    requires action == "a" || action == "b"
    ensures GoodId(ShedOf(d, action))
  {
    assert action[0] == 'a' || action[0] == 'b';
  }

  lemma HouseIsReady()
    ensures Initial(HOUSE) && Ready(HOUSE.mem, "x") && HOUSE.mem.journal == []
  {
    assert RecoveredPauses(map[], LOADS, 0.0) == map[];
    assert J.UnresolvedIn([]) == [];
  }

  // ---------- One shed, up to its readback ----------

  function CallOff(t: Txn): seq<Label> {
    [Begin(t), Write, Resume(true), Write, Resume(true), Issue(TurnOff, PR.CALM)]
  }

  function CalledOff(s: Sys, t: Txn): Sys {
    var p := PR.Published(s, t);
    p.(calls := p.calls + [Call(t, TurnOff, p.mem, PR.CALM, Contents(p.disk).journal)],
       task := Transition(t, Dispatching(AwaitingReadback(true))))
  }

  lemma PublishRuns(s0: Sys, ls: seq<Label>, s: Sys, t: Txn)
    requires RunsTo(s0, ls, s) && Enabled(s, Begin(t))
    ensures RunsTo(s0, ls + [Begin(t)] + [Write] + [Resume(true)] + [Write] + [Resume(true)], PR.Published(s, t))
  {
    var s1 := PR.Recording(s, t, J.Prepared);
    var s2 := PR.Saved(s1, t, J.Prepared);
    var s3 := PR.Recording(s2, t, J.Dispatched);
    var s4 := PR.Saved(s3, t, J.Dispatched);
    PR.BeginStep(s, PC.NO_CLEARS, t.device, t);
    PR.WriteStep(s1, PC.NO_CLEARS, t.device, t, J.Prepared);
    PR.PreparedStep(s2, PC.NO_CLEARS, t.device, t);
    PR.WriteStep(s3, PC.NO_CLEARS, t.device, t, J.Dispatched);
    PR.DispatchedStep(s4, PC.NO_CLEARS, t.device, t);
    RunsToNext(s0, ls, s, Begin(t), s1);
    RunsToNext(s0, ls + [Begin(t)], s1, Write, s2);
    RunsToNext(s0, ls + [Begin(t)] + [Write], s2, Resume(true), s3);
    RunsToNext(s0, ls + [Begin(t)] + [Write] + [Resume(true)], s3, Write, s4);
    RunsToNext(s0, ls + [Begin(t)] + [Write] + [Resume(true)] + [Write], s4, Resume(true), PR.Published(s, t));
  }

  lemma CallOffStep(s: Sys, t: Txn)
    requires s.task == Transition(t, Dispatching(Start)) && t.kind.SwitchOff?
    requires OffPermitted(s.mem, PR.CALM, t.kind.emergency, t.kind.source)
    ensures Enabled(s, Issue(TurnOff, PR.CALM))
    ensures Apply(s, Issue(TurnOff, PR.CALM)) ==
      s.(calls := s.calls + [Call(t, TurnOff, s.mem, PR.CALM, Contents(s.disk).journal)],
         task := Transition(t, Dispatching(AwaitingReadback(true))))
  {}

  lemma Six<T>(s: seq<T>, a: T, b: T, c: T, d: T, e: T, f: T)
    ensures s + [a] + [b] + [c] + [d] + [e] + [f] == s + [a, b, c, d, e, f]
  {}

  lemma CallOffRuns(s0: Sys, ls: seq<Label>, s: Sys, d: DeviceId, action: string)
    requires RunsTo(s0, ls, s) && Enabled(s, Begin(ShedOf(d, action))) && Ready(s.mem, d)
    ensures RunsTo(s0, ls + CallOff(ShedOf(d, action)), CalledOff(s, ShedOf(d, action)))
  {
    var t := ShedOf(d, action);
    var five := ls + [Begin(t)] + [Write] + [Resume(true)] + [Write] + [Resume(true)];
    PublishRuns(s0, ls, s, t);
    ReadyMayShed(PR.Published(s, t).mem, d);
    CallOffStep(PR.Published(s, t), t);
    RunsToNext(s0, five, PR.Published(s, t), Issue(TurnOff, PR.CALM), CalledOff(s, t));
    Six(ls, Begin(t), Write, Resume(true), Write, Resume(true), Issue(TurnOff, PR.CALM));
  }

  // ---------- Between the two sheds ----------

  /** The shed is confirmed, in memory only, by a readback with this stamp. */
  function ConfirmedOff(c: Sys, t: Txn, stamp: Time): Sys {
    var own := CommitOwned(t, c.mem.own, 0.0, None, stamp, c.mem.loadGeneration);
    c.(mem := Recorded(c.mem.(own := own), t, J.Confirmed), task := Transition(t, Saving(J.Confirmed, false, false)),
       created := if CreatesTicket(t) then c.created + multiset{t.device} else c.created)
  }

  lemma ConfirmOffStep(c: Sys, t: Txn, stamp: Time)
    requires c.task == Transition(t, Dispatching(AwaitingReadback(true)))
    ensures Enabled(c, ReadBack(stamp, 0.0, None)) && Apply(c, ReadBack(stamp, 0.0, None)) == ConfirmedOff(c, t, stamp)
  {}

  lemma ReportStep(s: Sys, stamp: Time)
    requires s.task == Idle && s.mem.own == UNOWNED && s.mem.lastAccepted == None && s.mem.loadGeneration == 0
    ensures Enabled(s, Ingest(stamp)) && Apply(s, Ingest(stamp)) == Reported(s, stamp)
  {}

  function Reported(s: Sys, stamp: Time): Sys {
    s.(mem := s.mem.(loadGeneration := 1, lastAccepted := Some(stamp)))
  }

  function FirstCall(): Sys { CalledOff(HOUSE, ShedOf("x", "a")) }

  function Reborn(): Sys { Rebooted(ConfirmedOff(FirstCall(), ShedOf("x", "a"), 10.0), 20.0, false, SavedOk) }

  function SecondCall(): Sys { CalledOff(Reported(Reborn(), 5.0), ShedOf("y", "b")) }

  lemma FirstCallRuns()
    ensures RunsTo(HOUSE, CallOff(ShedOf("x", "a")), FirstCall())
  {
    HouseIsReady();
    ShedIsGood("x", "a");
    assert Run(HOUSE, []) && RunsTo(HOUSE, [], HOUSE);
    CallOffRuns(HOUSE, [], HOUSE, "x", "a");
    assert [] + CallOff(ShedOf("x", "a")) == CallOff(ShedOf("x", "a"));
  }

  /** The journal on disk names the first load only, and the second action's identity is fresh. */
  lemma SecondIsNotAmbiguous()
    ensures var h := PR.DispatchedJournal([], ShedOf("x", "a"));
      "y" !in Ambiguous(h, LOADS) && FreeOf(h, TxnId(ShedOf("y", "b")))
  {
    var t := ShedOf("x", "a");
    ShedIsGood("x", "a");
    assert "a"[0] != "b"[0];
    PR.FirstJournal(t, TxnId(ShedOf("y", "b")));
    OthersAreUnnamed(PR.DispatchedJournal([], t), t, "y");
  }

  lemma OthersAreUnnamed(h: seq<J.Event>, t: Txn, d: DeviceId)
    requires |h| == 1 && Tail(h, t, J.Dispatched) && t.device == "x" && d == "y"
    ensures d !in Ambiguous(h, LOADS)
  {
    UnresolvedAreRecords(h);
    assert "x"[0] != "y"[0];
    assert !NamesDevice(h[0], d);
    forall r | r in J.Unresolved(h) ensures !NamesDevice(r, d) {
      assert r in J.UnresolvedIn(h);
      assert r == h[0];
    }
  }

  /** The new process reads the disk of before the readback, which nothing overwrote. */
  lemma RebornIsReady()
    ensures var r := Reborn(); var h := PR.DispatchedJournal([], ShedOf("x", "a"));
      && Ready(r.mem, "y") && r.task == Idle && r.configured == LOADS
      && r.mem.journal == h && Contents(r.disk).journal == h
      && r.mem.loadGeneration == 0 && r.mem.lastAccepted == None
  {
    HouseIsReady();
    SecondIsNotAmbiguous();
    assert RecoveredPauses(map[], LOADS, 20.0) == map[];
  }

  lemma SecondIsEnabled()
    ensures Enabled(Reported(Reborn(), 5.0), Begin(ShedOf("y", "b"))) && Ready(Reported(Reborn(), 5.0).mem, "y")
  {
    RebornIsReady();
    SecondIsNotAmbiguous();
    ShedIsGood("y", "b");
  }

  // ---------- The run ----------

  function UpToDeath(): seq<Label> { CallOff(ShedOf("x", "a")) + [ReadBack(10.0, 0.0, None)] }

  function UpToReport(): seq<Label> { UpToDeath() + [Restart(20.0, false, SavedOk)] + [Ingest(5.0)] }

  function ForgottenLabels(): seq<Label> {
    UpToReport() + CallOff(ShedOf("y", "b")) + [ReadBack(30.0, 0.0, None)]
  }

  lemma ReportRuns()
    ensures RunsTo(HOUSE, UpToReport(), Reported(Reborn(), 5.0))
  {
    var c := ConfirmedOff(FirstCall(), ShedOf("x", "a"), 10.0);
    FirstCallRuns();
    ConfirmOffStep(FirstCall(), ShedOf("x", "a"), 10.0);
    RunsToNext(HOUSE, CallOff(ShedOf("x", "a")), FirstCall(), ReadBack(10.0, 0.0, None), c);
    RunsToNext(HOUSE, UpToDeath(), c, Restart(20.0, false, SavedOk), Reborn());
    RebornIsReady();
    ReportStep(Reborn(), 5.0);
    RunsToNext(HOUSE, UpToDeath() + [Restart(20.0, false, SavedOk)], Reborn(), Ingest(5.0), Reported(Reborn(), 5.0));
  }

  lemma SecondCallRuns()
    ensures RunsTo(HOUSE, UpToReport() + CallOff(ShedOf("y", "b")), SecondCall()) && Run(HOUSE, ForgottenLabels())
  {
    var t := ShedOf("y", "b");
    ReportRuns();
    SecondIsEnabled();
    CallOffRuns(HOUSE, UpToReport(), Reported(Reborn(), 5.0), "y", "b");
    ConfirmOffStep(SecondCall(), t, 30.0);
    var done := ConfirmedOff(SecondCall(), t, 30.0);
    RunsToNext(HOUSE, UpToReport() + CallOff(t), SecondCall(), ReadBack(30.0, 0.0, None), done);
  }

  /** Where a run's prefix leaves a fenced transition, the next readback confirms it. */
  lemma ConfirmsAfter(s0: Sys, ls: seq<Label>, s: Sys, t: Txn, stamp: Time, rest: seq<Label>, all: seq<Label>)
    requires RunsTo(s0, ls, s) && s.task.Transition? && s.task.t == t && FencedAs(t) == Some(F.Shed)
    requires all == ls + ([ReadBack(stamp, 0.0, None)] + rest) && Run(s0, all)
    ensures ConfirmsAt(s0, all, |ls|, F.Shed)
  {
    StateAtPrefix(s0, ls, [ReadBack(stamp, 0.0, None)] + rest);
  }

  function AfterDeath(): seq<Label> {
    [Restart(20.0, false, SavedOk)] + [Ingest(5.0)] + CallOff(ShedOf("y", "b")) + [ReadBack(30.0, 0.0, None)]
  }

  lemma Regroup<T>(a: seq<T>, b: seq<T>, c: seq<T>, d: seq<T>, e: seq<T>, f: seq<T>)
    ensures a + b + c + d + e + f == a + (b + (c + d + e + f))
  {}

  lemma FirstIsConfirmed()
    requires Run(HOUSE, ForgottenLabels())
    ensures ConfirmsAt(HOUSE, ForgottenLabels(), 6, F.Shed)
  {
    var t := ShedOf("x", "a");
    FirstCallRuns();
    Regroup(CallOff(t), [ReadBack(10.0, 0.0, None)], [Restart(20.0, false, SavedOk)], [Ingest(5.0)],
      CallOff(ShedOf("y", "b")), [ReadBack(30.0, 0.0, None)]);
    ConfirmsAfter(HOUSE, CallOff(t), FirstCall(), t, 10.0, AfterDeath(), ForgottenLabels());
  }

  lemma SecondIsConfirmed()
    requires Run(HOUSE, ForgottenLabels())
    ensures ConfirmsAt(HOUSE, ForgottenLabels(), 15, F.Shed)
  {
    var t := ShedOf("y", "b");
    SecondCallRuns();
    assert ForgottenLabels() == (UpToReport() + CallOff(t)) + ([ReadBack(30.0, 0.0, None)] + []);
    ConfirmsAfter(HOUSE, UpToReport() + CallOff(t), SecondCall(), t, 30.0, [], ForgottenLabels());
  }

  lemma OnlyAnOlderReport(k: nat)
    requires 6 < k < 15 && ForgottenLabels()[k].Ingest?
    ensures ForgottenLabels()[k].stamp < ForgottenLabels()[6].stamp
  {
    assert ForgottenLabels()[6] == ReadBack(10.0, 0.0, None);
    assert ForgottenLabels()[8] == Ingest(5.0);
  }

  lemma NothingWasWritten()
    ensures !WrittenBeforeRestart(ForgottenLabels(), 6, 15)
  {
    assert ForgottenLabels()[7] == Restart(20.0, false, SavedOk);
  }

  /** That a snapshot be written before the process dies is needed in the protocol itself: here is a run of
      it in which two policy sheds are confirmed and no report later than the first lies between them. */
  lemma UnwrittenShedIsForgotten()
    ensures Initial(HOUSE) && Run(HOUSE, ForgottenLabels()) && !WrittenBeforeRestart(ForgottenLabels(), 6, 15)
    ensures ConfirmsAt(HOUSE, ForgottenLabels(), 6, F.Shed) && ConfirmsAt(HOUSE, ForgottenLabels(), 15, F.Shed)
    ensures forall k :: 6 < k < 15 ==> !LaterReportAt(HOUSE, ForgottenLabels(), k, ForgottenLabels()[6].stamp)
  {
    HouseIsReady();
    SecondCallRuns();
    FirstIsConfirmed();
    SecondIsConfirmed();
    NothingWasWritten();
    forall k | 6 < k < 15 ensures !LaterReportAt(HOUSE, ForgottenLabels(), k, ForgottenLabels()[6].stamp) {
      if ForgottenLabels()[k].Ingest? { OnlyAnOlderReport(k); }
    }
  }
}
