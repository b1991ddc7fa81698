/**
 * Concrete runs at the edge of the credit bound: two starts from one ticket, after a clear that
 * failed once its flags were written, and after a crash when the journal truncates the load's identity.
 */
module ProtocolRuns {
  import opened Prelude
  import opened Ownership
  import opened Protocol
  import opened ProtocolJournal
  import opened ProtocolSafety
  import opened ProtocolClears
  import J = Journal
  import F = Fences
  import TS = TicketStore

  // ---------- Reaching a state with its clears counted ----------

  ghost predicate Leads(s0: Sys, s: Sys, y: Tally, d: DeviceId) {
    exists ls :: LeadsBy(s0, ls, s, y, d)
  }

  ghost predicate LeadsBy(s0: Sys, ls: seq<Label>, s: Sys, y: Tally, d: DeviceId) {
    Run(s0, ls) && Exec(s0, ls) == s && Tallied(s0, ls, NO_CLEARS, d) == y
  }

  lemma {:induction false} TalliedSnoc(s: Sys, ls: seq<Label>, l: Label, y: Tally, d: DeviceId)
    requires Run(s, ls) && Enabled(Exec(s, ls), l)
    ensures Run(s, ls + [l])
    ensures Tallied(s, ls + [l], y, d) == Counted(Exec(s, ls), l, Tallied(s, ls, y, d), d)
    decreases |ls|
  {
    RunSnoc(s, ls, l);
    var all := ls + [l];
    if ls == [] {
      assert all[0] == l && all[1..] == [];
    } else {
      assert all[0] == ls[0] && all[1..] == ls[1..] + [l];
      TalliedSnoc(Apply(s, ls[0]), ls[1..], l, Counted(s, ls[0], y, d), d);
    }
  }

  lemma LeadsToItself(s: Sys, d: DeviceId)
    ensures Leads(s, s, NO_CLEARS, d)
  {
    assert LeadsBy(s, [], s, NO_CLEARS, d);
  }

  lemma LeadsNext(s0: Sys, s: Sys, y: Tally, d: DeviceId, l: Label)
    requires Leads(s0, s, y, d) && Enabled(s, l)
    ensures Leads(s0, Apply(s, l), Counted(s, l, y, d), d)
  {
    var ls :| LeadsBy(s0, ls, s, y, d);
    RunSnoc(s0, ls, l);
    TalliedSnoc(s0, ls, l, NO_CLEARS, d);
    assert LeadsBy(s0, ls + [l], Apply(s, l), Counted(s, l, y, d), d);
  }

  /** One step, with its effect and its count spelled out. */
  ghost predicate Steps(s: Sys, y: Tally, d: DeviceId, l: Label, s': Sys, y': Tally) {
    Enabled(s, l) && Apply(s, l) == s' && Counted(s, l, y, d) == y'
  }

  lemma LeadsTo(s0: Sys, s: Sys, y: Tally, d: DeviceId, l: Label, s': Sys, y': Tally)
    requires Leads(s0, s, y, d) && Steps(s, y, d, l, s', y')
    ensures Leads(s0, s', y', d)
  {
    LeadsNext(s0, s, y, d, l);
  }

  lemma LeadsReaches(s0: Sys, s: Sys, y: Tally, d: DeviceId)
    requires Leads(s0, s, y, d)
    ensures Reaches(s0, s)
  {
    var ls :| LeadsBy(s0, ls, s, y, d);
  }

  // ---------- The steps of one start ----------

  function Recording(s: Sys, t: Txn, phase: J.Phase): Sys {
    s.(mem := Recorded(s.mem, t, phase), task := Transition(t, Saving(phase, false, false)))
  }

  function Saved(s: Sys, t: Txn, phase: J.Phase): Sys {
    s.(disk := Snapshot(s.configured, s.mem), task := Transition(t, Saving(phase, true, false)))
  }

  lemma BeginStep(s: Sys, y: Tally, d: DeviceId, t: Txn)
    requires Enabled(s, Begin(t))
    ensures Steps(s, y, d, Begin(t), Recording(s, t, J.Prepared), y)
  {}

  lemma WriteStep(s: Sys, y: Tally, d: DeviceId, t: Txn, phase: J.Phase)
    requires s.task == Transition(t, Saving(phase, false, false))
    ensures Steps(s, y, d, Write, Saved(s, t, phase), y)
  {}

  lemma PreparedStep(s: Sys, y: Tally, d: DeviceId, t: Txn)
    requires s.task == Transition(t, Saving(J.Prepared, true, false))
    ensures Steps(s, y, d, Resume(true), Recording(s, t, J.Dispatched), y)
  {}

  lemma DispatchedStep(s: Sys, y: Tally, d: DeviceId, t: Txn)
    requires s.task == Transition(t, Saving(J.Dispatched, true, false))
    ensures Steps(s, y, d, Resume(true), s.(task := Transition(t, Dispatching(Start))), y)
  {}

  lemma CallStep(s: Sys, y: Tally, d: DeviceId, t: Txn)
    requires s.task == Transition(t, Dispatching(Start)) && t.kind.SwitchOn? && !CALM.climate
    requires OnPermitted(s.mem, CALM, t.device, t.kind.ticket)
    ensures Steps(s, y, d, Issue(TurnOn, CALM), AfterCall(s, t), y)
  {}

  function AfterCall(s: Sys, t: Txn): Sys {
    s.(calls := s.calls + [Call(t, TurnOn, s.mem, CALM, Contents(s.disk).journal)],
       task := Transition(t, Dispatching(AwaitingReadback(false))))
  }

  lemma UnconfirmedStep(s: Sys, y: Tally, d: DeviceId, t: Txn)
    requires s.task == Transition(t, Dispatching(AwaitingReadback(false)))
    ensures Steps(s, y, d, Unconfirmed, Recording(s.(mem := Latched(s.mem, t.device)), t, J.Failed), y)
  {}

  lemma FailedStep(s: Sys, y: Tally, d: DeviceId, t: Txn)
    requires s.task == Transition(t, Saving(J.Failed, true, false))
    ensures Steps(s, y, d, Resume(true), s.(task := Idle), y)
  {}

  lemma RestartStep(s: Sys, y: Tally, d: DeviceId)
    requires !ClearingOf(s.task, d)
    ensures Steps(s, y, d, Restart(0.0, false, SavedOk), Rebooted(s, 0.0, false, SavedOk), y)
  {}

  // ---------- A house with one load, switched off by this controller ----------

  function OwnTicket(d: DeviceId): Ticket {
    Ticket(d, "overload", 0, 0.0, 100.0, RestoreState("switch.load", false, None))
  }

  function OwnedTicket(d: DeviceId): Owned { Owned([OwnTicket(d)], map[], F.START.mem) }

  const CALM := World(true, 0.0, true, true, 0.0, false, true, true, true, true, "switch.load", false, 0.0, 1.0, 0.0)

  function TicketOnDisk(d: DeviceId): Disk {
    Stored(NOTHING.(mode := Some(Auto), tickets := Present([OwnTicket(d)])))
  }

  function Home(d: DeviceId): Sys {
    Sys({d}, Recover({d}, TicketOnDisk(d), 0.0, false), TicketOnDisk(d), Idle, [], multiset{}, multiset{})
  }

  function StartOf(d: DeviceId, action: string): Txn { Txn(action, 0, d, SwitchOn(OwnTicket(d)), 0.0, OwnedTicket(d)) }

  /** Memory in which the load may be started. */
  predicate Armed(m: Mem, d: DeviceId) {
    && EmergencyAllowed(m) && !m.storeInvalid && m.telemetry == NoFault && !m.sourceLoss
    && m.own == OwnedTicket(d) && !Flagged(m, d)
  }

  lemma OwnTicketIsReloaded(d: DeviceId)
    ensures TS.Reloaded([OwnTicket(d)], {d}, 0.0) == [OwnTicket(d)]
    ensures !TS.FromTheFuture([OwnTicket(d)], 0.0)
  {
    TS.SaveReloadRoundTrip([OwnTicket(d)], {d}, 0.0);
  }

  lemma HomeIsArmed(d: DeviceId)
    ensures Initial(Home(d)) && Armed(Home(d).mem, d) && Home(d).mem.journal == []
  {
    OwnTicketIsReloaded(d);
    assert RecoveredPauses(map[], {d}, 0.0) == map[];
    assert J.UnresolvedIn([]) == [];
  }

  /** An armed, unflagged snapshot with nothing ambiguous recovers armed. */
  lemma ArmedRecovers(m: Mem, d: DeviceId)
    requires Armed(m, d) && d !in Ambiguous(m.journal, {d})
    ensures var r := Recover({d}, Snapshot({d}, m), 0.0, false); Armed(r, d) && r.journal == m.journal
  {
    OwnTicketIsReloaded(d);
    assert RecoveredPauses(map[], {d}, 0.0) == map[];
  }

  lemma ArmedMayStart(m: Mem, d: DeviceId)
    requires Armed(m, d)
    ensures OnPermitted(m, CALM, d, OwnTicket(d))
  {
    assert Lookup([OwnTicket(d)], d) == Some(OwnTicket(d));
    assert "overload"[0] == 'o';
    forall r | r in RECOVERABLE_REASONS ensures r != "overload" { assert r[0] != 'o'; }
  }

  // ---------- One start, up to its call ----------

  function DispatchedJournal(h: seq<J.Event>, t: Txn): seq<J.Event> { Rec(Rec(h, t, J.Prepared), t, J.Dispatched) }

  /** Both phases saved, nothing called yet. */
  function Published(s: Sys, t: Txn): Sys {
    var m := s.mem.(journal := DispatchedJournal(s.mem.journal, t));
    s.(mem := m, disk := Snapshot(s.configured, m), task := Transition(t, Dispatching(Start)))
  }

  lemma PublishLeads(s0: Sys, s: Sys, y: Tally, d: DeviceId, t: Txn)
    requires Leads(s0, s, y, d) && Enabled(s, Begin(t))
    ensures Leads(s0, Published(s, t), y, d)
  {
    var s1 := Recording(s, t, J.Prepared);
    var s2 := Saved(s1, t, J.Prepared);
    var s3 := Recording(s2, t, J.Dispatched);
    var s4 := Saved(s3, t, J.Dispatched);
    BeginStep(s, y, d, t);
    WriteStep(s1, y, d, t, J.Prepared);
    PreparedStep(s2, y, d, t);
    WriteStep(s3, y, d, t, J.Dispatched);
    DispatchedStep(s4, y, d, t);
    LeadsTo(s0, s, y, d, Begin(t), s1, y);
    LeadsTo(s0, s1, y, d, Write, s2, y);
    LeadsTo(s0, s2, y, d, Resume(true), s3, y);
    LeadsTo(s0, s3, y, d, Write, s4, y);
    LeadsTo(s0, s4, y, d, Resume(true), Published(s, t), y);
  }

  lemma StartIsEnabled(s: Sys, d: DeviceId, action: string)
    requires s.task == Idle && s.configured == {d} && Armed(s.mem, d) && FreshId(s, StartOf(d, action))
    ensures Enabled(s, Begin(StartOf(d, action)))
  {
    assert Lookup([OwnTicket(d)], d) == Some(OwnTicket(d));
  }

  /** Where the start has been called and not yet read back. */
  function Called(s: Sys, t: Txn): Sys { AfterCall(Published(s, t), t) }

  lemma CalledCounts(s: Sys, d: DeviceId, t: Txn)
    requires t.device == d
    ensures OnCalls(Called(s, t).calls, d) == OnCalls(s.calls, d) + 1
  {
    assert Called(s, t).calls[..|s.calls|] == s.calls;
  }

  lemma StartLeads(s0: Sys, s: Sys, y: Tally, d: DeviceId, action: string)
    requires Leads(s0, s, y, d) && s.task == Idle && s.configured == {d} && Armed(s.mem, d)
    requires FreshId(s, StartOf(d, action))
    ensures var t := StartOf(d, action);
      Leads(s0, Published(s, t), y, d) && Leads(s0, Called(s, t), y, d)
    ensures Steps(Published(s, StartOf(d, action)), y, d, Issue(TurnOn, CALM), Called(s, StartOf(d, action)), y)
  {
    var t := StartOf(d, action);
    StartIsEnabled(s, d, action);
    PublishLeads(s0, s, y, d, t);
    ArmedMayStart(Published(s, t).mem, d);
    CallStep(Published(s, t), y, d, t);
    LeadsTo(s0, Published(s, t), y, d, Issue(TurnOn, CALM), Called(s, t), y);
  }

  // ---------- What the journal shows ----------

  lemma StartIsGood(d: DeviceId, action: string)
    requires action == "a" || action == "b"
    ensures GoodId(StartOf(d, action))
  {
    assert action[0] == 'a' || action[0] == 'b';
  }

  lemma RecKeepsFree(h: seq<J.Event>, t: Txn, phase: J.Phase, id: J.Value)
    requires J.NormalForm(h) && GoodId(t) && FreeOf(h, id) && id != TxnId(t)
    ensures FreeOf(Rec(h, t, phase), id)
  {
    var e := TxnEvent(t, phase);
    TxnEventNormalizes(t, phase);
    J.RecordIsEffect(h, e, t.startedAt);
    EffectKeepsFree(h, e, t.startedAt, id);
  }

  lemma EffectKeepsFree(h: seq<J.Event>, e: J.Event, now: Time, id: J.Value)
    requires J.NormalForm(h) && J.Storable(e) && FreeOf(h, id) && id != J.IdOf(J.Normalize(e, now).value)
    ensures FreeOf(J.Effect(h, e, now), id)
  {
    var i := J.FindId(h, J.IdOf(J.Normalize(e, now).value));
    if i < |h| { J.MergeFacts(h[i], e, now); }
  }

  /** After the first dispatch of all the journal is that record alone, and another identity is still fresh. */
  lemma FirstJournal(t: Txn, id: J.Value)
    requires GoodId(t) && id != TxnId(t)
    ensures var h := DispatchedJournal([], t);
      J.NormalForm(h) && |h| == 1 && Tail(h, t, J.Dispatched) && FreeOf(h, id)
  {
    RecordFresh([], t, J.Prepared);
    var h1 := Rec([], t, J.Prepared);
    TxnEventNormalizes(t, J.Prepared);
    J.RecordIsEffect([], TxnEvent(t, J.Prepared), t.startedAt);
    assert |h1| == 1;
    RecordAgain(h1, t, J.Prepared, J.Dispatched);
    RecordedInPlace(h1, t, J.Prepared, J.Dispatched);
    RecKeepsFree([], t, J.Prepared, id);
    RecKeepsFree(h1, t, J.Dispatched, id);
  }

  lemma FirstStartJournal(d: DeviceId)
    ensures var h := DispatchedJournal([], StartOf(d, "a"));
      && J.NormalForm(h) && |h| == 1 && Tail(h, StartOf(d, "a"), J.Dispatched)
      && FreeOf(h, TxnId(StartOf(d, "b"))) && GoodId(StartOf(d, "a"))
  {
    StartIsGood(d, "a");
    assert "a"[0] != "b"[0];
    FirstJournal(StartOf(d, "a"), TxnId(StartOf(d, "b")));
  }

  lemma RecordedInPlace(h: seq<J.Event>, t: Txn, phase: J.Phase, next: J.Phase)
    requires J.NormalForm(h) && GoodId(t) && Tail(h, t, phase)
    ensures |Rec(h, t, next)| == |h|
  {
    TxnEventNormalizes(t, next);
    J.RecordIsEffect(h, TxnEvent(t, next), t.startedAt);
    assert J.FindId(h, TxnId(t)) == |h| - 1;
  }

  lemma SettledAloneIsUnambiguous(h: seq<J.Event>, t: Txn, d: DeviceId)
    requires |h| == 1 && Tail(h, t, J.Failed)
    ensures d !in Ambiguous(h, {d})
  {
    assert J.UnresolvedIn(h) == J.UnresolvedIn(h[..0]) == [];
  }

  /** Recording the failure settles the only record there is. */
  lemma FailedJournal(d: DeviceId)
    ensures var h := Rec(DispatchedJournal([], StartOf(d, "a")), StartOf(d, "a"), J.Failed);
      && J.NormalForm(h) && FreeOf(h, TxnId(StartOf(d, "b"))) && d !in Ambiguous(h, {d})
  {
    var t := StartOf(d, "a");
    var before := DispatchedJournal([], t);
    FirstStartJournal(d);
    StartIsGood(d, "a");
    RecordAgain(before, t, J.Dispatched, J.Failed);
    RecordedInPlace(before, t, J.Dispatched, J.Failed);
    SettledAloneIsUnambiguous(Rec(before, t, J.Failed), t, d);
    assert "a"[0] != "b"[0];
    RecKeepsFree(before, t, J.Failed, TxnId(StartOf(d, "b")));
  }

  // ---------- An identity the journal truncates ----------

  /** The state one crash after the call recovers to. */
  function CrashedAfterCall(d: DeviceId): Sys { Rebooted(Called(Home(d), StartOf(d, "a")), 0.0, false, SavedOk) }

  lemma FirstStart(d: DeviceId)
    ensures var s0, t := Home(d), StartOf(d, "a");
      && Leads(s0, Published(s0, t), NO_CLEARS, d) && Leads(s0, Called(s0, t), NO_CLEARS, d)
      && Steps(Published(s0, t), NO_CLEARS, d, Issue(TurnOn, CALM), Called(s0, t), NO_CLEARS)
      && OnCalls(Called(s0, t).calls, d) == 1
  {
    HomeIsArmed(d);
    StartIsGood(d, "a");
    LeadsToItself(Home(d), d);
    StartLeads(Home(d), Home(d), NO_CLEARS, d, "a");
    CalledCounts(Home(d), d, StartOf(d, "a"));
  }

  lemma TruncatedIsNotAmbiguous(d: DeviceId)
    requires |d| > J.MAX_FIELD_LENGTH
    ensures d !in Ambiguous(DispatchedJournal([], StartOf(d, "a")), {d})
  {
    FirstStartJournal(d);
    UnfinishedIsFlaggedIffNotTruncated(DispatchedJournal([], StartOf(d, "a")), StartOf(d, "a"), J.Dispatched, {d});
  }

  lemma CrashLeads(d: DeviceId)
    requires |d| > J.MAX_FIELD_LENGTH
    ensures var s := CrashedAfterCall(d);
      && Leads(Home(d), s, NO_CLEARS, d) && Armed(s.mem, d) && s.mem.journal == DispatchedJournal([], StartOf(d, "a"))
      && Contents(s.disk).journal == s.mem.journal
  {
    var c := Called(Home(d), StartOf(d, "a"));
    HomeIsArmed(d);
    FirstStart(d);
    TruncatedIsNotAmbiguous(d);
    ArmedRecovers(c.mem, d);
    RestartStep(c, NO_CLEARS, d);
    LeadsTo(Home(d), c, NO_CLEARS, d, Restart(0.0, false, SavedOk), CrashedAfterCall(d), NO_CLEARS);
  }

  lemma CrashReadiesAnother(d: DeviceId)
    requires |d| > J.MAX_FIELD_LENGTH
    ensures var s := CrashedAfterCall(d);
      && Leads(Home(d), s, NO_CLEARS, d) && s.task == Idle && s.configured == {d}
      && Armed(s.mem, d) && FreshId(s, StartOf(d, "b"))
  {
    CrashLeads(d);
    FirstStartJournal(d);
    StartIsGood(d, "b");
  }

  function SecondCall(d: DeviceId): Sys { Called(CrashedAfterCall(d), StartOf(d, "b")) }

  lemma SecondCallCounts(d: DeviceId)
    ensures OnCalls(SecondCall(d).calls, d) == 2 && SecondCall(d).created[d] == 0 && SecondCall(d).cleared[d] == 0
  {
    FirstStart(d);
    CalledCounts(CrashedAfterCall(d), d, StartOf(d, "b"));
  }

  /** One ticket, no clear at all, and two starts: the crash after the first forgets it was called. */
  lemma TruncatedIdentityStartsTwice(d: DeviceId)
    requires |d| > J.MAX_FIELD_LENGTH
    ensures exists s :: Reaches(Home(d), s) && OnCalls(s.calls, d) == 2 && s.created[d] == 0 && s.cleared[d] == 0
  {
    CrashReadiesAnother(d);
    StartLeads(Home(d), CrashedAfterCall(d), NO_CLEARS, d, "b");
    LeadsReaches(Home(d), SecondCall(d), NO_CLEARS, d);
    SecondCallCounts(d);
  }

  /** The credit bound for this load, over all stores and runs. */
  ghost predicate BoundHolds(d: DeviceId) {
    forall s0, s :: Initial(s0) && Reaches(s0, s) && d in s0.configured ==>
      OnCalls(s.calls, d) <= s.created[d] + s.cleared[d] + Credit(s0, d)
  }

  /** The credit bound holds for exactly the loads whose identity the journal keeps whole. */
  lemma CreditBoundIffNotTruncated(d: DeviceId)
    ensures BoundHolds(d) <==> |d| <= J.MAX_FIELD_LENGTH
  {
    if |d| <= J.MAX_FIELD_LENGTH {
      forall s0, s | Initial(s0) && Reaches(s0, s) && d in s0.configured
        ensures OnCalls(s.calls, d) <= s.created[d] + s.cleared[d] + Credit(s0, d)
      {
        RestoreCreditIsConserved(s0, s, d);
      }
    } else {
      HomeIsArmed(d);
      TruncatedIdentityStartsTwice(d);
    }
  }

  /** Wherever the load may be called, a recovery from the disk of that instant, which the call does not
      touch, has it faulted and quarantined. */
  ghost predicate AlwaysRecoveredLatched(d: DeviceId) {
    forall s0, s, verb, w, now, reconfigure ::
      Initial(s0) && Reaches(s0, s) && Enabled(s, Issue(verb, w)) && s.task.t.device == d ==>
        MemLatched(Recover(s.configured, s.disk, now, reconfigure), d)
  }

  lemma CalledIsRecoveredLatched(s0: Sys, s: Sys, verb: Verb, w: World, now: Time, reconfigure: bool)
    requires s.task.Transition? && |s.task.t.device| <= J.MAX_FIELD_LENGTH
    requires Initial(s0) && Reaches(s0, s) && Enabled(s, Issue(verb, w))
    ensures MemLatched(Recover(s.configured, s.disk, now, reconfigure), s.task.t.device)
  {
    ReachableJournal(s0, s);
    NewestUnfinishedIsFlagged(Contents(s.disk).journal, s.task.t, J.Dispatched, s.configured);
    DiskLatchedIsRecovered(s, s.task.t.device, now, reconfigure);
  }

  lemma TruncatedIdentityIsForgotten(d: DeviceId)
    requires |d| > J.MAX_FIELD_LENGTH
    ensures !AlwaysRecoveredLatched(d)
  {
    var p := Published(Home(d), StartOf(d, "a"));
    HomeIsArmed(d);
    FirstStart(d);
    LeadsReaches(Home(d), p, NO_CLEARS, d);
    CrashLeads(d);
    assert !MemLatched(Recover({d}, p.disk, 0.0, false), d);
  }

  /** So does the promise that a called load is recovered faulted and quarantined. */
  lemma RecoveredLatchedIffNotTruncated(d: DeviceId)
    ensures AlwaysRecoveredLatched(d) <==> |d| <= J.MAX_FIELD_LENGTH
  {
    if |d| <= J.MAX_FIELD_LENGTH {
      forall s0, s, verb, w, now, reconfigure |
        Initial(s0) && Reaches(s0, s) && Enabled(s, Issue(verb, w)) && s.task.t.device == d
        ensures MemLatched(Recover(s.configured, s.disk, now, reconfigure), d)
      {
        CalledIsRecoveredLatched(s0, s, verb, w, now, reconfigure);
      }
    } else {
      TruncatedIdentityIsForgotten(d);
    }
  }

  // ---------- A clear that failed after its flags were written ----------

  /** The first start was not confirmed and its failure was saved: the ticket stays, the load is latched. */
  function FailedStart(d: DeviceId): Sys {
    var c := Called(Home(d), StartOf(d, "a"));
    var m := Latched(c.mem, d).(journal := Rec(c.mem.journal, StartOf(d, "a"), J.Failed));
    c.(mem := m, disk := Snapshot({d}, m), task := Idle)
  }

  lemma FailedStartLeads(d: DeviceId)
    ensures Leads(Home(d), FailedStart(d), NO_CLEARS, d)
  {
    var t := StartOf(d, "a");
    var c := Called(Home(d), t);
    var s1 := Recording(c.(mem := Latched(c.mem, d)), t, J.Failed);
    var s2 := Saved(s1, t, J.Failed);
    FirstStart(d);
    UnconfirmedStep(c, NO_CLEARS, d, t);
    WriteStep(s1, NO_CLEARS, d, t, J.Failed);
    FailedStep(s2, NO_CLEARS, d, t);
    LeadsTo(Home(d), c, NO_CLEARS, d, Unconfirmed, s1, NO_CLEARS);
    LeadsTo(Home(d), s1, NO_CLEARS, d, Write, s2, NO_CLEARS);
    LeadsTo(Home(d), s2, NO_CLEARS, d, Resume(true), FailedStart(d), NO_CLEARS);
  }

  /** The clear was granted, its flags reached disk, its save failed, and memory latched the load again. */
  function FailedClear(d: DeviceId): Sys {
    var f := FailedStart(d);
    f.(mem := Latched(Unflagged(f.mem, d), d), disk := Snapshot({d}, Unflagged(f.mem, d)), cleared := multiset{d})
  }

  function Granted(f: Sys, d: DeviceId): Sys {
    f.(mem := Unflagged(f.mem, d), task := Clearing(d, false), cleared := f.cleared + multiset{d})
  }

  function GrantSaved(g: Sys, d: DeviceId): Sys {
    g.(disk := Snapshot(g.configured, g.mem), task := Clearing(d, true))
  }

  lemma GrantStep(f: Sys, d: DeviceId)
    requires f.task == Idle && d in f.configured && Flagged(f.mem, d)
    ensures Steps(f, NO_CLEARS, d, Clear(d), Granted(f, d), Tally(0, 0, 0, true))
  {}

  lemma GrantWriteStep(g: Sys, d: DeviceId)
    requires g.task == Clearing(d, false)
    ensures Steps(g, Tally(0, 0, 0, true), d, Write, GrantSaved(g, d), NO_CLEARS)
  {}

  lemma ClearFailsStep(g: Sys, d: DeviceId)
    requires g.task == Clearing(d, true)
    ensures Steps(g, NO_CLEARS, d, Resume(false), g.(mem := Latched(g.mem, d), task := Idle), Tally(0, 0, 1, false))
  {}

  lemma FailedClearLeads(d: DeviceId)
    ensures Leads(Home(d), FailedClear(d), Tally(0, 0, 1, false), d)
  {
    var s0, f := Home(d), FailedStart(d);
    var s1 := Granted(f, d);
    var s2 := GrantSaved(s1, d);
    FailedStartLeads(d);
    GrantStep(f, d);
    GrantWriteStep(s1, d);
    ClearFailsStep(s2, d);
    LeadsTo(s0, f, NO_CLEARS, d, Clear(d), s1, Tally(0, 0, 0, true));
    LeadsTo(s0, s1, Tally(0, 0, 0, true), d, Write, s2, NO_CLEARS);
    LeadsTo(s0, s2, NO_CLEARS, d, Resume(false), FailedClear(d), Tally(0, 0, 1, false));
  }

  lemma FailedClearRecoversArmed(d: DeviceId)
    ensures var s := Rebooted(FailedClear(d), 0.0, false, SavedOk);
      && Leads(Home(d), s, Tally(0, 0, 1, false), d) && Armed(s.mem, d)
      && FreshId(s, StartOf(d, "b"))
  {
    var f := FailedStart(d);
    HomeIsArmed(d);
    FailedClearLeads(d);
    FailedJournal(d);
    StartIsGood(d, "b");
    assert Unflagged(f.mem, d).own == OwnedTicket(d);
    ArmedRecovers(Unflagged(f.mem, d), d);
    RestartStep(FailedClear(d), Tally(0, 0, 1, false), d);
    LeadsTo(Home(d), FailedClear(d), Tally(0, 0, 1, false), d, Restart(0.0, false, SavedOk),
      Rebooted(FailedClear(d), 0.0, false, SavedOk), Tally(0, 0, 1, false));
  }

  /** Counting successful clears alone is not enough: one ticket, no successful clear, and two starts,
      because the clear whose save failed had reached disk before. */
  lemma FailedClearStartsTwice(d: DeviceId)
    ensures Initial(Home(d))
    ensures exists s :: Leads(Home(d), s, Tally(0, 0, 1, false), d) && OnCalls(s.calls, d) == 2 && s.created[d] == 0
  {
    var s := Rebooted(FailedClear(d), 0.0, false, SavedOk);
    HomeIsArmed(d);
    FirstStart(d);
    FailedClearRecoversArmed(d);
    StartLeads(Home(d), s, Tally(0, 0, 1, false), d, "b");
    CalledCounts(s, d, StartOf(d, "b"));
    assert OnCalls(Called(s, StartOf(d, "b")).calls, d) == 2;
  }
}
