/**
 * `RestoreTransactions.execute` and the two dispatch callbacks, in the order the code runs them:
 * restore_transactions.py, coordinator.py, actuator.py.
 *
 * Every await lets the rest of the house run and may be interrupted by a cancellation.
 * Each method proves that what it did to memory, disk and the call log is a run of the
 * protocol's state machine, so every theorem about runs is a theorem about this code.
 */
module Execution {
  import opened Prelude
  import opened Ownership
  import opened Protocol
  import opened ProtocolJournal
  import opened ProtocolSafety
  import opened ProtocolOwnership
  import J = Journal
  import F = Fences

  datatype Awaited = Done | Raised | Interrupted

  datatype Save = Saved | Unsaved | Aborted

  datatype Result = Confirmed | Rejected | Failed | StorageBlocked | Cancelled

  function PhaseFor(r: Result): J.Phase
    requires r.Confirmed? || r.Rejected? || r.Failed?
  {
    match r
    case Confirmed => J.Confirmed
    case Rejected => J.Rejected
    case Failed => J.Failed
  }

  /** The calls one transition may make: one stop and then each fallback once, or an
      optional temperature and then one start. */
  ghost predicate Sequence(t: Txn, cs: seq<Call>) {
    && (forall i :: 0 <= i < |cs| ==> cs[i].txn == t)
    && match t.kind
       case SwitchOff(_, _, fallbacks, _) =>
         && |cs| <= 1 + (if HasFallback(t) then fallbacks else 0)
         && forall i :: 0 <= i < |cs| ==> cs[i].verb == if i == 0 then TurnOff else FallbackOff
       case SwitchOn(_) =>
         && |cs| <= 2
         && (forall i :: 0 <= i < |cs| ==> cs[i].verb == SetTemperature || (cs[i].verb == TurnOn && i == |cs| - 1))
         && (|cs| == 2 ==> cs[0].verb == SetTemperature && cs[1].verb == TurnOn)
  }

  /** How far the dispatch is, read off the calls it has made. */
  ghost predicate HowFar(t: Txn, p: Point, cs: seq<Call>) {
    && Sequence(t, cs)
    && match p
       case Start => cs == []
       case TemperatureSet => t.kind.SwitchOn? && |cs| == 1 && cs[0].verb == SetTemperature
       case AwaitingReadback(open) => cs != [] && open == t.kind.SwitchOff? && (open ==> |cs| == 1)
       case FallbackIssued(n) => HasFallback(t) && |cs| == n + 1 && n <= t.kind.fallbacks
  }

  lemma OneCallFurther(t: Txn, p: Point, cs: seq<Call>, c: Call)
    requires HowFar(t, p, cs) && c.txn == t && VerbIsNext(t, p, c.verb, c.world)
    ensures HowFar(t, NextPoint(t, p, c.verb), cs + [c])
  {}

  /** The step by which a dispatch that returned `r` at this point is settled. */
  ghost predicate SettledBy(t: Txn, p: Point, m: Mem, r: Result, l: Label) {
    match r
    case Confirmed => ReadsBackHere(t, p)
    case Rejected => l.Deny? && p in {Start, TemperatureSet} && !CallPermitted(m, l.w, t)
    case Failed =>
      || l.Raise?
      || (l.Unconfirmed? && ReadsBackHere(t, p) && !(p.AwaitingReadback? && p.fallbackOpen && HasFallback(t)))
      || (l.Deny? && ChecksHere(t, p) && p !in {Start, TemperatureSet} && !CallPermitted(m, l.w, t))
    case StorageBlocked => false
    case Cancelled => p != Start
  }

  /** A result against the calls behind it: a confirmation made one, a rejection no stop and no start. */
  ghost predicate CallsFit(r: Result, made: seq<Call>) {
    && (r.Confirmed? ==> made != [])
    && (r.Rejected? ==> forall c :: c in made ==> c.verb == SetTemperature)
  }

  lemma SettledCallsFit(t: Txn, p: Point, m: Mem, r: Result, l: Label, made: seq<Call>)
    requires HowFar(t, p, made) && SettledBy(t, p, m, r, l)
    ensures CallsFit(r, made)
  {}

  /** The result as a later process would read it off disk. */
  ghost predicate IsDurable(configured: set<DeviceId>, c: Durable, t: Txn, r: Result)
    requires r.Confirmed? || r.Rejected? || r.Failed?
  {
    && Tail(c.journal, t, PhaseFor(r))
    && match r
       case Confirmed => exists o :: WholePostState(t, o) && OwnsExactly(c, o)
       case Rejected => OwnsExactly(c, t.before)
       case Failed => DiskLatched(c, configured, t.device)
  }

  /** A cancellation at any interruptible await unwinds to the same save. */
  lemma CancelStep(s: Sys, t: Txn)
    requires s.task.Transition? && s.task.t == t
    requires match s.task.stage case Dispatching(p) => p != Start case Saving(_, _, u) => !u
    ensures Enabled(s, Cancel)
    ensures Apply(s, Cancel) == s.(mem := StorageFailed(s.mem, t), task := Transition(t, Saving(J.Failed, false, true)))
  {}

  lemma SettleStep(s: Sys, t: Txn, p: Point, r: Result, l: Label)
    requires s.task == Transition(t, Dispatching(p)) && SettledBy(t, p, s.mem, r, l) && (r.Rejected? || r.Failed?)
    ensures Enabled(s, l)
    ensures Apply(s, l) == Finish(s, if r.Failed? then Latched(s.mem, t.device) else s.mem, PhaseFor(r))
  {}

  lemma ConfirmStep(s: Sys, t: Txn, p: Point, stamp: Time, at: Time, pauseUntil: Option<Time>)
    requires s.task == Transition(t, Dispatching(p)) && ReadsBackHere(t, p)
    ensures Enabled(s, ReadBack(stamp, at, pauseUntil))
    ensures var own := CommitOwned(t, s.mem.own, at, pauseUntil, stamp, s.mem.loadGeneration);
      Apply(s, ReadBack(stamp, at, pauseUntil)) ==
        Finish(s, s.mem.(own := own), J.Confirmed)
          .(created := if CreatesTicket(t) then s.created + multiset{t.device} else s.created)
  {}

  // ---------- A run, kept folded ----------

  /** These labels lead from a recovered process to this state. The depth only keeps the definition folded
      in the proofs that do not look into it; every depth says the same. */
  ghost predicate Traced(s0: Sys, ls: seq<Label>, s: Sys, depth: nat) {
    if depth == 0 then Initial(s0) && Run(s0, ls) && Exec(s0, ls) == s else Traced(s0, ls, s, depth - 1)
  }

  const FOLDED := 3

  lemma {:induction false} TracedIsARun(s0: Sys, ls: seq<Label>, s: Sys, depth: nat)
    ensures Traced(s0, ls, s, depth) <==> Initial(s0) && Run(s0, ls) && Exec(s0, ls) == s
  {
    if depth > 0 { TracedIsARun(s0, ls, s, depth - 1); }
  }

  // ---------- What a dispatch is told, and what it makes of it ----------

  /** The answers a dispatch gets, in order: to its permission checks, from its services, from its readbacks. */
  datatype Answer = Granted | Denied | Returned | Threw | CutShort | Said(report: Option<Time>)

  /** Answers after which a dispatch goes on: a grant, a finished service, a readback that confirmed nothing. */
  predicate LetsGoOn(a: Answer) { a.Granted? || a.Returned? || a == Said(None) }

  ghost predicate GoesOn(heard: seq<Answer>) { forall i :: 0 <= i < |heard| ==> LetsGoOn(heard[i]) }

  /** It went on as long as it could, and its last answer ended it. */
  ghost predicate Ended(heard: seq<Answer>) {
    && heard != [] && GoesOn(heard[..|heard| - 1])
    && !heard[|heard| - 1].Granted? && !heard[|heard| - 1].Returned?
  }

  /** The result those answers call for: confirmed iff the last readback brought a report; cancelled iff cut
      short; rejected iff denied before any readback; failed otherwise. */
  ghost function Verdict(heard: seq<Answer>): Result
    requires Ended(heard)
  {
    match heard[|heard| - 1]
    case Said(report) => if report.Some? then Confirmed else Failed
    case Threw => Failed
    case CutShort => Cancelled
    case Denied => if Said(None) in heard then Failed else Rejected
  }

  /** A commit puts its own stamp and generation into the fence of its kind. */
  lemma CommitFences(t: Txn, o: Owned, now: Time, pauseUntil: Option<Time>, stamp: Time, g: nat)
    requires FencedAs(t).Some?
    ensures var fences := CommitOwned(t, o, now, pauseUntil, stamp, g).fences;
      F.FenceOf(fences, FencedAs(t).value) == F.Fence(Some(g), Some(stamp))
  {}

  /** What the terminal save makes of a result. */
  ghost predicate LastSave(last: Save, r: Result, out: Result) {
    match last case Saved => out == r case Unsaved => out.StorageBlocked? case Aborted => out.Cancelled?
  }

  /** Stopped before the dispatch, by the last of one or two saves. */
  lemma EarlyStop(earlier: seq<Save>, last: Save, out: Result)
    requires |earlier| <= 1 && AllSaved(earlier)
    requires (last == Aborted && out.Cancelled?) || (last == Unsaved && out.StorageBlocked?)
    ensures CalledFor(out, earlier + [last], [])
  {
    assert (earlier + [last])[..|earlier|] == earlier;
  }

  lemma ThirdSave(earlier: seq<Save>, last: Save, r: Result, out: Result, heard: seq<Answer>)
    requires |earlier| == 2 && AllSaved(earlier) && LastSave(last, r, out)
    requires Ended(heard) && r == Verdict(heard) && !r.Cancelled?
    ensures CalledFor(out, earlier + [last], heard)
  {
    assert (earlier + [last])[..2] == earlier;
  }

  /** How one more answer moves a dispatch on or ends it. */
  lemma Hears(heard: seq<Answer>, a: Answer)
    requires GoesOn(heard)
    ensures Said(None) in heard + [a] <==> Said(None) in heard || a == Said(None)
    ensures LetsGoOn(a) ==> GoesOn(heard + [a])
    ensures !a.Granted? && !a.Returned? ==>
      && Ended(heard + [a])
      && Verdict(heard + [a]) ==
           match a
           case Said(report) => if report.Some? then Confirmed else Failed
           case Threw => Failed
           case CutShort => Cancelled
           case Denied => if Said(None) in heard then Failed else Rejected
  {
    assert (heard + [a])[..|heard|] == heard;
  }

  /** The saves of a transition so far, up to the one it awaits: all went well. */
  ghost predicate AllSaved(saves: seq<Save>) { forall i :: 0 <= i < |saves| ==> saves[i] == Saved }

  /** The result that the saves and the dispatch's answers call for: cancelled iff a save or the dispatch was
      cut short; storage-blocked iff a save failed; else, three saves later, what the dispatch found. */
  ghost predicate CalledFor(out: Result, saves: seq<Save>, heard: seq<Answer>) {
    && 0 < |saves| <= 3 && AllSaved(saves[..|saves| - 1])
    && (heard != [] <==> |saves| >= 2 && saves[1] == Saved) && (heard != [] ==> Ended(heard))
    && match saves[|saves| - 1]
       case Aborted => out.Cancelled?
       case Unsaved => out.StorageBlocked?
       case Saved =>
         heard != [] && out == Verdict(heard) && (|saves| == 3 <==> !out.Cancelled?) && |saves| >= 2
  }

  function Heard(a: Awaited, done: Answer): Answer {
    match a case Done => done case Raised => Threw case Interrupted => CutShort
  }

  function Stopped(a: Awaited): Result { if a == Raised then Failed else Cancelled }

  class TransitionRunner {
    const configured: set<DeviceId>
    const owner: RestoreTransactions
    var mem: Mem
    var disk: Disk
    var calls: seq<Call>
    ghost var task: Task
    ghost var created: multiset<DeviceId>
    ghost var cleared: multiset<DeviceId>
    ghost const start: Sys
    ghost var trace: seq<Label>
    /** The report behind the last readback that ended. */
    var confirmedAt: Option<Time>
    ghost var heard: seq<Answer>
    ghost var saves: seq<Save>

    ghost function View(): Sys
      reads this`mem, this`disk, this`calls, this`task, this`created, this`cleared
    {
      Sys(configured, mem, disk, task, calls, created, cleared)
    }

    /** The ownership object holds the tickets of memory, its queue their keys in order. */
    ghost predicate OwnerAgrees()
      reads this`mem, owner
    {
      owner.Valid() && owner.tickets == mem.own.tickets
    }

    /** Everything done so far is a run from a recovered process. */
    ghost predicate Valid()
      reads this`mem, this`disk, this`calls, this`task, this`created, this`cleared, this`trace, owner
    {
      Traced(start, trace, View(), FOLDED) && OwnerAgrees()
    }

    lemma ValidIsARun()
      requires Valid()
      ensures Initial(start) && Run(start, trace) && Exec(start, trace) == View()
    {
      TracedIsARun(start, trace, View(), FOLDED);
    }

    lemma Invariants()
      requires Valid()
      ensures JournalInv(View()) && AtomicInv(View())
    {
      ValidIsARun();
      InitialJournal(start);
      RunKeepsJournal(start, trace);
      RunIsAtomic(start, trace);
    }

    /** The ON calls made so far are paid for. */
    lemma CreditIsConserved(d: DeviceId)
      requires Valid() && Nameable(View(), d)
      ensures OnCalls(calls, d) + Credit(View(), d) <= created[d] + cleared[d] + Credit(start, d)
    {
      ValidIsARun();
      InitialJournal(start);
      RunKeepsConfigured(start, trace);
      RunConservesCredit(start, trace, d);
    }

    /** Every call just made was permitted at its instant and written ahead, like every call in the log. */
    lemma CallsAreWarranted(base: seq<Call>, made: seq<Call>)
      requires Valid() && calls == base + made
      ensures LogInv(calls) && forall c :: c in made ==> Warranted(c)
    {
      ValidIsARun();
      InitialJournal(start);
      RunCallsAreWarranted(start, trace);
      forall i | 0 <= i < |made| ensures Warranted(made[i]) { assert calls[|base| + i] == made[i]; }
    }

    /** A process recovers from the durable snapshot it finds. */
    constructor (loads: set<DeviceId>, found: Disk, now: Time, reconfigure: bool)
      requires J.NormalForm(Contents(found).journal)
      ensures Valid() && task == Idle && calls == [] && configured == loads && disk == found
      ensures mem == Recover(loads, found, now, reconfigure) && fresh(owner)
    {
      var recovered := Recover(loads, found, now, reconfigure);
      RecoveredOnePerDevice(loads, found, now, reconfigure);
      ghost var first := Sys(loads, recovered, found, Idle, [], multiset{}, multiset{});
      assert Initial(first);
      TracedIsARun(first, [], first, FOLDED);
      var tickets := new RestoreTransactions();
      tickets.Hydrate(recovered.own.tickets);
      owner, configured, disk, mem, calls := tickets, loads, found, recovered, [];
      task, created, cleared, trace := Idle, multiset{}, multiset{}, [];
      heard, saves, confirmedAt := [], [], None;
      start := first;
    }

    /** What was done since `before` is one step of the machine. */
    ghost method Advance(before: Sys, l: Label)
      requires Traced(start, trace, before, FOLDED)
      requires Enabled(before, l) && View() == Apply(before, l) && OwnerAgrees()
      modifies this`trace
      ensures Valid() && trace == old(trace) + [l]
    {
      TracedIsARun(start, trace, before, FOLDED);
      RunSnoc(start, trace, l);
      trace := trace + [l];
      TracedIsARun(start, trace, View(), FOLDED);
    }

    /** What other parties may do while this transition awaits. */
    twostate predicate OnlyDisturbed()
      reads this
    {
      && task == old(task) && calls == old(calls) && created == old(created) && cleared == old(cleared)
      && old(trace) <= trace
      && mem == old(mem).(telemetry := mem.telemetry, sourceLoss := mem.sourceLoss, stopping := mem.stopping)
    }

    method ForeignSave()
      requires Valid()
      modifies this`disk, this`trace
      ensures Valid() && old(trace) <= trace
    {
      ghost var before := View();
      disk := Snapshot(configured, mem);
      Advance(before, ExtraSave);
    }

    method ShutdownRequested()
      requires Valid()
      modifies this`mem, this`trace
      ensures Valid() && OnlyDisturbed()
    {
      ghost var before := View();
      mem := mem.(stopping := true);
      Advance(before, Shutdown);
    }

    method ReportArrives(telemetry: TelemetryFault, loss: bool)
      requires Valid()
      modifies this`mem, this`trace
      ensures Valid() && OnlyDisturbed()
    {
      ghost var before := View();
      mem := mem.(telemetry := telemetry, sourceLoss := loss);
      Advance(before, Disturb(telemetry, loss));
    }

    /** Any number of foreign saves, shutdown requests and reports, in any order. */
    method LetOthersRun()
      requires Valid()
      modifies this`mem, this`disk, this`trace
      ensures Valid() && OnlyDisturbed()
    {
      var steps: nat := *;
      while steps > 0
        invariant Valid() && OnlyDisturbed()
      {
        var pick: int := *;
        if pick == 0 {
          ForeignSave();
        } else if pick == 1 {
          ShutdownRequested();
        } else {
          var telemetry: TelemetryFault := *;
          var loss: bool := *;
          ReportArrives(telemetry, loss);
        }
        steps := steps - 1;
      }
    }

    method WriteSnapshot(t: Txn, phase: J.Phase, unwinding: bool)
      requires Valid() && task == Transition(t, Saving(phase, false, unwinding))
      modifies this`disk, this`trace, this`task
      ensures Valid() && old(trace) <= trace && task == Transition(t, Saving(phase, true, unwinding))
    {
      ghost var before := View();
      disk := Snapshot(configured, mem);
      task := Transition(t, Saving(phase, true, unwinding));
      Advance(before, Write);
    }

    /** Await the store. It may write and still report a failure, or not write at all. */
    method Persist(t: Txn, phase: J.Phase, unwinding: bool) returns (r: Save, ghost written: bool)
      requires Valid() && task == Transition(t, Saving(phase, false, unwinding))
      modifies this`mem, this`disk, this`trace, this`task, this`saves
      ensures saves == if unwinding then old(saves) else old(saves) + [r]
      ensures Valid() && old(trace) <= trace
      ensures mem == old(mem).(telemetry := mem.telemetry, sourceLoss := mem.sourceLoss, stopping := mem.stopping)
      ensures task == Transition(t, Saving(phase, written, unwinding)) && (r.Saved? ==> written)
    {
      LetOthersRun();
      var writes: bool := *;
      if writes {
        WriteSnapshot(t, phase, unwinding);
        LetOthersRun();
      }
      r, written := *, writes;
      if r.Saved? && !writes { r := Unsaved; }
      if !unwinding { saves := saves + [r]; }
    }

    // ---------- Dispatch ----------

    /** A dispatch has reached this point, having made these calls on top of the earlier log. */
    ghost predicate At(t: Txn, p: Point, base: seq<Call>, made: seq<Call>)
      reads this`mem, this`disk, this`calls, this`task, this`created, this`cleared, this`trace, owner
    {
      Valid() && task == Transition(t, Dispatching(p)) && calls == base + made && HowFar(t, p, made)
    }

    /** It has heard nothing yet that ends it, and a readback that confirmed nothing before any fallback. */
    ghost predicate Onward(p: Point)
      reads this`heard
    {
      GoesOn(heard) && (p.FallbackIssued? ==> Said(None) in heard)
    }

    /** A permission check: read the house and judge. */
    method Ask(t: Txn) returns (w: World, ok: bool)
      modifies this`heard
      ensures ok <==> CallPermitted(mem, w, t)
      ensures |heard| == |old(heard)| + 1 && heard[|old(heard)|] == if ok then Granted else Denied
      ensures old(GoesOn(heard)) ==>
        if ok then GoesOn(heard) && (Said(None) in heard <==> old(Said(None) in heard))
        else Ended(heard) && Verdict(heard) == if old(Said(None) in heard) then Failed else Rejected
    {
      if GoesOn(heard) { Hears(heard, Granted); Hears(heard, Denied); }
      w := *;
      ok := if t.kind.SwitchOn? then OnPermitted(mem, w, t.device, t.kind.ticket)
            else OffPermitted(mem, w, t.kind.emergency, t.kind.source);
      heard := heard + [if ok then Granted else Denied];
    }

    /** Issue one physical call, whose permission was read from `w` with no await since. */
    method IssueCall(t: Txn, verb: Verb, w: World, ghost p: Point, ghost base: seq<Call>, ghost made: seq<Call>)
      returns (ghost more: seq<Call>)
      requires At(t, p, base, made) && VerbIsNext(t, p, verb, w) && CallPermitted(mem, w, t)
      modifies this`calls, this`task, this`trace
      ensures At(t, NextPoint(t, p, verb), base, more) && old(trace) <= trace
    {
      ghost var before := View();
      var c := Call(t, verb, mem, w, Contents(disk).journal);
      OneCallFurther(t, p, made, c);
      more := made + [c];
      assert calls + [c] == base + more;
      calls := calls + [c];
      task := Transition(t, Dispatching(NextPoint(t, p, verb)));
      Advance(before, Issue(verb, w));
    }

    method CallAndAwait(t: Txn, verb: Verb, w: World, ghost p: Point, ghost base: seq<Call>, ghost made: seq<Call>)
      returns (r: Awaited, ghost more: seq<Call>)
      requires At(t, p, base, made) && VerbIsNext(t, p, verb, w) && CallPermitted(mem, w, t)
      modifies this`mem, this`disk, this`calls, this`task, this`trace, this`heard
      ensures At(t, NextPoint(t, p, verb), base, more) && old(trace) <= trace
      ensures |heard| == |old(heard)| + 1 && heard[|old(heard)|] == Heard(r, Returned)
      ensures old(GoesOn(heard)) ==>
        if r.Done? then GoesOn(heard) && (Said(None) in heard <==> old(Said(None) in heard))
        else Ended(heard) && Verdict(heard) == Stopped(r)
    {
      more := IssueCall(t, verb, w, p, base, made);
      LetOthersRun();
      r := *;
      if GoesOn(heard) { Hears(heard, Heard(r, Returned)); }
      heard := heard + [Heard(r, Returned)];
    }

    /** Await the causal readback of the last call; it may bring the report that confirms. */
    method Confirm() returns (r: Awaited, report: Option<Time>)
      requires Valid()
      modifies this`mem, this`disk, this`trace, this`heard, this`confirmedAt
      ensures Valid() && OnlyDisturbed() && (r.Done? ==> confirmedAt == report)
      ensures |heard| == |old(heard)| + 1 && heard[|old(heard)|] == Heard(r, Said(report))
      ensures old(GoesOn(heard)) ==>
        && Ended(heard)
        && Verdict(heard) == (if !r.Done? then Stopped(r) else if report.Some? then Confirmed else Failed)
        && (r.Done? && report.None? ==> GoesOn(heard) && Said(None) in heard)
    {
      LetOthersRun();
      r, report := *, *;
      if GoesOn(heard) { Hears(heard, Heard(r, Said(report))); }
      heard := heard + [Heard(r, Said(report))];
      if r.Done? { confirmedAt := report; }
    }

    /** A dispatch that ended here with this result, as its answers call for, and the step that settles it. */
    ghost predicate EndsAs(t: Txn, r: Result, l: Label, p: Point, base: seq<Call>, made: seq<Call>)
      reads this`mem, this`disk, this`calls, this`task, this`created, this`cleared, this`trace, owner
      reads this`heard, this`confirmedAt
    {
      && At(t, p, base, made) && SettledBy(t, p, mem, r, l) && Ended(heard) && r == Verdict(heard)
      && (r.Confirmed? ==> heard[|heard| - 1] == Said(confirmedAt))
    }

    /** The stop: one command and its readback, then the fallback if it is still needed. */
    method DispatchOff(t: Txn, ghost base: seq<Call>)
      returns (r: Result, ghost l: Label, ghost p: Point, ghost made: seq<Call>)
      requires t.kind.SwitchOff? && At(t, Start, base, []) && heard == []
      modifies this`mem, this`disk, this`calls, this`task, this`trace, this`heard, this`confirmedAt
      ensures EndsAs(t, r, l, p, base, made) && old(trace) <= trace
    {
      l, p, made := Raise, Start, [];
      var w, ok := Ask(t);
      if !ok {
        return Rejected, Deny(w), p, made;
      }
      var unread;
      r, unread, l, p, made := TurnOffAndConfirm(t, w, base);
      if unread && t.kind.emergency && t.kind.fallbacks > 0 {
        r, l, p, made := DispatchFallback(t, base, made);
      }
    }

    /** The first command of a stop. `unread`: the readback ended and confirmed nothing. */
    method TurnOffAndConfirm(t: Txn, w: World, ghost base: seq<Call>)
      returns (r: Result, unread: bool, ghost l: Label, ghost p: Point, ghost made: seq<Call>)
      requires t.kind.SwitchOff? && At(t, Start, base, []) && OffPermitted(mem, w, t.kind.emergency, t.kind.source)
      requires GoesOn(heard) && Said(None) !in heard
      modifies this`mem, this`disk, this`calls, this`task, this`trace, this`heard, this`confirmedAt
      ensures At(t, p, base, made) && p == AwaitingReadback(true) && old(trace) <= trace
      ensures Ended(heard) && r == Verdict(heard)
      ensures r.Confirmed? ==> heard[|heard| - 1] == Said(confirmedAt)
      ensures unread <==> heard[|heard| - 1] == Said(None)
      ensures SettledBy(t, p, mem, r, l) || (unread && HasFallback(t))
    {
      unread, l, p := false, Raise, AwaitingReadback(true);
      var service;
      service, made := CallAndAwait(t, TurnOff, w, Start, base, []);
      if service != Done {
        return Stopped(service), unread, l, p, made;
      }
      var readback, report := Confirm();
      if readback != Done {
        return Stopped(readback), unread, l, p, made;
      }
      r, unread, l := if report.Some? then Confirmed else Failed, report.None?, Unconfirmed;
    }

    /** The fallback members and their one readback. */
    method DispatchFallback(t: Txn, ghost base: seq<Call>, ghost first: seq<Call>)
      returns (r: Result, ghost l: Label, ghost p: Point, ghost made: seq<Call>)
      requires HasFallback(t) && At(t, AwaitingReadback(true), base, first)
      requires GoesOn(heard) && Said(None) in heard
      modifies this`mem, this`disk, this`calls, this`task, this`trace, this`heard, this`confirmedAt
      ensures EndsAs(t, r, l, p, base, made) && old(trace) <= trace
    {
      var stop;
      stop, l, p, made := IssueFallbacks(t, base, first);
      if stop.Some? {
        return stop.value, l, p, made;
      }
      var readback, report := Confirm();
      if readback != Done {
        return Stopped(readback), Raise, p, made;
      }
      r, l := if report.Some? then Confirmed else Failed, Unconfirmed;
    }

    /** Every fallback member once, with permission again before each. */
    method IssueFallbacks(t: Txn, ghost base: seq<Call>, ghost first: seq<Call>)
      returns (stop: Option<Result>, ghost l: Label, ghost p: Point, ghost made: seq<Call>)
      requires HasFallback(t) && At(t, AwaitingReadback(true), base, first)
      requires GoesOn(heard) && Said(None) in heard
      modifies this`mem, this`disk, this`calls, this`task, this`trace, this`heard
      ensures At(t, p, base, made) && old(trace) <= trace
      ensures if stop.None? then p == FallbackIssued(t.kind.fallbacks) && GoesOn(heard) && Said(None) in heard
              else EndsAs(t, stop.value, l, p, base, made)
    {
      stop, l, p, made := None, Raise, AwaitingReadback(true), first;
      var n := 0;
      while n < t.kind.fallbacks
        invariant 0 <= n <= t.kind.fallbacks && old(trace) <= trace && stop == None
        invariant p == if n == 0 then AwaitingReadback(true) else FallbackIssued(n)
        invariant At(t, p, base, made) && GoesOn(heard) && Said(None) in heard
      {
        stop, l, p, made := IssueFallback(t, n, p, base, made);
        if stop.Some? {
          return;
        }
        n := n + 1;
      }
    }

    method IssueFallback(t: Txn, ghost n: nat, ghost at: Point, ghost base: seq<Call>, ghost earlier: seq<Call>)
      returns (stop: Option<Result>, ghost l: Label, ghost p: Point, ghost made: seq<Call>)
      requires HasFallback(t) && n < t.kind.fallbacks && At(t, at, base, earlier)
      requires at == if n == 0 then AwaitingReadback(true) else FallbackIssued(n)
      requires GoesOn(heard) && Said(None) in heard
      modifies this`mem, this`disk, this`calls, this`task, this`trace, this`heard
      ensures At(t, p, base, made) && old(trace) <= trace
      ensures if stop.None? then p == FallbackIssued(n + 1) && GoesOn(heard) && Said(None) in heard
              else EndsAs(t, stop.value, l, p, base, made)
    {
      l, p, made := Raise, FallbackIssued(n + 1), earlier;
      var w, ok := Ask(t);
      if !ok {
        return Some(Failed), Deny(w), at, made;
      }
      var service;
      service, made := CallAndAwait(t, FallbackOff, w, at, base, earlier);
      stop := if service == Done then None else Some(Stopped(service));
    }

    /** The start: for a climate load first its saved temperature, and permission again after it. */
    method DispatchOn(t: Txn, ghost base: seq<Call>)
      returns (r: Result, ghost l: Label, ghost p: Point, ghost made: seq<Call>)
      requires t.kind.SwitchOn? && At(t, Start, base, []) && heard == []
      modifies this`mem, this`disk, this`calls, this`task, this`trace, this`heard, this`confirmedAt
      ensures EndsAs(t, r, l, p, base, made) && old(trace) <= trace
    {
      l, p, made := Raise, Start, [];
      var w, ok := Ask(t);
      if !ok {
        return Rejected, Deny(w), p, made;
      }
      if w.climate && t.kind.ticket.restore.temperature.Some? {
        var stop;
        stop, w, l, p, made := SendTemperature(t, w, base);
        if stop.Some? {
          return stop.value, l, p, made;
        }
      }
      r, l, p, made := TurnOnAndConfirm(t, w, p, base, made);
    }

    /** The saved temperature, and permission again after it; `again` is what that check read. */
    method SendTemperature(t: Txn, w: World, ghost base: seq<Call>)
      returns (stop: Option<Result>, again: World, ghost l: Label, ghost p: Point, ghost made: seq<Call>)
      requires t.kind.SwitchOn? && At(t, Start, base, []) && GoesOn(heard) && Said(None) !in heard
      requires OnPermitted(mem, w, t.device, t.kind.ticket) && VerbIsNext(t, Start, SetTemperature, w)
      modifies this`mem, this`disk, this`calls, this`task, this`trace, this`heard
      ensures At(t, p, base, made) && p == TemperatureSet && old(trace) <= trace
      ensures if stop.Some? then EndsAs(t, stop.value, l, p, base, made)
              else OnPermitted(mem, again, t.device, t.kind.ticket) && GoesOn(heard) && Said(None) !in heard
    {
      l, p, again := Raise, TemperatureSet, w;
      var service;
      service, made := CallAndAwait(t, SetTemperature, w, Start, base, []);
      if service != Done {
        return Some(Stopped(service)), again, l, p, made;
      }
      var ok;
      again, ok := Ask(t);
      if !ok {
        return Some(Rejected), again, Deny(again), p, made;
      }
      stop := None;
    }

    method TurnOnAndConfirm(t: Txn, w: World, ghost at: Point, ghost base: seq<Call>, ghost first: seq<Call>)
      returns (r: Result, ghost l: Label, ghost p: Point, ghost made: seq<Call>)
      requires t.kind.SwitchOn? && At(t, at, base, first) && GoesOn(heard) && Said(None) !in heard
      requires VerbIsNext(t, at, TurnOn, w) && OnPermitted(mem, w, t.device, t.kind.ticket)
      modifies this`mem, this`disk, this`calls, this`task, this`trace, this`heard, this`confirmedAt
      ensures EndsAs(t, r, l, p, base, made) && old(trace) <= trace
    {
      l, p := Raise, AwaitingReadback(false);
      var service;
      service, made := CallAndAwait(t, TurnOn, w, at, base, first);
      if service != Done {
        return Stopped(service), l, p, made;
      }
      var readback, report := Confirm();
      if readback != Done {
        return Stopped(readback), l, p, made;
      }
      r, l := if report.Some? then Confirmed else Failed, Unconfirmed;
    }

    /** It may raise before it has asked anything. */
    method Dispatch(t: Txn, ghost base: seq<Call>)
      returns (r: Result, ghost l: Label, ghost p: Point, ghost made: seq<Call>)
      requires Valid() && task == Transition(t, Dispatching(Start)) && calls == base
      modifies this`mem, this`disk, this`calls, this`task, this`trace, this`heard, this`confirmedAt
      ensures EndsAs(t, r, l, p, base, made) && old(trace) <= trace
      ensures CallsFit(r, made) && Sequence(t, made) && (r.Cancelled? ==> Interruptible(t))
    {
      assert base + [] == base;
      heard := [];
      var raises: bool := *;
      if raises {
        heard := [Threw];
        return Failed, Raise, Start, [];
      }
      if t.kind.SwitchOn? {
        r, l, p, made := DispatchOn(t, base);
      } else {
        r, l, p, made := DispatchOff(t, base);
      }
      SettledCallsFit(t, p, mem, r, l, made);
    }

    // ---------- The protocol around it ----------

    /** `complete` of a confirmed transition: pause, ticket and fence, one after the other. */
    method Complete(t: Txn, now: Time, pauseUntil: Option<Time>, stamp: Time)
      requires OwnerAgrees()
      modifies this`mem, owner
      ensures OwnerAgrees()
      ensures mem == old(mem).(own := CommitOwned(t, old(mem.own), now, pauseUntil, stamp, old(mem.loadGeneration)))
    {
      var own := mem.own;
      match t.kind {
        case SwitchOn(_) =>
          owner.Remove(t.device);
          own := own.(fences := own.fences.(restore := F.Installed(mem.loadGeneration, stamp)));
        case SwitchOff(_, _, _, commit) =>
          if pauseUntil.Some? {
            own := own.(pauses := own.pauses[t.device := pauseUntil.value]);
          } else {
            own := own.(pauses := own.pauses - {t.device});
          }
          if commit.Keep? {
            owner.Create(t.device, commit.cause, t.operation, commit.restore, now);
            if commit.fenced {
              own := own.(fences := own.fences.(shed := F.Installed(mem.loadGeneration, stamp)));
            }
          }
      }
      mem := mem.(own := own.(tickets := owner.tickets));
    }

    /** The fence this transition installs, if any, waits for a report later than this one. */
    ghost predicate FencedBy(t: Txn, stamp: Option<Time>)
      reads this`mem
    {
      FencedAs(t).Some? ==>
        var f := F.FenceOf(mem.own.fences, FencedAs(t).value);
        f.generation == Some(mem.loadGeneration) && f.after == stamp
    }

    /** Apply the outcome and record it with no await in between. */
    method Settle(t: Txn, r: Result, ghost l: Label, ghost p: Point, ghost base: seq<Call>, ghost made: seq<Call>)
      requires At(t, p, base, made) && SettledBy(t, p, mem, r, l) && !r.Cancelled?
      requires r.Confirmed? ==> confirmedAt.Some?
      modifies this`mem, this`task, this`created, this`trace, owner
      ensures Valid() && old(trace) <= trace && task == Transition(t, Saving(PhaseFor(r), false, false))
      ensures r.Failed? ==> MemLatched(mem, t.device)
      ensures r.Confirmed? ==> FencedBy(t, confirmedAt)
    {
      if r.Confirmed? {
        SettleConfirmed(t, confirmedAt.value, p, base, made);
      } else {
        SettleUnconfirmed(t, r, l, p, base, made);
      }
    }

    method SettleConfirmed(t: Txn, stamp: Time, ghost p: Point, ghost base: seq<Call>, ghost made: seq<Call>)
      requires At(t, p, base, made) && ReadsBackHere(t, p)
      modifies this`mem, this`task, this`created, this`trace, owner
      ensures Valid() && old(trace) <= trace && task == Transition(t, Saving(J.Confirmed, false, false))
      ensures FencedBy(t, Some(stamp))
    {
      ghost var before := View();
      ghost var g := mem.loadGeneration;
      var now: Time := *;
      var pauseUntil: Option<Time> := *;
      ConfirmStep(before, t, p, stamp, now, pauseUntil);
      if FencedAs(t).Some? { CommitFences(t, mem.own, now, pauseUntil, stamp, g); }
      Complete(t, now, pauseUntil, stamp);
      mem := Recorded(mem, t, J.Confirmed);
      created := if CreatesTicket(t) then created + multiset{t.device} else created;
      task := Transition(t, Saving(J.Confirmed, false, false));
      Advance(before, ReadBack(stamp, now, pauseUntil));
    }

    method SettleUnconfirmed(
        t: Txn, r: Result, ghost l: Label, ghost p: Point, ghost base: seq<Call>, ghost made: seq<Call>)
      requires At(t, p, base, made) && SettledBy(t, p, mem, r, l) && (r.Rejected? || r.Failed?)
      modifies this`mem, this`task, this`trace
      ensures Valid() && old(trace) <= trace && task == Transition(t, Saving(PhaseFor(r), false, false))
      ensures (r.Failed? ==> MemLatched(mem, t.device)) && mem.own == old(mem.own)
    {
      ghost var before := View();
      SettleStep(before, t, p, r, l);
      if r.Failed? { mem := Latched(mem, t.device); }
      mem := Recorded(mem, t, PhaseFor(r));
      task := Transition(t, Saving(PhaseFor(r), false, false));
      Advance(before, l);
    }

    /** `_storage_failure`: the load loses its ticket and is latched, in memory only. */
    method StorageFailure(t: Txn, ghost phase: J.Phase, ghost written: bool)
      requires Valid() && task == Transition(t, Saving(phase, written, false))
      modifies this`mem, this`task, this`trace, owner
      ensures Valid() && old(trace) <= trace && task == Idle
      ensures mem == StorageFailed(old(mem), t) && Retracted(t)
    {
      ghost var before := View();
      RetireAndLatch(t);
      task := Idle;
      Advance(before, Resume(false));
    }

    /** The load is faulted and quarantined and owns no ticket any more. */
    predicate Retracted(t: Txn)
      reads this
    {
      MemLatched(mem, t.device) && !Holds(mem.own.tickets, t.device)
    }

    /** What storage failure and cancellation share. */
    method RetireAndLatch(t: Txn)
      requires OwnerAgrees()
      modifies this`mem, owner
      ensures OwnerAgrees() && mem == StorageFailed(old(mem), t) && Retracted(t)
    {
      HoldsWithout(mem.own.tickets, t.device, t.device);
      owner.Remove(t.device);
      mem := mem.(own := mem.own.(tickets := owner.tickets));
      mem := Latched(mem, t.device);
      mem := Recorded(mem, t, J.Failed);
    }

    method RecordPhase(t: Txn, phase: J.Phase)
      requires Valid()
      requires if phase == J.Prepared then task == Idle && Enabled(View(), Begin(t))
               else phase == J.Dispatched && task == Transition(t, Saving(J.Prepared, true, false))
      modifies this`mem, this`task, this`trace
      ensures Valid() && old(trace) <= trace && task == Transition(t, Saving(phase, false, false))
    {
      ghost var before := View();
      mem := Recorded(mem, t, phase);
      task := Transition(t, Saving(phase, false, false));
      Advance(before, if phase == J.Prepared then Begin(t) else Resume(true));
    }

    /** A cancellation may still unwind from here. */
    ghost predicate Interruptible(t: Txn)
      reads this
    {
      task.Transition? && task.t == t && match task.stage case Dispatching(p) => p != Start case Saving(_, _, u) => !u
    }

    ghost function SaveBehind(stop: Option<Result>): Save {
      if stop.None? then Saved else if stop.value.Cancelled? then Aborted else Unsaved
    }

    /** Save, and give up on a failure or a cancellation; `stop` says why the transition ends here. */
    method SaveOrStop(t: Txn, phase: J.Phase) returns (stop: Option<Result>)
      requires Valid() && task == Transition(t, Saving(phase, false, false))
      modifies this`mem, this`disk, this`task, this`trace, this`saves, owner
      ensures Valid() && old(trace) <= trace
      ensures if stop.None? then task == Transition(t, Saving(phase, true, false)) else StoppedEarly(t, stop.value)
      ensures old(MemLatched(mem, t.device)) ==> MemLatched(mem, t.device)
      ensures stop.None? ==> mem.own == old(mem.own) && mem.loadGeneration == old(mem.loadGeneration)
      ensures saves == old(saves) + [SaveBehind(stop)]
    {
      var saved, written := Persist(t, phase, false);
      if saved == Aborted {
        return Some(Cancelled);
      }
      if saved != Saved {
        StorageFailure(t, phase, written);
        return Some(StorageBlocked);
      }
      stop := None;
    }

    /** Record one phase of the intent and save it. */
    method PublishPhase(t: Txn, phase: J.Phase) returns (stop: Option<Result>)
      requires Valid()
      requires if phase == J.Prepared then task == Idle && Enabled(View(), Begin(t))
               else phase == J.Dispatched && task == Transition(t, Saving(J.Prepared, true, false))
      modifies this`mem, this`disk, this`task, this`trace, this`saves, owner
      ensures Valid() && old(trace) <= trace
      ensures if stop.None? then task == Transition(t, Saving(phase, true, false)) else StoppedEarly(t, stop.value)
      ensures saves == old(saves) + [SaveBehind(stop)]
    {
      RecordPhase(t, phase);
      stop := SaveOrStop(t, phase);
    }

    ghost predicate StoppedEarly(t: Txn, r: Result)
      reads this
    {
      || (r.Cancelled? && Interruptible(t))
      || (r.StorageBlocked? && task == Idle && Retracted(t))
    }

    /** Publish durable intent; the answer is None once the dispatch may begin. */
    method Publish(t: Txn) returns (stop: Option<Result>)
      requires Valid() && task == Idle && Enabled(View(), Begin(t))
      modifies this`mem, this`disk, this`task, this`trace, this`saves, owner
      ensures Valid() && old(trace) <= trace
      ensures if stop.None? then task == Transition(t, Dispatching(Start)) else StoppedEarly(t, stop.value)
      ensures if stop.None? then |saves| == 2 && AllSaved(saves) else CalledFor(stop.value, saves, [])
    {
      saves := [];
      var phases := [J.Prepared, J.Dispatched];
      var i := 0;
      while i < |phases|
        invariant 0 <= i <= |phases| && Valid() && old(trace) <= trace
        invariant i == 0 ==> task == Idle && Enabled(View(), Begin(t))
        invariant i > 0 ==> task == Transition(t, Saving(phases[i - 1], true, false))
        invariant |saves| == i && AllSaved(saves)
      {
        ghost var earlier := saves;
        stop := PublishPhase(t, phases[i]);
        if stop.Some? {
          EarlyStop(earlier, SaveBehind(stop), stop.value);
          return;
        }
        i := i + 1;
      }
      EnterDispatch(t);
      stop := None;
    }

    method EnterDispatch(t: Txn)
      requires Valid() && task == Transition(t, Saving(J.Dispatched, true, false))
      modifies this`task, this`trace
      ensures Valid() && old(trace) <= trace && task == Transition(t, Dispatching(Start))
    {
      ghost var before := View();
      task := Transition(t, Dispatching(Start));
      Advance(before, Resume(true));
    }

    /** Dispatch, settle, and save the terminal record. */
    method Finish(t: Txn) returns (out: Result, ghost made: seq<Call>)
      requires Valid() && task == Transition(t, Dispatching(Start)) && |saves| == 2 && AllSaved(saves)
      modifies this, owner
      ensures Valid() && old(trace) <= trace && calls == old(calls) + made && Sequence(t, made)
      ensures CallsFit(out, made) && Honest(t, out) && CalledFor(out, saves, heard)
      ensures out.Confirmed? ==> heard[|heard| - 1] == Said(confirmedAt) && FencedBy(t, confirmedAt)
      ensures if out.Cancelled? then Interruptible(t) else task == Idle
    {
      ghost var base := calls;
      ghost var l, p;
      out, l, p, made := Dispatch(t, base);
      if out != Cancelled {
        out := SettleAndSave(t, out, l, p, base, made);
      }
    }

    method SettleAndSave(
        t: Txn, r: Result, ghost l: Label, ghost p: Point, ghost base: seq<Call>, ghost made: seq<Call>)
      returns (out: Result)
      requires EndsAs(t, r, l, p, base, made) && !r.Cancelled?
      requires |saves| == 2 && AllSaved(saves)
      modifies this`mem, this`disk, this`task, this`created, this`trace, this`saves, owner
      ensures Valid() && old(trace) <= trace && Honest(t, out) && CalledFor(out, saves, heard)
      ensures out == r || out.StorageBlocked? || out.Cancelled?
      ensures out.Confirmed? ==> FencedBy(t, confirmedAt)
      ensures if out.Cancelled? then Interruptible(t) else task == Idle
    {
      Settle(t, r, l, p, base, made);
      ghost var last;
      out, last := SaveOutcome(t, r, confirmedAt);
      ThirdSave(old(saves), last, r, out, heard);
    }

    method SaveOutcome(t: Txn, r: Result, ghost stamp: Option<Time>) returns (out: Result, ghost last: Save)
      requires r.Confirmed? || r.Rejected? || r.Failed?
      requires Valid() && task == Transition(t, Saving(PhaseFor(r), false, false))
      requires (r.Failed? ==> MemLatched(mem, t.device)) && (r.Confirmed? ==> FencedBy(t, stamp))
      modifies this`mem, this`disk, this`task, this`trace, this`saves, owner
      ensures Valid() && old(trace) <= trace && calls == old(calls) && Honest(t, out)
      ensures saves == old(saves) + [last] && LastSave(last, r, out)
      ensures out.Confirmed? ==> FencedBy(t, stamp)
      ensures if out.Cancelled? then Interruptible(t) else task == Idle
    {
      var stop := SaveOrStop(t, PhaseFor(r));
      last := SaveBehind(stop);
      if stop.Some? {
        return stop.value, last;
      }
      DurableOutcome(t, r);
      Return(t, PhaseFor(r));
      out := r;
    }

    method Return(t: Txn, ghost phase: J.Phase)
      requires Valid() && task == Transition(t, Saving(phase, true, false)) && phase !in {J.Prepared, J.Dispatched}
      modifies this`task, this`trace
      ensures Valid() && old(trace) <= trace && task == Idle
    {
      ghost var before := View();
      task := Idle;
      Advance(before, Resume(true));
    }

    /** Once the terminal save has succeeded, disk announces the outcome and holds all of it. */
    lemma DurableOutcome(t: Txn, r: Result)
      requires r.Confirmed? || r.Rejected? || r.Failed?
      requires Valid() && task == Transition(t, Saving(PhaseFor(r), true, false))
      ensures IsDurable(configured, Contents(disk), t, r)
    {
      Invariants();
      assert DiskFollows(Contents(disk).journal, t, task.stage);
      assert DiskIsWhole(configured, t, Contents(disk));
    }

    /** What the caller may conclude from the result. */
    ghost predicate Honest(t: Txn, out: Result)
      reads this
    {
      && (out.Confirmed? || out.Rejected? || out.Failed? ==> IsDurable(configured, Contents(disk), t, out))
      && (out.Failed? || out.StorageBlocked? ==> MemLatched(mem, t.device))
      && (out.StorageBlocked? ==> !Holds(mem.own.tickets, t.device))
    }

    /** The handler for a cancellation: it saves too, but nothing depends on that save. */
    method Unwind(t: Txn)
      requires Valid() && Interruptible(t)
      modifies this`mem, this`disk, this`task, this`trace, this`saves, owner
      ensures saves == old(saves)
      ensures Valid() && old(trace) <= trace && task == Idle
      ensures Retracted(t)
    {
      BeginUnwinding(t);
      SaveUnwound(t);
    }

    method BeginUnwinding(t: Txn)
      requires Valid() && Interruptible(t)
      modifies this`mem, this`task, this`trace, owner
      ensures Valid() && old(trace) <= trace && task == Transition(t, Saving(J.Failed, false, true))
      ensures Retracted(t)
    {
      ghost var before := View();
      CancelStep(before, t);
      RetireAndLatch(t);
      task := Transition(t, Saving(J.Failed, false, true));
      Advance(before, Cancel);
    }

    method SaveUnwound(t: Txn)
      requires Valid() && task == Transition(t, Saving(J.Failed, false, true))
      modifies this`mem, this`disk, this`task, this`trace, this`saves
      ensures saves == old(saves)
      ensures Valid() && old(trace) <= trace && task == Idle
      ensures mem == old(mem).(telemetry := mem.telemetry, sourceLoss := mem.sourceLoss, stopping := mem.stopping)
    {
      var saved, _ := Persist(t, J.Failed, true);
      ghost var before := View();
      task := Idle;
      Advance(before, if saved == Aborted then Cancel else Resume(saved == Saved));
    }

    /** Publish, then dispatch, settle and save, whatever the end. */
    method Attempt(t: Txn) returns (out: Result, ghost made: seq<Call>)
      requires Valid() && task == Idle && Enabled(View(), Begin(t))
      modifies this, owner
      ensures Valid() && old(trace) <= trace && calls == old(calls) + made && Sequence(t, made)
      ensures CallsFit(out, made) && Honest(t, out) && CalledFor(out, saves, heard)
      ensures out.Confirmed? ==> heard[|heard| - 1] == Said(confirmedAt) && FencedBy(t, confirmedAt)
      ensures if out.Cancelled? then Interruptible(t) else task == Idle
    {
      heard := [];
      var stop := Publish(t);
      if stop.None? {
        out, made := Finish(t);
      } else {
        out, made := stop.value, [];
      }
    }

    /** One whole transition. The result is the one its saves and answers call for, and a fence it installs
        waits for a report later than the one that confirmed it. */
    method Execute(t: Txn) returns (out: Result, ghost made: seq<Call>)
      requires Valid() && task == Idle && Enabled(View(), Begin(t))
      modifies this, owner
      ensures Valid() && task == Idle && old(trace) <= trace
      ensures calls == old(calls) + made && Sequence(t, made) && CallsFit(out, made)
      ensures forall c :: c in made ==> Warranted(c)
      ensures Honest(t, out) && (out.Cancelled? ==> Retracted(t))
      ensures CalledFor(out, saves, heard)
      ensures out.Confirmed? ==> heard[|heard| - 1] == Said(confirmedAt) && FencedBy(t, confirmedAt)
    {
      out, made := Attempt(t);
      if out == Cancelled {
        Unwind(t);
      }
      CallsAreWarranted(old(calls), made);
    }
  }
}
