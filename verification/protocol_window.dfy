/**
 * The sixty-second window inside the protocol: runs in which every call that touches the window is
 * heard, and every permission check reads the window those calls leave. policy.py and coordinator.py.
 */
module ProtocolWindow {
  import opened Prelude
  import opened Protocol
  import D = Dwell
  import W = RestoreWindow

  /** A process and what its window has been through since it started. */
  datatype Timed = Timed(sys: Sys, heard: seq<W.Op>, lastOffer: Option<Time>)

  datatype TimedLabel = Do(l: Label) | Hear(op: W.Op)

  /** What a step of the protocol does to the window. A confirmed transition, any end of a restore, a
      failed save and a cancellation reset it; a mode change may put its start back. */
  function WindowOps(s: Sys, l: Label): seq<W.Op> {
    match l
    case ReadBack(_, _, _) => [W.Reset]
    case Deny(_) => RestoreEnds(s)
    case Unconfirmed => RestoreEnds(s)
    case Raise => RestoreEnds(s)
    case SetMode(mode) => [W.BeginMode(mode != Auto)]
    case Resume(ok) =>
      if s.task.ChangingMode? then [W.EndMode(!ok)]
      else if s.task.Transition? && !ok && !Unwinding(s.task.stage) then [W.Reset]
      else []
    case Cancel =>
      if s.task.ChangingMode? then [W.EndMode(false)]
      else if s.task.Transition? && !Unwinding(s.task.stage) then [W.Reset]
      else []
    case _ => []
  }

  predicate Unwinding(stage: Stage) { stage.Saving? && stage.unwinding }

  function RestoreEnds(s: Sys): seq<W.Op> {
    if s.task.Transition? && s.task.t.kind.SwitchOn? then [W.Reset] else []
  }

  /** The candidate and limit the check asks the window about. */
  function Asked(w: World): W.Capacity { (w.expectedPower, w.lowestLimit) }

  /** Reports and resets come at any time; only the evaluation, which holds the lock, offers capacity. */
  ghost predicate TimedEnabled(t: Timed, tl: TimedLabel) {
    match tl
    case Hear(op) =>
      (match op
       case Report(_) => true
       case Reset => true
       case LoadObserved(_) => t.sys.task == Idle
       case Offer(_, _, _, at) => t.sys.task == Idle && (t.lastOffer.Some? ==> t.lastOffer.value <= at)
       case BeginMode(_) => false
       case EndMode(_) => false)
    case Do(l) =>
      Enabled(t.sys, l) && (l.Issue? ==> l.w.windowMatured == W.Matured(W.After(t.heard), Asked(l.w), l.w.mono))
  }

  /** A new process hears nothing of the old one's window. */
  ghost function TimedApply(t: Timed, tl: TimedLabel): Timed
    requires TimedEnabled(t, tl)
  {
    match tl
    case Hear(op) => t.(heard := t.heard + [op], lastOffer := if op.Offer? then Some(op.at) else t.lastOffer)
    case Do(l) =>
      if l.Restart? then Timed(Apply(t.sys, l), [], None)
      else t.(sys := Apply(t.sys, l), heard := t.heard + WindowOps(t.sys, l))
  }

  ghost predicate TimedRun(t: Timed, tls: seq<TimedLabel>)
    decreases |tls|
  {
    tls == [] || (TimedEnabled(t, tls[0]) && TimedRun(TimedApply(t, tls[0]), tls[1..]))
  }

  ghost function TimedExec(t: Timed, tls: seq<TimedLabel>): Timed
    requires TimedRun(t, tls)
    decreases |tls|
  {
    if tls == [] then t else TimedExec(TimedApply(t, tls[0]), tls[1..])
  }

  ghost predicate TimedInitial(t: Timed) { Initial(t.sys) && t.heard == [] && t.lastOffer == None }

  // ---------- Timed runs are runs ----------

  function Untimed(tls: seq<TimedLabel>): seq<Label> {
    if tls == [] then []
    else if tls[0].Do? then [tls[0].l] + Untimed(tls[1..])
    else Untimed(tls[1..])
  }

  /** Forgetting the window leaves a run of the protocol, so all that holds of runs holds here. */
  lemma {:induction false} TimedRunIsRun(t: Timed, tls: seq<TimedLabel>)
    requires TimedRun(t, tls)
    ensures Run(t.sys, Untimed(tls)) && Exec(t.sys, Untimed(tls)) == TimedExec(t, tls).sys
    decreases |tls|
  {
    if tls != [] {
      TimedRunIsRun(TimedApply(t, tls[0]), tls[1..]);
      if tls[0].Do? { assert Untimed(tls)[1..] == Untimed(tls[1..]); }
    }
  }

  // ---------- The lock, proved ----------

  ghost predicate HeardInv(h: seq<W.Op>, lastOffer: Option<Time>) {
    && W.Serialized(h) && W.OffersInOrder(h)
    && forall i :: 0 <= i < |h| && h[i].Offer? ==> lastOffer.Some? && h[i].at <= lastOffer.value
  }

  /** No offer and no second mode change falls into a mode change, and offers come in clock order. */
  ghost predicate WindowInv(t: Timed) {
    HeardInv(t.heard, t.lastOffer) && (W.After(t.heard).saved.Some? <==> t.sys.task.ChangingMode?)
  }

  lemma HeardOneMore(h: seq<W.Op>, lastOffer: Option<Time>, op: W.Op)
    requires HeardInv(h, lastOffer) && (W.After(h).saved.Some? ==> !op.Offer? && !op.BeginMode?)
    requires op.Offer? && lastOffer.Some? ==> lastOffer.value <= op.at
    ensures HeardInv(h + [op], if op.Offer? then Some(op.at) else lastOffer)
    ensures W.After(h + [op]) == W.Apply(W.After(h), op)
  {
    assert (h + [op])[..|h|] == h;
  }

  lemma HearKeepsInv(t: Timed, op: W.Op)
    requires WindowInv(t) && TimedEnabled(t, Hear(op))
    ensures WindowInv(TimedApply(t, Hear(op)))
  {
    HeardOneMore(t.heard, t.lastOffer, op);
  }

  /** Only a mode change begins or ends one. */
  lemma TaskAfter(s: Sys, l: Label)
    requires Enabled(s, l) && !l.Restart?
    ensures Apply(s, l).task.ChangingMode? <==>
      l.SetMode? || (s.task.ChangingMode? && !l.Resume? && !l.Cancel?)
  {}

  /** What a step does to the window, if anything, is one begin, one end, or one reset. */
  lemma WindowOpsFit(s: Sys, l: Label)
    requires Enabled(s, l)
    ensures l.SetMode? ==> WindowOps(s, l) == [W.BeginMode(l.mode != Auto)] && s.task == Idle
    ensures s.task.ChangingMode? && (l.Resume? || l.Cancel?) ==>
      WindowOps(s, l) == [W.EndMode(l == Resume(false))]
    ensures !l.SetMode? && !(s.task.ChangingMode? && (l.Resume? || l.Cancel?)) ==>
      WindowOps(s, l) == [] || WindowOps(s, l) == [W.Reset]
  {}

  /** The history after a step's operations, and whether a mode change is under way then. */
  lemma HeardAfter(h: seq<W.Op>, lastOffer: Option<Time>, ops: seq<W.Op>)
    requires HeardInv(h, lastOffer)
    requires ops == [] || (|ops| == 1 && !ops[0].Offer? && (W.After(h).saved.Some? ==> !ops[0].BeginMode?))
    ensures HeardInv(h + ops, lastOffer)
    ensures W.After(h + ops) == if ops == [] then W.After(h) else W.Apply(W.After(h), ops[0])
  {
    if ops == [] {
      assert h + ops == h;
    } else {
      assert ops == [ops[0]];
      HeardOneMore(h, lastOffer, ops[0]);
    }
  }

  lemma DoKeepsInv(t: Timed, l: Label)
    requires WindowInv(t) && TimedEnabled(t, Do(l))
    ensures WindowInv(TimedApply(t, Do(l)))
  {
    if !l.Restart? {
      TaskAfter(t.sys, l);
      WindowOpsFit(t.sys, l);
      HeardAfter(t.heard, t.lastOffer, WindowOps(t.sys, l));
    }
  }

  lemma {:induction false} RunKeepsWindow(t: Timed, tls: seq<TimedLabel>)
    requires WindowInv(t) && TimedRun(t, tls)
    ensures WindowInv(TimedExec(t, tls))
    decreases |tls|
  {
    if tls != [] {
      match tls[0] {
        case Hear(op) => HearKeepsInv(t, op);
        case Do(l) => DoKeepsInv(t, l);
      }
      RunKeepsWindow(TimedApply(t, tls[0]), tls[1..]);
    }
  }

  // ---------- Sixty safe seconds ----------

  /** In every run, each start and each temperature call follows at least sixty seconds in which this
      process heard, for this very candidate and limit, only reports and offers with room, and no
      reset: no confirmed transition, no ended restore, no failed save or cancellation, no mode left. */
  lemma StartsFollowSixtySafeSeconds(t0: Timed, tls: seq<TimedLabel>, verb: Verb, w: World)
    requires TimedInitial(t0) && TimedRun(t0, tls)
    requires var t := TimedExec(t0, tls); TimedEnabled(t, Do(Issue(verb, w))) && t.sys.task.t.kind.SwitchOn?
    ensures var h := TimedExec(t0, tls).heard;
      exists k :: W.SafeSince(h, k, Asked(w)) && w.mono - h[k].at >= 60.0
  {
    var t := TimedExec(t0, tls);
    RunKeepsWindow(t0, tls);
    W.MaturedIffSixtySafeSeconds(t.heard, Asked(w), w.mono);
  }

  // ---------- The sixty seconds, step by step ----------

  ghost function TimedAt(t: Timed, tls: seq<TimedLabel>, n: nat): Timed
    requires TimedRun(t, tls) && n <= |tls|
    decreases n
  {
    if n == 0 then t else TimedAt(TimedApply(t, tls[0]), tls[1..], n - 1)
  }

  lemma {:induction false} TimedAtNext(t: Timed, tls: seq<TimedLabel>, n: nat)
    requires TimedRun(t, tls) && n < |tls|
    ensures TimedEnabled(TimedAt(t, tls, n), tls[n])
    ensures TimedAt(t, tls, n + 1) == TimedApply(TimedAt(t, tls, n), tls[n])
    decreases n
  {
    if n > 0 { TimedAtNext(TimedApply(t, tls[0]), tls[1..], n - 1); }
  }

  lemma {:induction false} TimedAtEnd(t: Timed, tls: seq<TimedLabel>)
    requires TimedRun(t, tls)
    ensures TimedAt(t, tls, |tls|) == TimedExec(t, tls)
    decreases |tls|
  {
    if tls != [] { TimedAtEnd(TimedApply(t, tls[0]), tls[1..]); }
  }

  /** Nothing here speaks against starting this candidate below this limit. */
  ghost predicate Harmless(t: Timed, tl: TimedLabel, c: W.Capacity) {
    match tl
    case Hear(op) =>
      (match op
       case Report(r) => r.Watts? && r.w >= 0.0 && r.w + c.0 < c.1
       case LoadObserved(resets) => !resets
       case Offer(_, _, _, _) => W.Opens(op, c)
       case Reset => false
       case _ => true)
    case Do(l) =>
      && !l.ReadBack? && !l.Restart? && (l.SetMode? ==> l.mode == Auto)
      && (l.Deny? || l.Unconfirmed? || l.Raise? ==> !(t.sys.task.Transition? && t.sys.task.t.kind.SwitchOn?))
      && ((l == Resume(false) || l.Cancel?) && t.sys.task.Transition? ==>
            t.sys.task.stage.Saving? && t.sys.task.stage.unwinding)
  }

  lemma StepIsHarmless(t: Timed, l: Label, c: W.Capacity)
    requires Enabled(t.sys, l) && !l.Restart? && forall op :: op in WindowOps(t.sys, l) ==> W.Keeps(op, c)
    ensures Harmless(t, Do(l), c)
  {
    assert !W.Keeps(W.Reset, c) && !W.Keeps(W.BeginMode(true), c);
    assert W.Reset !in WindowOps(t.sys, l) && W.BeginMode(true) !in WindowOps(t.sys, l);
  }

  ghost predicate ComesFrom(t0: Timed, tls: seq<TimedLabel>, n: nat, op: W.Op, c: W.Capacity, j: nat)
    requires TimedRun(t0, tls) && n <= |tls|
  {
    j < n && tls[j] == Hear(op) && forall i :: j < i < n ==> Harmless(TimedAt(t0, tls, i), tls[i], c)
  }

  lemma OneMoreHarmless(t0: Timed, tls: seq<TimedLabel>, n: nat, op: W.Op, c: W.Capacity, j: nat)
    requires TimedRun(t0, tls) && n < |tls| && ComesFrom(t0, tls, n, op, c, j)
    requires Harmless(TimedAt(t0, tls, n), tls[n], c)
    ensures ComesFrom(t0, tls, n + 1, op, c, j)
  {}

  /** What the step at n added to the history: at most one operation, and none that speaks against it. */
  lemma LastStep(before: Timed, tl: TimedLabel, k: nat, c: W.Capacity)
    requires TimedEnabled(before, tl)
    requires var h := TimedApply(before, tl).heard; k < |h| && W.SafeSince(h, k, c)
    ensures var h := TimedApply(before, tl).heard;
      if k < |before.heard| then h[k] == before.heard[k] && W.SafeSince(before.heard, k, c) && Harmless(before, tl, c)
      else tl == Hear(h[k])
  {
    var h := TimedApply(before, tl).heard;
    if k < |before.heard| {
      assert forall i :: 0 <= i < |before.heard| ==> h[i] == before.heard[i];
    }
    if tl.Do? && !tl.l.Restart? {
      WindowOpsFit(before.sys, tl.l);
      var ops := WindowOps(before.sys, tl.l);
      assert h == before.heard + ops;
      if k < |before.heard| {
        forall op | op in ops ensures W.Keeps(op, c) {
          assert op == ops[0] && h[|before.heard|] == op;
        }
        StepIsHarmless(before, tl.l, c);
      }
    } else if tl.Hear? && k < |before.heard| {
      assert h[|before.heard|] == tl.op && W.Keeps(tl.op, c);
    }
  }

  lemma {:induction false} SafeOfferComesFrom(t0: Timed, tls: seq<TimedLabel>, n: nat, k: nat, c: W.Capacity)
    requires TimedInitial(t0) && TimedRun(t0, tls) && n <= |tls|
    requires k < |TimedAt(t0, tls, n).heard| && W.SafeSince(TimedAt(t0, tls, n).heard, k, c)
    ensures exists j :: ComesFrom(t0, tls, n, TimedAt(t0, tls, n).heard[k], c, j)
  {
    if n > 0 {
      var before, tl, op := TimedAt(t0, tls, n - 1), tls[n - 1], TimedAt(t0, tls, n).heard[k];
      TimedAtNext(t0, tls, n - 1);
      LastStep(before, tl, k, c);
      if k < |before.heard| {
        SafeOfferComesFrom(t0, tls, n - 1, k, c);
        var j :| ComesFrom(t0, tls, n - 1, op, c, j);
        OneMoreHarmless(t0, tls, n - 1, op, c, j);
      } else {
        assert ComesFrom(t0, tls, n, op, c, n - 1);
      }
    }
  }

  /** In every run, at least sixty seconds before each start and temperature call the controller found room for
      this very candidate below this very limit, and nothing since spoke against it: every report had room, no
      transition was confirmed, no restore ended, no save failed and nothing was cancelled, automatic
      mode was not left, and the process did not die. */
  lemma EveryStartWasEarned(t0: Timed, tls: seq<TimedLabel>, verb: Verb, w: World)
    requires TimedInitial(t0) && TimedRun(t0, tls)
    requires var t := TimedExec(t0, tls); TimedEnabled(t, Do(Issue(verb, w))) && t.sys.task.t.kind.SwitchOn?
    ensures exists j, load, at ::
      && ComesFrom(t0, tls, |tls|, RoomFor(w, load, at), Asked(w), j)
      && load >= 0.0 && load + w.expectedPower < w.lowestLimit && w.mono - at >= 60.0
  {
    var h, c := TimedExec(t0, tls).heard, Asked(w);
    StartsFollowSixtySafeSeconds(t0, tls, verb, w);
    var k :| W.SafeSince(h, k, c) && w.mono - h[k].at >= 60.0;
    TimedAtEnd(t0, tls);
    SafeOfferComesFrom(t0, tls, |tls|, k, c);
    var j :| ComesFrom(t0, tls, |tls|, h[k], c, j);
    assert h[k] == RoomFor(w, h[k].r.w, h[k].at);
    assert ComesFrom(t0, tls, |tls|, RoomFor(w, h[k].r.w, h[k].at), Asked(w), j);
  }

  function RoomFor(w: World, load: real, at: Time): W.Op {
    W.Offer(D.Watts(load), D.Watts(w.expectedPower), D.Watts(w.lowestLimit), at)
  }
}
