/** Causal fences between confirmed actions, across saves and reloads: policy.py, coordinator.py, storage.py. */
module Fences {
  import opened Prelude

  /** A pending barrier: the load generation at the action and its confirming report. */
  datatype Fence = Fence(generation: Option<nat>, after: Option<Time>)
  {
    predicate Pending() { generation.Some? }
  }

  const OPEN := Fence(None, None)

  datatype Barriers = Barriers(shed: Fence, restore: Fence)

  datatype Kind = Shed | Restore

  function FenceOf(b: Barriers, k: Kind): Fence { if k == Shed then b.shed else b.restore }

  datatype State = State(
    mem: Barriers,
    loadGeneration: nat,
    lastAccepted: Option<Time>,
    disk: Barriers)

  datatype Op =
    | Ingest(stamp: Time)                 // a valid aggregate reading with this report stamp
    | Confirm(kind: Kind, stamp: Time)    // a policy shed or a restore confirmed by readback
    | Save
    | Reload(now: Time, saved: bool)      // a new process, after a shutdown or a crash, with its own first save
    | Other                               // whatever touches neither barriers nor reports

  const START := State(Barriers(OPEN, OPEN), 0, None, Barriers(OPEN, OPEN))

  // ---------- The engine and the store ----------

  /** `_accept_load_report`. */
  predicate Accepts(s: State, stamp: Time) { s.lastAccepted.None? || stamp > s.lastAccepted.value }

  /** `reconcile_shed` / `reconcile_restore`. */
  function Reconciled(f: Fence, loadGeneration: nat, reported: Time): Fence {
    if f.generation.Some? && loadGeneration > f.generation.value && f.after.Some? && reported > f.after.value
    then OPEN else f
  }

  /** `append_shed` / `append_restore` followed by the post-action fence. */
  function Installed(loadGeneration: nat, stamp: Time): Fence { Fence(Some(loadGeneration), Some(stamp)) }

  /** `_restore_shed_fence` / `_restore_restore_fence`: the fence stays, the generation restarts. */
  function Reloaded(f: Fence, now: Time): Fence {
    if f.generation.Some? then Fence(Some(0), if f.after.None? then Some(now) else f.after)
    else Fence(None, f.after)
  }

  /** `can_shed_again`, and the two fence gates of `restore_commands_allowed`. */
  predicate Permits(b: Barriers, k: Kind) {
    !b.shed.Pending() && (k == Restore ==> !b.restore.Pending())
  }

  function Apply(s: State, op: Op): State {
    match op
    case Ingest(stamp) =>
      var g := if Accepts(s, stamp) then s.loadGeneration + 1 else s.loadGeneration;
      s.(loadGeneration := g,
         lastAccepted := if Accepts(s, stamp) then Some(stamp) else s.lastAccepted,
         mem := Barriers(Reconciled(s.mem.shed, g, stamp), Reconciled(s.mem.restore, g, stamp)))
    case Confirm(k, stamp) =>
      var f := Installed(s.loadGeneration, stamp);
      s.(mem := if k == Shed then s.mem.(shed := f) else s.mem.(restore := f))
    case Save => s.(disk := s.mem)
    case Reload(now, saved) =>
      var m := Barriers(Reloaded(s.disk.shed, now), Reloaded(s.disk.restore, now));
      s.(mem := m, loadGeneration := 0, lastAccepted := None, disk := if saved then m else s.disk)
    case Other => s
  }

  function After(s0: State, h: seq<Op>): State {
    if h == [] then s0 else Apply(After(s0, h[..|h| - 1]), h[|h| - 1])
  }

  /** Actions are confirmed only where their fence gates let them begin. */
  ghost predicate Permitted(s0: State, h: seq<Op>) {
    forall i :: 0 <= i < |h| && h[i].Confirm? ==> Permits(After(s0, h[..i]).mem, h[i].kind)
  }

  // ---------- Separation ----------

  /** A restore is never followed by a fence for a later shed; every other pair is fenced. */
  predicate Fenced(first: Kind, second: Kind) { first == Shed || second == Restore }

  /** An aggregate report accepted strictly between positions i and j, stamped after `stamp`. */
  ghost predicate Separated(s0: State, h: seq<Op>, i: int, j: int, stamp: Time) {
    exists k :: i < k < j && AcceptedAfter(s0, h, k, stamp)
  }

  ghost predicate AcceptedAfter(s0: State, h: seq<Op>, k: int, stamp: Time) {
    0 <= k < |h| && h[k].Ingest? && h[k].stamp > stamp && Accepts(After(s0, h[..k]), h[k].stamp)
  }

  /** No process ended between i and j before some save after i succeeded. */
  ghost predicate DurableBeforeReload(h: seq<Op>, i: int, j: int) {
    0 <= i <= j <= |h| && forall r :: i < r < j && h[r].Reload? ==> exists m :: i < m < r && h[m] == Save
  }

  ghost predicate SavedIn(h: seq<Op>, i: int, n: int) { exists m :: i < m < n <= |h| && 0 <= m && h[m] == Save }

  /** Between the first action and its separating report the fence holds in memory, and on
      disk as soon as one save has happened. */
  ghost predicate StillFenced(s0: State, h: seq<Op>, i: int, n: int, k: Kind, stamp: Time)
    requires 0 <= i < n <= |h|
  {
    var s := After(s0, h[..n]);
    var f := FenceOf(s.mem, k);
    && f.generation.Some? && f.after == Some(stamp)
    && s.loadGeneration >= f.generation.value
    && (s.loadGeneration > f.generation.value ==> s.lastAccepted.Some? && s.lastAccepted.value <= stamp)
    && (SavedIn(h, i, n) ==> FenceOf(s.disk, k).generation.Some? && FenceOf(s.disk, k).after == Some(stamp))
  }

  lemma TakeTake<T>(h: seq<T>, m: nat, n: nat)
    requires m <= n <= |h|
    ensures h[..n][..m] == h[..m]
  {}

  lemma {:induction false} FenceHolds(s0: State, h: seq<Op>, i: nat, n: nat)
    requires i < n <= |h| && Permitted(s0, h) && h[i].Confirm?
    requires DurableBeforeReload(h, i, n)
    ensures StillFenced(s0, h, i, n, h[i].kind, h[i].stamp) || Separated(s0, h, i, n, h[i].stamp)
  {
    var k, stamp := h[i].kind, h[i].stamp;
    TakeTake(h, n - 1, n);
    if n == i + 1 {
      assert !SavedIn(h, i, n);
    } else {
      FenceHolds(s0, h, i, n - 1);
      if Separated(s0, h, i, n - 1, stamp) {
        var m :| i < m < n - 1 && AcceptedAfter(s0, h, m, stamp);
        assert Separated(s0, h, i, n, stamp);
      } else {
        FenceStep(s0, h, i, n);
      }
    }
  }

  lemma FenceStep(s0: State, h: seq<Op>, i: nat, n: nat)
    requires i + 1 < n <= |h| && Permitted(s0, h) && h[i].Confirm?
    requires DurableBeforeReload(h, i, n)
    requires StillFenced(s0, h, i, n - 1, h[i].kind, h[i].stamp)
    ensures StillFenced(s0, h, i, n, h[i].kind, h[i].stamp) || Separated(s0, h, i, n, h[i].stamp)
  {
    var k, stamp := h[i].kind, h[i].stamp;
    var op := h[n - 1];
    var s := After(s0, h[..n - 1]);
    TakeTake(h, n - 1, n);
    assert After(s0, h[..n]) == Apply(s, op);
    assert SavedIn(h, i, n) ==> SavedIn(h, i, n - 1) || op == Save;
    match op
    case Ingest(t) =>
      if t > stamp && Accepts(s, t) {
        assert AcceptedAfter(s0, h, n - 1, stamp);
      }
    case Confirm(k2, _) =>
      assert Permits(s.mem, k2);
    case Save =>
    case Reload(_, _) =>
      assert SavedIn(h, i, n - 1);
    case Other =>
  }

  /** Causal separation: the second of two fenced actions is confirmed only after an aggregate
      report, accepted in between, that is stamped later than the first action's readback. */
  lemma CausalSeparation(s0: State, h: seq<Op>, i: nat, j: nat)
    requires i < j < |h| && Permitted(s0, h) && h[i].Confirm? && h[j].Confirm?
    requires Fenced(h[i].kind, h[j].kind) && DurableBeforeReload(h, i, j)
    ensures Separated(s0, h, i, j, h[i].stamp)
  {
    FenceHolds(s0, h, i, j);
    assert Permits(After(s0, h[..j]).mem, h[j].kind);
  }

  // ---------- Release ----------

  /** No later action of this kind and no reload between i and n. */
  ghost predicate Undisturbed(h: seq<Op>, i: int, n: int, k: Kind) {
    0 <= i <= n <= |h| && forall r :: i < r < n ==> !h[r].Reload? && !(h[r].Confirm? && h[r].kind == k)
  }

  /** The barrier is up exactly until its report, and then down. */
  ghost predicate UpUntilReport(s0: State, h: seq<Op>, i: int, n: int, k: Kind, stamp: Time)
    requires 0 <= i < n <= |h|
  {
    var s := After(s0, h[..n]);
    var f := FenceOf(s.mem, k);
    if Separated(s0, h, i, n, stamp) then f == OPEN
    else
      && f.generation.Some? && f.after == Some(stamp) && s.loadGeneration >= f.generation.value
      && (s.loadGeneration > f.generation.value ==> s.lastAccepted.Some? && s.lastAccepted.value <= stamp)
  }

  lemma SeparatedStep(s0: State, h: seq<Op>, i: nat, n: nat, stamp: Time)
    requires i + 1 < n <= |h|
    ensures Separated(s0, h, i, n, stamp) <==> Separated(s0, h, i, n - 1, stamp) || AcceptedAfter(s0, h, n - 1, stamp)
  {
    if Separated(s0, h, i, n, stamp) {
      var m :| i < m < n && AcceptedAfter(s0, h, m, stamp);
    }
    if Separated(s0, h, i, n - 1, stamp) {
      var m :| i < m < n - 1 && AcceptedAfter(s0, h, m, stamp);
      assert i < m < n;
    }
  }

  lemma UpUntilReportStep(s0: State, h: seq<Op>, i: nat, n: nat, k: Kind, stamp: Time)
    requires i + 1 < n <= |h| && Undisturbed(h, i, n, k) && UpUntilReport(s0, h, i, n - 1, k, stamp)
    ensures UpUntilReport(s0, h, i, n, k, stamp)
  {
    TakeTake(h, n - 1, n);
    SeparatedStep(s0, h, i, n, stamp);
    assert After(s0, h[..n]) == Apply(After(s0, h[..n - 1]), h[n - 1]);
  }

  lemma {:induction false} UpUntilReportHolds(s0: State, h: seq<Op>, i: nat, n: nat)
    requires i < n <= |h| && h[i].Confirm? && Undisturbed(h, i, n, h[i].kind)
    ensures UpUntilReport(s0, h, i, n, h[i].kind, h[i].stamp)
  {
    if n == i + 1 {
      TakeTake(h, i, n);
      assert After(s0, h[..n]) == Apply(After(s0, h[..i]), h[i]);
      assert !Separated(s0, h, i, n, h[i].stamp);
    } else {
      UpUntilReportHolds(s0, h, i, n - 1);
      UpUntilReportStep(s0, h, i, n, h[i].kind, h[i].stamp);
    }
  }

  /** Release, exactly: while no process ended and no newer action of its kind was confirmed, a barrier is up
      iff no aggregate report stamped after its action has been accepted since, so that report
      opens it at once and it stays open. */
  lemma BarrierIsUpIffNoLaterReport(s0: State, h: seq<Op>, i: nat, n: nat)
    requires i < n <= |h| && h[i].Confirm? && Undisturbed(h, i, n, h[i].kind)
    ensures FenceOf(After(s0, h[..n]).mem, h[i].kind).Pending() <==>
      !exists k :: i < k < n && h[k].Ingest? && h[k].stamp > h[i].stamp
                   && (var last := After(s0, h[..k]).lastAccepted; last.None? || h[k].stamp > last.value)
  {
    UpUntilReportHolds(s0, h, i, n);
    if k :| i < k < n && h[k].Ingest? && h[k].stamp > h[i].stamp
            && (var last := After(s0, h[..k]).lastAccepted; last.None? || h[k].stamp > last.value) {
      assert AcceptedAfter(s0, h, k, h[i].stamp);
    }
    if Separated(s0, h, i, n, h[i].stamp) {
      var k :| i < k < n && AcceptedAfter(s0, h, k, h[i].stamp);
      assert h[k].Ingest? && h[k].stamp > h[i].stamp;
    }
  }

  lemma Snoc(s0: State, h: seq<Op>, op: Op)
    requires Permitted(s0, h) && (op.Confirm? ==> Permits(After(s0, h).mem, op.kind))
    ensures Permitted(s0, h + [op]) && After(s0, h + [op]) == Apply(After(s0, h), op)
  {
    var run := h + [op];
    assert run[..|h|] == h;
    forall i | 0 <= i < |run| && run[i].Confirm? ensures Permits(After(s0, run[..i]).mem, run[i].kind) {
      if i < |h| { assert run[..i] == h[..i]; }
    }
  }

  /** Any first action, a lost process, an older report, and any second action it could be. */
  function ForgottenRun(h: seq<Op>, first: Kind, second: Kind, stamp: Time, stale: Time, now: Time): seq<Op> {
    h + [Confirm(first, stamp)] + [Reload(now, false)] + [Ingest(stale)] + [Confirm(second, now)]
  }

  lemma ForgottenRunIsPermitted(s0: State, h: seq<Op>, first: Kind, second: Kind, stamp: Time, stale: Time, now: Time)
    requires Permitted(s0, h) && Permits(After(s0, h).mem, first) && Permits(After(s0, h).disk, Restore)
    ensures Permitted(s0, ForgottenRun(h, first, second, stamp, stale, now))
  {
    var h1 := h + [Confirm(first, stamp)];
    var h2 := h1 + [Reload(now, false)];
    var h3 := h2 + [Ingest(stale)];
    Snoc(s0, h, Confirm(first, stamp));
    Snoc(s0, h1, Reload(now, false));
    Snoc(s0, h2, Ingest(stale));
    Snoc(s0, h3, Confirm(second, now));
  }

  /** The durability condition is needed, for every pair of actions: after any run with no fence on
      disk, an action whose fence was never saved is forgotten by a reload, and a report older
      than that action is enough for the next. */
  lemma UnsavedActionIsForgotten(s0: State, h: seq<Op>, first: Kind, second: Kind, stamp: Time, stale: Time, now: Time)
    requires Permitted(s0, h) && Permits(After(s0, h).mem, first) && Permits(After(s0, h).disk, Restore)
    requires stale <= stamp
    ensures var run := ForgottenRun(h, first, second, stamp, stale, now);
      && Permitted(s0, run) && run[|h|] == Confirm(first, stamp) && run[|h| + 3] == Confirm(second, now)
      && !DurableBeforeReload(run, |h|, |h| + 3) && !Separated(s0, run, |h|, |h| + 3, stamp)
  {
    ForgottenRunIsPermitted(s0, h, first, second, stamp, stale, now);
    var run := ForgottenRun(h, first, second, stamp, stale, now);
    assert run[|h| + 1] == Reload(now, false) && run[|h| + 2] == Ingest(stale);
  }

  /** A shed may follow a confirmed restore at once: this pair has no fence. */
  lemma RestoreThenShedIsUnfenced(s0: State, h: seq<Op>, stamp: Time, next: Time)
    requires Permitted(s0, h)
    requires !After(s0, h).mem.shed.Pending() && !After(s0, h).mem.restore.Pending()
    ensures var run := h + [Confirm(Restore, stamp)] + [Confirm(Shed, next)];
      Permitted(s0, run) && !Separated(s0, run, |h|, |h| + 1, stamp)
  {
    Snoc(s0, h, Confirm(Restore, stamp));
    Snoc(s0, h + [Confirm(Restore, stamp)], Confirm(Shed, next));
  }
}
