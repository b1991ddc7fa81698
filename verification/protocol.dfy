/**
 * The journaled actuation protocol as a state machine: restore_transactions.py,
 * the command paths of coordinator.py, actuator.py, storage.py and runtime_recovery.py.
 *
 * Memory, the durable snapshot and the log of physical calls change by labelled
 * steps. Every await is a state in which other parties may step: reports arrive,
 * shutdown is requested, another coroutine saves, the task is cancelled, or the
 * process dies and a new one recovers from the durable snapshot.
 */
module Protocol {
  import opened Prelude
  import opened Ownership
  import TS = TicketStore
  import J = Journal
  import F = Fences

  datatype Mode = Auto | Observe | Off

  /** What one terminal snapshot commits; the restore queue is the ticket keys in order. */
  datatype Owned = Owned(tickets: seq<Ticket>, pauses: map<DeviceId, Time>, fences: F.Barriers)

  datatype TelemetryFault = NoFault | Recoverable | Unclassified

  datatype Mem = Mem(
    mode: Mode,
    stopping: bool,
    storageInvalid: bool,   // the coordinator's gate
    storeInvalid: bool,     // the store's own flag, written by every save
    reconfigure: bool,
    telemetry: TelemetryFault,
    sourceLoss: bool,
    own: Owned,
    faulted: set<DeviceId>,
    quarantined: set<DeviceId>,
    loadGeneration: nat,
    lastAccepted: Option<Time>,  // the stamp of the last aggregate report that advanced the generation
    journal: seq<J.Event>)

  predicate Flagged(m: Mem, d: DeviceId) { d in m.faulted || d in m.quarantined }

  function Latched(m: Mem, d: DeviceId): Mem {
    m.(faulted := m.faulted + {d}, quarantined := m.quarantined + {d})
  }

  function Unflagged(m: Mem, d: DeviceId): Mem {
    m.(faulted := m.faulted - {d}, quarantined := m.quarantined - {d})
  }

  // ---------- The durable snapshot ----------

  datatype Section<T> = Absent | Malformed | Present(v: T)

  datatype DeviceFlags = DeviceFlags(faulted: set<DeviceId>, quarantined: set<DeviceId>)

  datatype Durable = Durable(
    mode: Option<Mode>,
    invalid: Section<bool>,
    tickets: Section<seq<Ticket>>,
    intents: Section<()>,
    flags: Section<DeviceFlags>,
    telemetry: Section<TelemetryFault>,
    pauses: map<DeviceId, Time>,
    fences: F.Barriers,
    journal: seq<J.Event>)

  const NOTHING := Durable(None, Absent, Absent, Absent, Absent, Absent, map[], F.START.mem, [])

  datatype Disk = Empty | NotADictionary | Stored(d: Durable)

  function Contents(disk: Disk): Durable { if disk.Stored? then disk.d else NOTHING }

  /** `_save_runtime_snapshot` followed by the store's own fields. */
  function Snapshot(configured: set<DeviceId>, m: Mem): Disk {
    Stored(Durable(
      Some(m.mode), Present(m.storeInvalid), Present(m.own.tickets), Present(()),
      Present(DeviceFlags(m.faulted * configured, m.quarantined * configured)),
      Present(m.telemetry), m.own.pauses, m.own.fences, m.journal))
  }

  // ---------- Recovery ----------

  predicate NamesDevice(r: J.Event, d: DeviceId) {
    J.DeviceKey in r && r[J.DeviceKey] == J.Plain(J.Text(d))
  }

  /** Configured loads named by an action the journal never saw finished. */
  function Ambiguous(h: seq<J.Event>, configured: set<DeviceId>): set<DeviceId> {
    set d | d in configured && exists r :: r in J.Unresolved(h) && NamesDevice(r, d)
  }

  /** The store flag after every reader has run. */
  predicate StoreFlag(disk: Disk, now: Time) {
    var c := Contents(disk);
    || disk.NotADictionary?
    || c.invalid.Malformed? || c.invalid == Present(true)
    || c.flags.Malformed? || c.telemetry.Malformed? || c.intents.Malformed? || c.tickets.Malformed?
    || (c.tickets.Present? && TS.FromTheFuture(c.tickets.v, now))
  }

  function DiskFaulted(c: Durable, configured: set<DeviceId>): set<DeviceId> {
    if c.flags.Present? then c.flags.v.faulted * configured else {}
  }

  function DiskQuarantined(c: Durable, configured: set<DeviceId>): set<DeviceId> {
    match c.flags
    case Absent => {}
    case Malformed => configured
    case Present(v) => v.quarantined * configured
  }

  const MAX_PAUSE: Time := 86400.0

  function RecoveredPauses(p: map<DeviceId, Time>, configured: set<DeviceId>, now: Time): map<DeviceId, Time> {
    map d | d in p && d in configured && now < p[d] <= now + MAX_PAUSE :: p[d]
  }

  function RecoveredTickets(c: Durable, configured: set<DeviceId>, now: Time): seq<Ticket> {
    if c.tickets.Present? then TS.Reloaded(c.tickets.v, configured, now) else []
  }

  /** `async_recover` up to its save. */
  function Recover(configured: set<DeviceId>, disk: Disk, now: Time, reconfigure: bool): Mem {
    var c := Contents(disk);
    var telemetry := match c.telemetry case Absent => NoFault case Malformed => Unclassified case Present(t) => t;
    var blocked := StoreFlag(disk, now) || telemetry == Unclassified;
    var unsure := Ambiguous(c.journal, configured);
    Mem(
      if blocked then Off else if reconfigure then Observe else if c.mode.Some? then c.mode.value else Observe,
      false, blocked, StoreFlag(disk, now), reconfigure, telemetry, false,
      Owned(RecoveredTickets(c, configured, now), RecoveredPauses(c.pauses, configured, now),
            F.Barriers(F.Reloaded(c.fences.shed, now), F.Reloaded(c.fences.restore, now))),
      DiskFaulted(c, configured) + unsure, DiskQuarantined(c, configured) + unsure,
      0, None, c.journal)
  }

  // ---------- Permission ----------

  /** What a permission check reads from the house at its instant, for one load. */
  datatype World = World(
    loadValid: bool, load: real, sourceAvailable: bool, sourceOk: bool, now: Time,
    batteryPermits: bool, loadOff: bool, actuatorOff: bool, requestPermits: bool, windowMatured: bool,
    commandEntity: string, climate: bool, expectedPower: real, lowestLimit: real, mono: Time)

  datatype Source = Policy | Service | GridLoss | BatteryMinimum | ManualReshed | Emergency

  const RECOVERABLE_REASONS := {
    "safety_telemetry_unavailable", "load_unavailable", "load_unsupported_unit", "load_invalid_value", "load_stale"
  }

  predicate EmergencyAllowed(m: Mem) {
    !m.stopping && m.mode == Auto && !m.storageInvalid && !m.reconfigure
  }

  predicate PhysicalAllowed(m: Mem, w: World) {
    && EmergencyAllowed(m)
    && w.loadValid && w.sourceAvailable && w.sourceOk && m.telemetry == NoFault && !m.sourceLoss
  }

  predicate RestoreAllowed(m: Mem, w: World) { PhysicalAllowed(m, w) && F.Permits(m.own.fences, F.Restore) }

  predicate PauseActive(m: Mem, d: DeviceId, now: Time) { d in m.own.pauses && now < m.own.pauses[d] }

  /** `_off_dispatch_permitted`. */
  predicate OffPermitted(m: Mem, w: World, emergency: bool, source: Source) {
    if !emergency then PhysicalAllowed(m, w)
    else
      && EmergencyAllowed(m)
      && (source == Emergency ||
          (w.sourceAvailable && !w.sourceOk &&
           (source in {GridLoss, BatteryMinimum, ManualReshed} ==> !w.batteryPermits)))
  }

  /** `_restore_dispatch_permitted`. */
  predicate OnPermitted(m: Mem, w: World, d: DeviceId, t: Ticket) {
    && RestoreAllowed(m, w)
    && t.cause !in RECOVERABLE_REASONS
    && Lookup(m.own.tickets, d) == Some(t)
    && t.restore.entity == w.commandEntity && t.restore.climate == w.climate
    && !t.Expired(w.now) && !Flagged(m, d) && !PauseActive(m, d, w.now)
    && w.loadOff && w.actuatorOff && w.requestPermits
    && w.load + w.expectedPower < w.lowestLimit && w.windowMatured
  }

  // ---------- One transition ----------

  /** What a confirmed stop stages beside the pause. */
  datatype Commit = PauseOnly | Keep(cause: string, restore: RestoreState, fenced: bool)

  datatype Kind =
    | SwitchOff(emergency: bool, source: Source, fallbacks: nat, commit: Commit)
    | SwitchOn(ticket: Ticket)

  /** `before` is the ownership in memory when the transition began. */
  datatype Txn = Txn(action: string, operation: nat, device: DeviceId, kind: Kind, startedAt: Time, before: Owned)

  /** Where a dispatch waits: the services already called and not yet confirmed. */
  datatype Point = Start | TemperatureSet | AwaitingReadback(fallbackOpen: bool) | FallbackIssued(n: nat)

  datatype Stage =
    | Saving(phase: J.Phase, written: bool, unwinding: bool)
    | Dispatching(p: Point)

  datatype Task =
    | Idle
    | Transition(t: Txn, stage: Stage)
    | ChangingMode(previous: Mode, written: bool)
    | Clearing(device: DeviceId, written: bool)

  datatype Verb = TurnOff | FallbackOff | SetTemperature | TurnOn

  /** One physical service call with everything its permission check saw and the journal on disk then. */
  datatype Call = Call(txn: Txn, verb: Verb, mem: Mem, world: World, durable: seq<J.Event>)

  datatype Sys = Sys(
    configured: set<DeviceId>,
    mem: Mem,
    disk: Disk,
    task: Task,
    calls: seq<Call>,
    created: multiset<DeviceId>,
    cleared: multiset<DeviceId>)

  function TxnId(t: Txn): J.Value { J.Plain(J.Text(t.action)) }

  function TxnEvent(t: Txn, phase: J.Phase): J.Event {
    map[J.ActionIdKey := J.Plain(J.Text(t.action)),
        J.ActionKey := J.Plain(J.Text(if t.kind.SwitchOn? then "turn_on" else "turn_off")),
        J.DeviceKey := J.Plain(J.Text(t.device)),
        J.PhaseKey := J.Plain(J.Word(phase)),
        J.ResultKey := J.Plain(J.Word(phase)),
        J.TimestampKey := J.Plain(J.Number(t.startedAt))]
  }

  /** The journal once the transition's record reads `phase`. */
  function Rec(h: seq<J.Event>, t: Txn, phase: J.Phase): seq<J.Event> {
    J.Record(h, TxnEvent(t, phase), t.startedAt)
  }

  function Recorded(m: Mem, t: Txn, phase: J.Phase): Mem { m.(journal := Rec(m.journal, t, phase)) }

  /** `complete` of a confirmed stop or restore: ticket, pause and fence move together. */
  function CommitOwned(t: Txn, o: Owned, now: Time, pauseUntil: Option<Time>, stamp: Time, generation: nat): Owned {
    match t.kind
    case SwitchOn(_) =>
      o.(tickets := Without(o.tickets, t.device), fences := o.fences.(restore := F.Installed(generation, stamp)))
    case SwitchOff(_, _, _, commit) =>
      var pauses := if pauseUntil.Some? then o.pauses[t.device := pauseUntil.value] else o.pauses - {t.device};
      var paused := o.(pauses := pauses);
      match commit
      case PauseOnly => paused
      case Keep(cause, restore, fenced) =>
        var ticket := Ticket(t.device, cause, t.operation, now, now + MAX_INTENT_TTL, restore);
        paused.(tickets := Without(o.tickets, t.device) + [ticket],
                fences := if fenced then o.fences.(shed := F.Installed(generation, stamp)) else o.fences)
  }

  predicate CreatesTicket(t: Txn) { t.kind.SwitchOff? && t.kind.commit.Keep? }

  function Retired(m: Mem, d: DeviceId): Mem { m.(own := m.own.(tickets := Without(m.own.tickets, d))) }

  /** `_storage_failure`: ownership retired, device quarantined, failure recorded. */
  function StorageFailed(m: Mem, t: Txn): Mem { Recorded(Latched(Retired(m, t.device), t.device), t, J.Failed) }

  // ---------- Steps ----------

  datatype SaveOutcome = SavedOk | FailedUnwritten | FailedWritten

  datatype Label =
    | ExtraSave
    | Disturb(telemetry: TelemetryFault, sourceLoss: bool)
    | Shutdown
    | Restart(now: Time, reconfigure: bool, outcome: SaveOutcome)
    | Begin(t: Txn)
    | Note(e: J.Event, at: Time)
    | Reconcile(intents: Intents, at: Time)
    | Retire(device: DeviceId)
    | Ingest(stamp: Time)
    | IntentSaveFailed
    | LatchFault(device: DeviceId)
    | SetMode(mode: Mode)
    | Clear(device: DeviceId)
    | Write
    | Resume(ok: bool)
    | Cancel
    | Deny(w: World)
    | Issue(verb: Verb, w: World)
    | ReadBack(stamp: Time, at: Time, pauseUntil: Option<Time>)
    | Unconfirmed
    | Raise

  /** The causal fence a confirmed transition installs: policy sheds and restores have one. */
  function FencedAs(t: Txn): Option<F.Kind> {
    match t.kind
    case SwitchOn(_) => Some(F.Restore)
    case SwitchOff(_, _, _, commit) => if commit.Keep? && commit.fenced then Some(F.Shed) else None
  }

  /** `can_shed_again` before a policy shed, and the fence gates before a restore. */
  predicate FenceGateOpen(t: Txn, b: F.Barriers) {
    var k := FencedAs(t);
    k.Some? ==> F.Permits(b, k.value)
  }

  predicate FreeOf(h: seq<J.Event>, id: J.Value) { forall i :: 0 <= i < |h| ==> J.IdOf(h[i]) != id }

  /** A freshly generated readable identifier, absent from every journal. */
  predicate FreshId(s: Sys, t: Txn) {
    && |t.action| <= J.MAX_FIELD_LENGTH && !J.Blank(t.action)
    && FreeOf(s.mem.journal, TxnId(t)) && FreeOf(Contents(s.disk).journal, TxnId(t))
  }

  predicate Waiting(task: Task) {
    task.ChangingMode? || task.Clearing? || (task.Transition? && task.stage.Saving?)
  }

  function WrittenFlag(task: Task): bool
    requires Waiting(task)
  {
    match task
    case Transition(_, stage) => stage.written
    case ChangingMode(_, written) => written
    case Clearing(_, written) => written
  }

  /** The permission check of the next call of this dispatch. */
  predicate CallPermitted(m: Mem, w: World, t: Txn) {
    match t.kind
    case SwitchOn(ticket) => OnPermitted(m, w, t.device, ticket)
    case SwitchOff(emergency, source, _, _) => OffPermitted(m, w, emergency, source)
  }

  predicate HasFallback(t: Txn) { t.kind.SwitchOff? && t.kind.emergency && t.kind.fallbacks > 0 }

  /** The verbs whose turn it is at this point. */
  predicate VerbIsNext(t: Txn, p: Point, verb: Verb, w: World) {
    match p
    case Start =>
      if t.kind.SwitchOff? then verb == TurnOff
      else verb == if w.climate && t.kind.ticket.restore.temperature.Some? then SetTemperature else TurnOn
    case TemperatureSet => t.kind.SwitchOn? && verb == TurnOn
    case AwaitingReadback(open) => open && HasFallback(t) && verb == FallbackOff
    case FallbackIssued(n) => HasFallback(t) && n < t.kind.fallbacks && verb == FallbackOff
  }

  /** A permission check runs here: before the first call, between two calls, before a fallback. */
  predicate ChecksHere(t: Txn, p: Point) {
    match p
    case Start => true
    case TemperatureSet => true
    case AwaitingReadback(open) => open && HasFallback(t)
    case FallbackIssued(n) => HasFallback(t) && n < t.kind.fallbacks
  }

  function NextPoint(t: Txn, p: Point, verb: Verb): Point {
    match verb
    case TurnOff => AwaitingReadback(true)
    case SetTemperature => TemperatureSet
    case TurnOn => AwaitingReadback(false)
    case FallbackOff => FallbackIssued(if p.FallbackIssued? then p.n + 1 else 1)
  }

  /** The readback wait may end here. */
  predicate ReadsBackHere(t: Txn, p: Point) {
    p.AwaitingReadback? || (p.FallbackIssued? && t.kind.SwitchOff? && p.n == t.kind.fallbacks)
  }

  predicate Enabled(s: Sys, l: Label) {
    match l
    case ExtraSave => true
    case Disturb(_, _) => true
    case Shutdown => true
    case Restart(_, _, _) => true
    case Begin(t) =>
      && s.task == Idle && FreshId(s, t) && t.device in s.configured && t.before == s.mem.own
      && (t.kind.SwitchOn? ==> Lookup(s.mem.own.tickets, t.device) == Some(t.kind.ticket))
      && (t.kind.SwitchOff? && !t.kind.emergency ==> t.device !in s.mem.quarantined)
      && (t.kind.SwitchOff? && FencedAs(t).Some? ==> !t.kind.emergency && t.kind.source == Policy)
      && FenceGateOpen(t, s.mem.own.fences)
    case Note(e, _) => s.task == Idle && J.ValidIdentity(e) && !J.IsUnresolved(e)
    case Reconcile(_, _) => s.task == Idle
    case Retire(_) => s.task == Idle
    case Ingest(_) => s.task == Idle
    case IntentSaveFailed => s.task == Idle
    case LatchFault(d) => s.task == Idle && d in s.configured
    case SetMode(mode) => s.task == Idle && (mode == Auto ==> !s.mem.storageInvalid && !s.mem.reconfigure)
    case Clear(d) => s.task == Idle && d in s.configured && Flagged(s.mem, d)
    case Write => Waiting(s.task)
    case Resume(ok) => Waiting(s.task) && (ok ==> WrittenFlag(s.task))
    case Cancel => Waiting(s.task) || (s.task.Transition? && s.task.stage.Dispatching? && s.task.stage.p != Start)
    case Deny(w) =>
      && s.task.Transition? && s.task.stage.Dispatching? && ChecksHere(s.task.t, s.task.stage.p)
      && !CallPermitted(s.mem, w, s.task.t)
    case Issue(verb, w) =>
      && s.task.Transition? && s.task.stage.Dispatching? && VerbIsNext(s.task.t, s.task.stage.p, verb, w)
      && CallPermitted(s.mem, w, s.task.t)
    case ReadBack(_, _, _) =>
      s.task.Transition? && s.task.stage.Dispatching? && ReadsBackHere(s.task.t, s.task.stage.p)
    case Unconfirmed =>
      && s.task.Transition? && s.task.stage.Dispatching? && ReadsBackHere(s.task.t, s.task.stage.p)
      && (s.task.stage.p.AwaitingReadback? ==> !(s.task.stage.p.fallbackOpen && HasFallback(s.task.t)))
    case Raise => s.task.Transition? && s.task.stage.Dispatching?
  }

  /** Record the terminal phase in the same synchronous step that applied its effects. */
  function Finish(s: Sys, m: Mem, phase: J.Phase): Sys
    requires s.task.Transition?
  {
    s.(mem := Recorded(m, s.task.t, phase), task := Transition(s.task.t, Saving(phase, false, false)))
  }

  function Failing(s: Sys): Sys
    requires s.task.Transition?
  {
    Finish(s, Latched(s.mem, s.task.t.device), J.Failed)
  }

  function AfterSave(s: Sys, ok: bool): Sys
    requires Waiting(s.task)
  {
    match s.task
    case ChangingMode(previous, _) => s.(task := Idle, mem := if ok then s.mem else s.mem.(mode := previous))
    case Clearing(d, _) => s.(task := Idle, mem := if ok then s.mem else Latched(s.mem, d))
    case Transition(t, Saving(phase, _, unwinding)) =>
      if unwinding then s.(task := Idle)
      else if !ok then s.(task := Idle, mem := StorageFailed(s.mem, t))
      else if phase == J.Prepared then
        s.(mem := Recorded(s.mem, t, J.Dispatched), task := Transition(t, Saving(J.Dispatched, false, false)))
      else if phase == J.Dispatched then s.(task := Transition(t, Dispatching(Start)))
      else s.(task := Idle)
  }

  function Cancelled(s: Sys): Sys {
    if s.task.Transition? && !(s.task.stage.Saving? && s.task.stage.unwinding) then
      var t := s.task.t;
      s.(mem := StorageFailed(s.mem, t), task := Transition(t, Saving(J.Failed, false, true)))
    else s.(task := Idle)
  }

  predicate AcceptsReport(m: Mem, stamp: Time) { m.lastAccepted.None? || stamp > m.lastAccepted.value }

  function Rebooted(s: Sys, now: Time, reconfigure: bool, outcome: SaveOutcome): Sys {
    var m := Recover(s.configured, s.disk, now, reconfigure);
    s.(mem := if outcome == SavedOk then m else m.(mode := Observe),
       disk := if outcome == FailedUnwritten then s.disk else Snapshot(s.configured, m),
       task := Idle)
  }

  function Apply(s: Sys, l: Label): Sys
    requires Enabled(s, l)
  {
    match l
    case ExtraSave => s.(disk := Snapshot(s.configured, s.mem))
    case Disturb(telemetry, loss) => s.(mem := s.mem.(telemetry := telemetry, sourceLoss := loss))
    case Shutdown => s.(mem := s.mem.(stopping := true))
    case Restart(now, reconfigure, outcome) => Rebooted(s, now, reconfigure, outcome)
    case Begin(t) =>
      s.(mem := Recorded(s.mem, t, J.Prepared), task := Transition(t, Saving(J.Prepared, false, false)))
    case Note(e, at) => s.(mem := s.mem.(journal := J.Record(s.mem.journal, e, at)))
    case Reconcile(v, at) => s.(mem := s.mem.(own := s.mem.own.(tickets := Kept(s.mem.own.tickets, v, at))))
    case Retire(d) => s.(mem := Retired(s.mem, d))
    case Ingest(stamp) =>
      var accepted := AcceptsReport(s.mem, stamp);
      var g := if accepted then s.mem.loadGeneration + 1 else s.mem.loadGeneration;
      s.(mem := s.mem.(
        loadGeneration := g, lastAccepted := if accepted then Some(stamp) else s.mem.lastAccepted,
        own := s.mem.own.(fences := F.Barriers(
          F.Reconciled(s.mem.own.fences.shed, g, stamp), F.Reconciled(s.mem.own.fences.restore, g, stamp)))))
    case IntentSaveFailed => s.(mem := s.mem.(storageInvalid := true))
    case LatchFault(d) => s.(mem := Latched(s.mem, d))
    case SetMode(mode) => s.(mem := s.mem.(mode := mode), task := ChangingMode(s.mem.mode, false))
    case Clear(d) =>
      s.(mem := Unflagged(s.mem, d), task := Clearing(d, false), cleared := s.cleared + multiset{d})
    case Write =>
      s.(disk := Snapshot(s.configured, s.mem),
         task := match s.task
                 case Transition(t, Saving(phase, _, unwinding)) => Transition(t, Saving(phase, true, unwinding))
                 case ChangingMode(previous, _) => ChangingMode(previous, true)
                 case Clearing(d, _) => Clearing(d, true))
    case Resume(ok) => AfterSave(s, ok)
    case Cancel => Cancelled(s)
    case Deny(_) =>
      if s.task.stage.p == Start || s.task.stage.p == TemperatureSet then Finish(s, s.mem, J.Rejected) else Failing(s)
    case Issue(verb, w) =>
      s.(calls := s.calls + [Call(s.task.t, verb, s.mem, w, Contents(s.disk).journal)],
         task := Transition(s.task.t, Dispatching(NextPoint(s.task.t, s.task.stage.p, verb))))
    case ReadBack(stamp, at, pauseUntil) =>
      var t := s.task.t;
      var own := CommitOwned(t, s.mem.own, at, pauseUntil, stamp, s.mem.loadGeneration);
      Finish(s, s.mem.(own := own), J.Confirmed)
        .(created := if CreatesTicket(t) then s.created + multiset{t.device} else s.created)
    case Unconfirmed => Failing(s)
    case Raise => Failing(s)
  }

  // ---------- Runs ----------

  /** A run is a sequence of labels, each enabled where it is taken. */
  ghost predicate Run(s: Sys, ls: seq<Label>)
    decreases |ls|
  {
    ls == [] || (Enabled(s, ls[0]) && Run(Apply(s, ls[0]), ls[1..]))
  }

  ghost function Exec(s: Sys, ls: seq<Label>): Sys
    requires Run(s, ls)
    decreases |ls|
  {
    if ls == [] then s else Exec(Apply(s, ls[0]), ls[1..])
  }

  ghost predicate Reaches(s: Sys, s': Sys) { exists ls :: Run(s, ls) && Exec(s, ls) == s' }

  lemma {:induction false} RunSnoc(s: Sys, ls: seq<Label>, l: Label)
    requires Run(s, ls) && Enabled(Exec(s, ls), l)
    ensures Run(s, ls + [l]) && Exec(s, ls + [l]) == Apply(Exec(s, ls), l)
    decreases |ls|
  {
    var all := ls + [l];
    if ls == [] {
      var done := Apply(s, l);
      assert all[0] == l && all[1..] == [];
      assert Run(done, []) && Exec(done, []) == done;
    } else {
      RunSnoc(Apply(s, ls[0]), ls[1..], l);
      assert all[0] == ls[0] && all[1..] == ls[1..] + [l];
    }
  }

  lemma {:induction false} RunKeepsConfigured(s: Sys, ls: seq<Label>)
    requires Run(s, ls)
    ensures Exec(s, ls).configured == s.configured
    decreases |ls|
  {
    if ls != [] { RunKeepsConfigured(Apply(s, ls[0]), ls[1..]); }
  }

  /** A process that has just recovered from a store whose journal this program wrote. */
  ghost predicate Initial(s: Sys) {
    && s.task == Idle && s.calls == [] && s.created == multiset{} && s.cleared == multiset{}
    && J.NormalForm(Contents(s.disk).journal)
    && exists now, reconfigure :: s.mem == Recover(s.configured, s.disk, now, reconfigure)
  }
}
