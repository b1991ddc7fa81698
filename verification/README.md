# Power Orchestrator: a verified model

Power Orchestrator is a Home Assistant integration that switches household loads off when the
measured load stays above a limit or the power source is lost, and switches them on again one by
one when there has been room for a minute. Its difficult part is a crash-safe actuation protocol:
every physical action is journaled before it is made, its outcome is committed in one snapshot
together with the restore ticket, the pause and the causal fence, and whatever was cut short
recovers as "faulted and quarantined", never as permission to try again.

This project models that protocol and the engines that feed it, and proves what they keep over
every run.

| file | models |
|---|---|
| `prelude.dfy` | shared vocabulary |
| `ownership.dfy`, `ticket_store.dfy` | ordered restore tickets, restore intents, reconciliation, save and reload |
| `selection.dfy` | which load is restored next |
| `journal.dfy` | the bounded audit journal and its normalization |
| `readback.dfy` | the polling wait that confirms a command |
| `dwell.dfy`, `restore_window.dfy`, `fences.dfy` | dwell timers, the sixty-second window and the causal fences as functions of the call history |
| `policy_engine.dfy` | the stateful engine, tied call by call to those functions |
| `protocol.dfy` | memory, disk, the running task and the call log as one labelled state machine, with recovery |
| `protocol_recovery.dfy` | recovery as the inverse of a save |
| `protocol_journal.dfy` | write-ahead: what the journal shows at every await |
| `protocol_safety.dfy` | restore credit, atomic commit, permission at every call, sticky corruption |
| `protocol_control.dfy` | when each call is permitted, when each step may begin, shutdown, mode changes and clears |
| `protocol_clears.dfy` | what a quarantine clear costs when it succeeds, fails, dies or is cancelled |
| `protocol_runs.dfy` | concrete runs at the edge of the credit bound |
| `protocol_ownership.dfy` | one ticket per load, in order, over whole runs |
| `protocol_fences.dfy`, `causality.dfy` | every run as a history of the fences, and causal separation in it |
| `protocol_forgotten.dfy` | a run in which an unwritten fence is forgotten |
| `protocol_window.dfy` | runs in which every permission check reads the window that was heard |
| `execute.dfy` | `execute`, dispatch and settlement as imperative code that refines the state machine |
| `grid_loss.dfy` | the all-stop lane of a grid-loss incident |
| `devices.dfy` | strict and tolerant device normalization |
| `migration.dfy` | threshold derivation and entry migration |

`dafny verify dfyconfig.toml` verifies everything.

## How the protocol is modelled

`Protocol.Sys` holds memory, the durable snapshot, the running task with its exact await, and the
log of service calls with everything each permission check read. Labels are the steps: the
transition's own steps, and at every await the steps of everyone else: a report arrives, shutdown
is requested, another coroutine saves, the task is cancelled, a save fails with or without having
written, or the process dies and a new one recovers from disk. `Reaches` ranges over all runs.
`Execution.TransitionRunner` is the code of `execute` and its two dispatch callbacks with the same
phase loop, early returns, fallback loop and cancellation handler, owning its tickets through
`Ownership.RestoreTransactions`; each method proves that what it did is a run, so the theorems about
runs hold of it. Ghost fields record every answer its permission checks, services, readbacks and
saves gave, and its result is proved to be the one those answers call for.

Choices made: one durable save is atomic, and it stores what memory holds at one instant. The store's
dictionary is live: a journal record or a pause enters it at once, tickets, flags and fences at the
next snapshot. A queued save that serialized between the two would store a record beside older
flags; the model takes every save to serialize at the instant of its snapshot. Ordered Python dictionaries are sequences with distinct
keys. A ticket compared with `is` is compared by value. Wall and monotonic clocks, telemetry, the
intent binding and the battery reading enter as values read at the instant of a check. All records
of one transition carry its start time. Action identifiers are fresh, as `_new_action_id` makes them.
Power and time are reals; readings that are not finite numbers are a separate case.

## What the code does not promise

Each of these is a lemma: a counterexample, and the condition under which the promise holds.

- A device identity longer than 256 characters is truncated in the journal, so an action cut short
  on that load is not recognised at recovery (`UnfinishedIsFlaggedIffNotTruncated`). The restore
  credit bound and the promise to recover a called load latched hold for exactly the loads whose
  identity has at most 256 characters (`CreditBoundIffNotTruncated`, `RecoveredLatchedIffNotTruncated`):
  for every longer one a run makes two starts from one ticket.
- An action identity whose first 256 characters are blank is accepted by `record_action` and then
  lost by its next normalization (`NewestIsKeptIff`, `AcceptedIdentityCanBeLost`). This is an input
  of the store alone: every caller's identity comes from `new_action_id`, which is short and readable.
- Successful clears alone do not pay for the starts they permit. They do in every run in which no
  clear failed or died after something was written and none was cancelled
  (`SuccessfulClearsAreChargedAlone`); what such a clear leaves is stated exactly
  (`UndoneClearLeavesCreditIff`, `DeadClearLeavesCreditIff`), and a run with one ticket, no successful clear and two starts
  exists for every load (`FailedClearStartsTwice`).
- The causal fence survives a restart only if some snapshot was written after the action
  (`ConfirmedActionsAreSeparated`; `UnsavedActionIsForgotten` on fence histories,
  `UnwrittenShedIsForgotten` as a run of the protocol), and a shed after a restore is not
  fenced (`RestoreThenShedIsUnfenced`).
- Two reloads are one reload at the later time, except when a stored ticket was from the future at
  the first and would have been usable at the second (`ReloadTwice`).
- The rollback of a failed mode change is sound only under the evaluation lock (`RollbackNeedsTheLock`).
- A grid-loss stop can be called twice when a cancellation strikes a retry after its call
  (`CancelledRetryStopsTwice`). If the source returns while the telemetry fault is still latched,
  the next loss counts as the same incident and this lane stops nothing (`ReturnForgetsDeferrals`).
- Migration is not idempotent when an unusable threshold list in options hid a usable one in data
  (`MigratingAgainIffDerivable`, `HiddenListResurfaces`).
- The architecture document has grid loss stop loads in reverse shed-priority order; the code, and
  this model, go through them in shed order (custom_components/power_orchestrator/coordinator.py:957).

## Model

| member | source | states |
|---|---|---|
| Ownership.RestoreTransactions.Hydrate | custom_components/power_orchestrator/restore_transactions.py:42-45 | replaces the tickets and rebuilds the queue in the same order |
| Ownership.RestoreTransactions.Create | custom_components/power_orchestrator/restore_transactions.py:47-63 | the load's older ticket goes, the new one is last, and queue and tickets stay the same keys in the same order |
| Ownership.RestoreTransactions.Remove | custom_components/power_orchestrator/restore_transactions.py:65-68 | exactly this load leaves, the others keep their order |
| Ownership.RestoreTransactions.Reconcile | custom_components/power_orchestrator/restore_transactions.py:70-77 | keeps in order exactly the unexpired tickets with a live intent and reports whether anything was retired |
| Ownership.RestoreIntentRegistry.Prune | custom_components/power_orchestrator/requests.py:201-204 | keeps exactly the intents that are not due; the answer says whether any went |
| Ownership.RestoreIntentRegistry.HasActiveSource | custom_components/power_orchestrator/requests.py:212-219 | true iff some source of the load is active and unexpired |
| Ownership.KeptAreUnexpiredAndLive | custom_components/power_orchestrator/restore_transactions.py:70-77 | reconciliation keeps, in order, exactly the tickets before their deadline with an active intent before its own, and exactly such intents |
| Ownership.ReconcileComposesInTime | custom_components/power_orchestrator/restore_transactions.py:70-77 | for t1 <= t2, reconciling at t1 then t2 leaves the intents, tickets and order of reconciling at t2 alone |
| Ownership.WithoutOrdered | custom_components/power_orchestrator/restore_transactions.py:65-68 | removing a key from dictionary and queue drops that ticket alone, keeps the order, and keeps both the same keys |
| TicketStore.RestoreRestoreTickets | custom_components/power_orchestrator/storage.py:177-194 | one row that is rejected or from the future invalidates the list; otherwise rows load as dictionary assignments |
| TicketStore.RecoverTickets | custom_components/power_orchestrator/runtime_recovery.py:164-173 | whatever rows are stored, ownership after recovery is the loaded dictionary in order, filtered to unexpired tickets |
| TicketStore.LoadedKeepsLatestRows | custom_components/power_orchestrator/storage.py:184-190 | any rows load to one ticket per load: exactly the latest row of each configured one |
| TicketStore.PutKeepsPlaces | custom_components/power_orchestrator/storage.py:189-190 | a later row for a load takes the earlier one's place, a new load goes last |
| TicketStore.ReloadKeepsUnexpired | custom_components/power_orchestrator/runtime_recovery.py:164-173 | of the loaded tickets recovery keeps, in order, exactly the configured ones before their deadline |
| TicketStore.SaveReloadRoundTrip | custom_components/power_orchestrator/storage.py:172-194 | the reader returns the saved tickets in the saved order iff none is from the future and all are configured and unexpired |
| TicketStore.ReloadTwice | custom_components/power_orchestrator/runtime_recovery.py:164-173 | two reloads equal one at the later time iff no row was from the future at the first or none is usable at the second |
| Selection.LogicalState | custom_components/power_orchestrator/states.py:83-95 | a load is off (on) iff it has members and every member is off (on) |
| Selection.PassesIff | custom_components/power_orchestrator/selection.py:122-135 | the gates of a restore candidate, condition by condition |
| Selection.RestoreCandidates | custom_components/power_orchestrator/selection.py:96-135 | exactly the queued loads that pass every gate, in reverse shed order |
| Selection.ChooseRestore | custom_components/power_orchestrator/coordinator.py:1326-1362 | restores the latest shed load all of whose later peers fail a gate, and nothing iff none passes |
| Journal.AuditStore.RecordAction | custom_components/power_orchestrator/storage.py:548-566 | the stored history becomes the recorded one |
| Journal.RecordIsEffect | custom_components/power_orchestrator/storage.py:548-566 | on a readable journal, recording with its three normalizations only updates in place, appends and evicts the oldest, or loses an unreadable identity |
| Journal.NewActionGoesLast | custom_components/power_orchestrator/storage.py:565-566 | a new readable action goes last, and the oldest leaves only when there are a hundred |
| Journal.KnownActionIsUpdatedInPlace | custom_components/power_orchestrator/storage.py:553-564 | a known action is merged where it stands |
| Journal.MergedFields | custom_components/power_orchestrator/storage.py:555-561 | every field takes its latest value except the decision reason and the input snapshot, which stay |
| Journal.FieldIsKeptAs | custom_components/power_orchestrator/storage.py:612-656 | which fields of a record are kept and how they are cut |
| Journal.EvidenceIsKeptAs | custom_components/power_orchestrator/journal.py:42-71 | which evidence fields and tiers are kept and how they are cut |
| Journal.NormalizedIsNormalIffStorable | custom_components/power_orchestrator/storage.py:612-656 | normalization is idempotent iff identity and action are not blank after truncation |
| Journal.EvidenceIdempotent | custom_components/power_orchestrator/journal.py:42-71 | normalizing an evidence snapshot twice is normalizing it once |
| Journal.EveryRunKeepsInvariant | custom_components/power_orchestrator/storage.py:548-566 | after any sequence of recordings ids are distinct, at most 100 records remain, and each is readable |
| Journal.NewestIsKeptIff | custom_components/power_orchestrator/storage.py:548-566 | the action just recorded is in the journal iff its identity survives truncation |
| Journal.AcceptedIdentityCanBeLost | custom_components/power_orchestrator/storage.py:612-647 | an accepted identity that is blank in its first 256 characters is lost |
| Journal.FirstEvidenceWins | custom_components/power_orchestrator/storage.py:553-563 | through any sequence of recordings a retained action keeps its first decision reason and input snapshot |
| Journal.NewestUnresolvedIsReported | custom_components/power_orchestrator/storage.py:568-575 | the newest unfinished action is among the sixteen reported |
| Journal.UnresolvedAreTheLatestUnfinished | custom_components/power_orchestrator/storage.py:568-575 | a record is unfinished iff its phase or result says prepared or dispatched, and the last sixteen such are reported in order |
| Readback.CausalReadback.constructor | custom_components/power_orchestrator/readback.py:31-41 | captures every member's report stamp before the command |
| Readback.CausalReadback.IdleClimateReport | custom_components/power_orchestrator/readback.py:56-87 | answers iff the thermostat newly reports enabled and idle and every relay is freshly off |
| Readback.CausalReadback.ConfirmedReport | custom_components/power_orchestrator/readback.py:89-108 | answers, with the maximum member stamp, iff there are members and each newly reads what was commanded, or the commanded thermostat newly reads on and idle and its relays freshly off |
| Readback.CausalReadback.Wait | custom_components/power_orchestrator/readback.py:110-141 | ends after at most ceil(timeout/poll)+1 polls, returns the first confirming poll's stamp, times out only past the deadline with no poll confirmed; a confirmed stop read every member off |
| Readback.LaterThanEveryMember | custom_components/power_orchestrator/readback.py:43-108 | a report later than a confirmation stamp is later than every member's report |
| Dwell.TimersRefineHistory | custom_components/power_orchestrator/policy.py:323-387 | a timer runs iff the latest readings are usable and above its limit, and shows the first reading of that run |
| Dwell.TimersInPlainTerms | custom_components/power_orchestrator/policy.py:323-387 | the same in terms of the readings alone: a number, not negative, above the limit |
| Dwell.TimersFormPrefix | custom_components/power_orchestrator/policy.py:378-387 | running timers are a prefix of the tiers with non-decreasing starts |
| Dwell.TriggersIffRunSpansDuration | custom_components/power_orchestrator/policy.py:355-376 | a load triggers iff some tier's unbroken run spans its duration |
| Dwell.OverloadEnforced | custom_components/power_orchestrator/coordinator.py:842-856 | the read-only predictor equals the engine's trigger in every timer state, load and clock, both spelled out |
| PolicyEngines.PolicyEngine.UpdateExceededTiers | custom_components/power_orchestrator/policy.py:378-387 | the exceeded tiers are the prefix with limits below the load, timers updated |
| PolicyEngines.PolicyEngine.ObserveReport | custom_components/power_orchestrator/policy.py:323-333 | one report is one step of the timer and window histories |
| PolicyEngines.PolicyEngine.ObserveLoad | custom_components/power_orchestrator/policy.py:355-376 | triggers iff a tier matured and names the highest matured one; the active tier is the highest exceeded one and the tier start its timer; steps timers and window |
| PolicyEngines.PolicyEngine.ObserveInvalidLoad | custom_components/power_orchestrator/policy.py:412-428 | clears timers and window and never triggers |
| PolicyEngines.PolicyEngine.LoadDecision | custom_components/power_orchestrator/policy.py:389-410 | sheds iff a tier triggered, with the elapsed dwell, and closes the window then |
| PolicyEngines.PolicyEngine.ObserveRestoreSafeCapacity | custom_components/power_orchestrator/policy.py:473-510 | triggers iff the offer is safe and the window for this candidate and limit has matured |
| PolicyEngines.PolicyEngine.AppendShed | custom_components/power_orchestrator/policy.py:430-451 | installs the shed barrier with its confirming report, or with none, and leaves the restore barrier |
| PolicyEngines.PolicyEngine.AppendRestore | custom_components/power_orchestrator/policy.py:512-531 | installs the restore barrier with its confirming report, or with none, and leaves the shed barrier |
| PolicyEngines.PolicyEngine.ReconcileShed | custom_components/power_orchestrator/policy.py:457-471 | released iff no barrier was up, or generation and report are both later; a released barrier is gone, any other unchanged |
| PolicyEngines.PolicyEngine.ReconcileRestore | custom_components/power_orchestrator/policy.py:538-552 | released iff no barrier was up, or generation and report are both later; a released barrier is gone, any other unchanged |
| RestoreWindow.WindowRefinesHistory | custom_components/power_orchestrator/policy.py:318-353 | the stored start is the clock of the earliest uninterrupted safe offer, across mode changes and their rollback |
| RestoreWindow.MaturedIffSixtySafeSeconds | custom_components/power_orchestrator/policy.py:343-353 | the window is mature iff some safe offer at least 60 s ago was never interrupted for the same candidate and limit |
| RestoreWindow.RollbackNeedsTheLock | custom_components/power_orchestrator/coordinator.py:1915-1936 | without the evaluation lock the rollback would mature a window that was interrupted |
| Fences.CausalSeparation | custom_components/power_orchestrator/policy.py:430-471 | in a history whose confirmations found their gates open, between two fenced actions an aggregate report stamped after the first was accepted, across saves and reloads |
| Fences.FenceHolds | custom_components/power_orchestrator/storage.py:503-546 | until then the fence stands in memory, and on disk from the first save |
| Fences.BarrierIsUpIffNoLaterReport | custom_components/power_orchestrator/policy.py:457-471 | while no process ends and no newer action of its kind is confirmed, a barrier is up iff no report stamped after its action was accepted since |
| Fences.UnsavedActionIsForgotten | custom_components/power_orchestrator/storage.py:512-546 | for every pair of actions: after any run with no fence on disk, an unsaved first action may be followed by the second on an older report |
| Fences.RestoreThenShedIsUnfenced | custom_components/power_orchestrator/policy.py:453-455 | a shed may follow a confirmed restore at once |
| ProtocolFences.RunIsPermitted | custom_components/power_orchestrator/coordinator.py:629-645 | every run of the protocol, read as a fence history, confirms fenced actions only where their gates were open |
| ProtocolFences.ConfirmedActionsAreSeparated | custom_components/power_orchestrator/coordinator.py:465-485 | in every run, of two fenced confirmed transitions the second is confirmed only after an aggregate report accepted in between and stamped later than the readback of the first, if a snapshot was written before any restart |
| ProtocolFences.BarrierIsUpIffNoLaterReport | custom_components/power_orchestrator/coordinator.py:465-485 | in every run the barrier of a confirmed policy shed or restore is up exactly until the first later report accepted since |
| ProtocolFences.ShedMayBeginIff | custom_components/power_orchestrator/coordinator.py:638-640 | a policy shed may begin iff no policy shed waits for its report and the load is not quarantined |
| ProtocolForgotten.UnwrittenShedIsForgotten | custom_components/power_orchestrator/storage.py:512-527 | a run of the protocol with no snapshot before the restart, two confirmed policy sheds and no later report between them |
| ProtocolWindow.StartsFollowSixtySafeSeconds | custom_components/power_orchestrator/coordinator.py:1485-1509 | in every run each start and temperature call follows at least sixty seconds in which this process heard, for that candidate and limit, only reports and offers with room and no reset, mode changes and their rollback included |
| ProtocolWindow.EveryStartWasEarned | custom_components/power_orchestrator/coordinator.py:1485-1509 | in every run, at least sixty seconds before each start room was found for that candidate and limit, and since then every report had room, nothing was confirmed, no restore ended, no save failed, nothing was cancelled, automatic mode was not left, and the process lived |
| ProtocolWindow.RunKeepsWindow | custom_components/power_orchestrator/coordinator.py:1915-1936 | in every run no offer and no second mode change falls into a mode change, as the evaluation lock promises, and offers come in clock order |
| ProtocolWindow.TimedRunIsRun | custom_components/power_orchestrator/coordinator.py:1344-1380 | a run with its window heard is a run of the protocol |
| Causality.LaterThanEveryConfirmingMember | custom_components/power_orchestrator/coordinator.py:465-485 | in every run the separating report is later than every member report that confirmed the first transition, and every member of a confirmed stop read off |
| ProtocolJournal.RecordAgain | custom_components/power_orchestrator/restore_transactions.py:97-127 | recording the next phase keeps the transition the newest record, showing that phase |
| ProtocolJournal.StepKeepsJournal | custom_components/power_orchestrator/restore_transactions.py:79-148 | every step keeps the running transition newest in memory, and disk shows a phase that may precede it |
| ProtocolJournal.CallsAreWrittenAhead | custom_components/power_orchestrator/restore_transactions.py:97-102 | no service is called in any run unless disk already shows this action dispatched |
| ProtocolJournal.UnfinishedIsFlaggedIffNotTruncated | custom_components/power_orchestrator/runtime_recovery.py:121-135 | recovery flags the load of a newest unfinished action iff its identity was not truncated |
| ProtocolJournal.GuardHolds | custom_components/power_orchestrator/restore_transactions.py:79-148 | one step keeps a called load latched in every recovery, save for a durable outcome or a granted clear |
| ProtocolJournal.UnsettledCallIsRecoveredLatched | custom_components/power_orchestrator/runtime_recovery.py:121-162 | from its first call on, through any failures and restarts, every recovery leaves the load faulted and quarantined until its outcome is durable or a clear is granted |
| ProtocolRuns.RecoveredLatchedIffNotTruncated | custom_components/power_orchestrator/runtime_recovery.py:121-135 | recovery from the instant of any call has the load faulted and quarantined, in all runs, iff its identity has at most 256 characters |
| ProtocolSafety.IssueCredit | custom_components/power_orchestrator/coordinator.py:1406-1509 | an ON call needs the load's unflagged ticket and leaves neither memory nor any recovery able to authorize another |
| ProtocolSafety.StepConservesCredit | custom_components/power_orchestrator/restore_transactions.py:47-148 | no step creates credit but a new ticket or a granted clear |
| ProtocolSafety.RestoreCreditIsConserved | custom_components/power_orchestrator/coordinator.py:1406-1509 | over every run, ON calls to a load never exceed tickets created, clears granted, and one if it began with an unflagged ticket |
| ProtocolRuns.CreditBoundIffNotTruncated | custom_components/power_orchestrator/storage.py:612-656 | that bound holds over all stores and runs for exactly the loads whose identity has at most 256 characters |
| ProtocolClears.OnlyUnsureClearsAreCharged | custom_components/power_orchestrator/coordinator.py:1838-1885 | over every run, ON calls never exceed tickets created, successful clears, clears undone after a write or cancelled, the one under way, and the first ticket; a clear undone with nothing written is refunded |
| ProtocolClears.SuccessfulClearsAreChargedAlone | custom_components/power_orchestrator/coordinator.py:1838-1885 | where no clear was undone after a write or cancelled, ON calls never exceed tickets created, successful clears and the first ticket |
| ProtocolClears.UndoneClearLeavesCreditIff | custom_components/power_orchestrator/coordinator.py:1877-1885 | in every run: a clear failing with nothing written leaves the credit disk had, one failing after a write leaves one iff the ticket is held and unambiguous, a cancelled one iff the ticket is held or on disk |
| ProtocolClears.DeadClearLeavesCreditIff | custom_components/power_orchestrator/runtime_recovery.py:40-87 | a process that dies in a clear after a write leaves a credit iff the ticket was held and unambiguous and is reloaded, or recovery's own save wrote nothing |
| ProtocolClears.RestartLeavesCreditIff | custom_components/power_orchestrator/runtime_recovery.py:40-87 | from any state, the credit a restart leaves as an iff over what is on disk |
| ProtocolRuns.FailedClearStartsTwice | custom_components/power_orchestrator/coordinator.py:1877-1885 | for every load a run with one ticket, no ticket created, no successful clear and two ON calls |
| ProtocolSafety.SnapshotIsWhole | custom_components/power_orchestrator/coordinator.py:2048-2077 | a save of any moment stores the state its own journal record announces |
| ProtocolSafety.TerminalCommitIsAtomic | custom_components/power_orchestrator/restore_transactions.py:116-124 | disk that reads prepared, dispatched or rejected holds the whole earlier ownership, disk that reads confirmed holds ticket, pause and fence of the outcome, disk that reads failed latches the load |
| ProtocolSafety.EveryCallWasWarranted | custom_components/power_orchestrator/coordinator.py:1188-1509 | every call of every run was made where the whole dispatch predicate of its transition held and disk already showed it dispatched |
| ProtocolSafety.EveryCallWasPermitted | custom_components/power_orchestrator/coordinator.py:212-234 | what that says of ordinary and emergency stops, fallbacks, temperature calls and starts, condition by condition |
| ProtocolControl.EmergencyStopIsPermittedIff | custom_components/power_orchestrator/coordinator.py:1188-1206 | exactly when an emergency stop is permitted; telemetry faults do not prevent it |
| ProtocolControl.OrdinaryStopIsPermittedIff | custom_components/power_orchestrator/coordinator.py:212-223 | exactly when an ordinary stop is permitted |
| ProtocolControl.StartIsPermittedIff | custom_components/power_orchestrator/coordinator.py:1485-1509 | exactly when a start is permitted |
| ProtocolControl.FirstCallIsEnabledIff | custom_components/power_orchestrator/coordinator.py:1289-1293 | a dispatch may make its first call iff its transition is permitted, and which call it is |
| ProtocolControl.FirstCallIsDeniedIff | custom_components/power_orchestrator/coordinator.py:1289-1291 | a dispatch may be denied its first call iff its transition is not permitted |
| ProtocolControl.StartMayBeginIff | custom_components/power_orchestrator/coordinator.py:1406-1428 | a start may begin iff its ticket is the load's own and no fence is pending |
| ProtocolControl.StopMayBeginIff | custom_components/power_orchestrator/coordinator.py:1258-1260 | an unfenced stop may begin unless it is ordinary and the load quarantined |
| ProtocolControl.ShutdownIsFinal | custom_components/power_orchestrator/coordinator.py:1793-1798 | once shutdown is requested this process calls nothing more, whatever is under way |
| ProtocolControl.FailedIntentSaveIsFinal | custom_components/power_orchestrator/coordinator.py:1748-1753 | an intent that could not be saved closes the gate for the rest of the process |
| ProtocolControl.OutsideAutoNothingIsCalled | custom_components/power_orchestrator/coordinator.py:212-234 | outside automatic mode nothing is called until it is set or recovered |
| ProtocolControl.ModeMayBeSetIff | custom_components/power_orchestrator/coordinator.py:283-289 | automatic mode may be set iff storage is readable and no reconfiguration is pending, any other always |
| ProtocolControl.ModeChangeIsAllOrNothing | custom_components/power_orchestrator/coordinator.py:1915-1936 | a mode change that returns is in memory and on disk; one whose save failed leaves the old mode in memory |
| ProtocolControl.ClearIsDurableOrUndone | custom_components/power_orchestrator/coordinator.py:1838-1885 | a clear that returns lifted the flags in memory and on disk; one whose save failed left both up in memory |
| ProtocolControl.ClearMayBeGrantedIff | custom_components/power_orchestrator/coordinator.py:1852-1853 | a clear may be granted iff the load is flagged either way |
| ProtocolControl.CancelledRestore | custom_components/power_orchestrator/coordinator.py:1778-1791 | drops that load's ticket, in order, and nothing else |
| ProtocolControl.ReconciledTickets | custom_components/power_orchestrator/coordinator.py:1773-1776 | drops the tickets past their deadline or without a live intent, and nothing else |
| ProtocolControl.LatchedFault | custom_components/power_orchestrator/fault_registry.py:24-29 | faults and quarantines the load and nothing else |
| ProtocolControl.NotedRecord | custom_components/power_orchestrator/coordinator.py:1539-1563 | a note reaches the journal as its newest record and changes nothing else |
| ProtocolControl.ConfirmedStop | custom_components/power_orchestrator/coordinator.py:2018-2035 | a confirmed stop leaves its load's only ticket last in the queue and good for a day, and the shed barrier iff it was a policy shed |
| ProtocolControl.ConfirmedStart | custom_components/power_orchestrator/coordinator.py:1465-1480 | a confirmed start spends its load's ticket and puts up the restore barrier |
| ProtocolControl.ConfirmedPauses | custom_components/power_orchestrator/coordinator.py:1511-1525 | a confirmed stop sets or clears its load's pause, and no other pause changes |
| ProtocolControl.CancelledChangeStays | custom_components/power_orchestrator/coordinator.py:1929-1935 | a cancelled mode change or clear is not undone |
| ProtocolOwnership.OwnershipStaysOrdered | custom_components/power_orchestrator/restore_transactions.py:42-148 | whatever was stored, every reachable memory and every snapshot written since holds at most one ticket per load, the queue being their keys in order |
| ProtocolSafety.CorruptionIsSticky | custom_components/power_orchestrator/storage.py:52-69 | once a reader set the store flag and one save succeeded, no later process is in Auto, enters Auto or calls a service |
| ProtocolRecovery.SavedStateIsRecovered | custom_components/power_orchestrator/runtime_recovery.py:40-173 | what a healthy process with one ticket per load saved is recovered: mode, journal, fences; tickets iff configured and unexpired; flags gain exactly the loads of unfinished actions |
| ProtocolRecovery.RecoveredMode | custom_components/power_orchestrator/runtime_recovery.py:73-80 | the recovered mode from every disk: automatic iff stored, healthy and configured; observing on a fresh store or a required reconfiguration; off from an unhealthy store |
| ProtocolRecovery.RebootedMode | custom_components/power_orchestrator/runtime_recovery.py:81-87 | a process is in automatic mode iff its recovery selected it and saved; a failed save leaves it observing |
| ProtocolRecovery.RecoveredFlags | custom_components/power_orchestrator/storage.py:324-339 | every recovered flag, pause and telemetry latch as an iff over the disk |
| ProtocolRecovery.RecoveredBarriers | custom_components/power_orchestrator/storage.py:503-546 | a pending barrier is pending again, from generation zero and after its own stamp or the clock |
| ProtocolRecovery.RecoveringAgainChangesNothing | custom_components/power_orchestrator/runtime_recovery.py:40-87 | recovering from the snapshot a recovery saved gives the same memory, from any disk, healthy or corrupted |
| Execution.TransitionRunner.Execute | custom_components/power_orchestrator/restore_transactions.py:79-137 | is a run of the state machine and keeps queue and tickets in step; its result is the one its saves, permission checks, services and readbacks call for, and a fence it installs waits past the report that confirmed it; each call was permitted at its instant and written ahead; confirmed, rejected and failed are returned only when disk already holds that whole outcome; storage failure and cancellation leave no ticket and a latched load |
| Execution.TransitionRunner.Publish | custom_components/power_orchestrator/restore_transactions.py:97-102 | dispatch begins only after both phases were saved; otherwise no call was made |
| Execution.TransitionRunner.DispatchOff | custom_components/power_orchestrator/coordinator.py:1289-1310 | one stop, then, only after a readback that confirmed nothing, each fallback member at most once; confirmed iff the last readback brought a report, rejected iff the first check was denied |
| Execution.TransitionRunner.IssueFallbacks | custom_components/power_orchestrator/actuator.py:47-56 | permission is checked before every member, and a denial ends the fallback as failed |
| Execution.TransitionRunner.DispatchOn | custom_components/power_orchestrator/actuator.py:59-98 | an optional temperature and one start, permission checked before each; confirmed iff the readback brought a report, rejected iff a check was denied, failed iff something raised or the readback confirmed nothing |
| Execution.TransitionRunner.Complete | custom_components/power_orchestrator/coordinator.py:2018-2035 | pause, ticket and fence of a confirmed transition, applied one after the other, the ticket through the ownership object |
| Execution.TransitionRunner.StorageFailure | custom_components/power_orchestrator/restore_transactions.py:139-148 | memory becomes exactly: ticket retired, load latched, failure recorded |
| Execution.TransitionRunner.Unwind | custom_components/power_orchestrator/restore_transactions.py:126-137 | a cancellation retires the ticket and latches the load whatever its save does |
| Execution.TransitionRunner.CreditIsConserved | custom_components/power_orchestrator/restore_transactions.py:79-148 | the calls the code makes obey the credit bound |
| Execution.TransitionRunner.CallsAreWarranted | custom_components/power_orchestrator/restore_transactions.py:92-148 | every call the code makes was permitted at its instant and written ahead |
| Execution.SettledCallsFit | custom_components/power_orchestrator/actuator.py:59-98 | a rejected transition made no stop and no start, at most a temperature call |
| GridLoss.SeenIsAccurate | custom_components/power_orchestrator/coordinator.py:970-988 | the lane's reading of a stop's result tells exactly whether a service was called |
| GridLoss.GridLossLane.HandleGridLoss | custom_components/power_orchestrator/coordinator.py:922-994 | the loop computes one cycle of the lane, cancellations included |
| GridLoss.GridLossLane.SourceReturned | custom_components/power_orchestrator/coordinator.py:524-528 | nothing stays deferred; the incident ends unless the telemetry fault is latched |
| GridLoss.GridLossLane.ForgetIncident | custom_components/power_orchestrator/coordinator.py:1887-1913 | clearing the telemetry fault ends the incident |
| GridLoss.OneStopPerIncident | custom_components/power_orchestrator/coordinator.py:922-994 | within one incident a load's stops are the cancellations that struck its retries after their call, plus at most one; a deferred load was rejected and has no other call |
| GridLoss.CancelledRetryStopsTwice | custom_components/power_orchestrator/coordinator.py:957-988 | a retry cancelled after its call stays deferred and is called again |
| GridLoss.PassDefersExactlyTheRejected | custom_components/power_orchestrator/coordinator.py:957-988 | an uncancelled pass defers exactly the loads it tried and had rejected |
| GridLoss.PassCallsExactlyTheTried | custom_components/power_orchestrator/coordinator.py:957-988 | an uncancelled pass calls exactly the loads it tried whose attempt reached a service |
| GridLoss.CancellationEndsThePass | custom_components/power_orchestrator/coordinator.py:957-988 | loads after the one a cancellation struck are neither called nor deferred anew |
| GridLoss.OutsideAutoALossIsOnlyNoted | custom_components/power_orchestrator/coordinator.py:942-956 | outside automatic mode the incident counts as handled and nothing is deferred or called |
| GridLoss.NothingToRetry | custom_components/power_orchestrator/coordinator.py:934-939 | a known incident with nothing deferred, or a cancelled battery sweep, changes nothing |
| GridLoss.ReturnForgetsDeferrals | custom_components/power_orchestrator/coordinator.py:524-528 | no deferral survives the source's return; with a latched fault the lane stays silent through the next loss |
| Devices.Entities | custom_components/power_orchestrator/device_configuration.py:54-71 | the loop computes the specified entity list or error |
| Devices.EntityListFacts | custom_components/power_orchestrator/device_configuration.py:54-71 | a list yields each controllable entity outside the excluded set once, and strictly iff nothing would be dropped |
| Devices.RecordRoles | custom_components/power_orchestrator/device_configuration.py:74-91 | identity, name, sensor, battery minimum and command of every record, the command preferring a climate actuator |
| Devices.RecordLists | custom_components/power_orchestrator/device_configuration.py:74-91 | actuators, readbacks and emergency members with their defaults, power and priorities |
| Devices.ExpectedPowerFacts | custom_components/power_orchestrator/device_configuration.py:108-119 | power is rounded up to whole watts within 1 to 50000, else refused or one watt |
| Devices.PriorityFacts | custom_components/power_orchestrator/device_configuration.py:94-105 | priorities as both adapters read them |
| Devices.RecordIsMadeIff | custom_components/power_orchestrator/device_configuration.py:122-155 | exactly which records the strict adapter accepts and the tolerant one keeps |
| Devices.NormalizeDevices | custom_components/power_orchestrator/device_configuration.py:158-187 | the loop computes the specified records or error |
| Devices.AdmittedIff | custom_components/power_orchestrator/device_configuration.py:173-186 | exactly which records are kept, refused or skipped after those before them |
| Devices.RefusesOrKeeps | custom_components/power_orchestrator/device_configuration.py:158-187 | the tolerant adapter refuses nothing, the strict one drops nothing of what it accepts |
| Devices.NormalizedLoadsAreDisjoint | custom_components/power_orchestrator/device_configuration.py:158-187 | no two normalized loads share an identity or any entity they control, nor strictly a priority |
| Devices.NormalizedLoadIsComplete | custom_components/power_orchestrator/device_configuration.py:112-155 | every record is complete and within its electrical and topology limits |
| Devices.NormalizingAgainChangesNothing | custom_components/power_orchestrator/device_configuration.py:158-187 | normalized records renormalize to themselves |
| Devices.TolerantAgreesWithStrict | custom_components/power_orchestrator/device_configuration.py:112-187 | on strictly accepted lists the tolerant adapter returns the same records iff each priority is at most 100000 or its own fallback |
| Migration.ParseThresholdList | custom_components/power_orchestrator/policy.py:169-192 | the loop computes the specified tiers or refusal |
| Migration.LegacyNamedThresholds | custom_components/power_orchestrator/policy.py:195-233 | the loop computes the named tiers present, or none when one is invalid |
| Migration.DeriveThresholds | custom_components/power_orchestrator/policy.py:141-166 | a usable list, else the named tiers, else the maximum load |
| Migration.DerivedFrom | custom_components/power_orchestrator/policy.py:141-166 | a readable list of 1 to 64 tiers goes before the named tiers, and those before the maximum load |
| Migration.ParsedItem | custom_components/power_orchestrator/policy.py:175-183 | one list entry: preferred keys, truth values as numbers, rising limits, bounds |
| Migration.ParsedList | custom_components/power_orchestrator/policy.py:169-192 | a list is read entry by entry, or not at all |
| Migration.NamedTier | custom_components/power_orchestrator/policy.py:214-230 | one named tier: real numbers only, bounds, a missing duration is 0 |
| Migration.NamedTiersInOrder | custom_components/power_orchestrator/policy.py:195-233 | the present tiers gentlest first, each above the one before, or none |
| Migration.DerivedIsAPolicy | custom_components/power_orchestrator/policy.py:112-119 | whatever is derived has 1 to 64 tiers, each limit positive and bounded, each duration bounded, and a later tier has a higher limit |
| Migration.Entry.Migrate | custom_components/power_orchestrator/__init__.py:493-518 | rewrites both payloads to the specified migration |
| Migration.OnlyAllowedKeysRemain | custom_components/power_orchestrator/__init__.py:553-568 | only allowed keys remain and the reconfiguration flag says whether a policy was found |
| Migration.SettingsAreKept | custom_components/power_orchestrator/__init__.py:553-568 | every kept setting reads the same through options over data |
| Migration.CleanRecordsFacts | custom_components/power_orchestrator/__init__.py:588-597 | each device record keeps exactly its known keys |
| Migration.DeviceListsAreCleaned | custom_components/power_orchestrator/__init__.py:588-597 | both payloads keep their device lists, each record reduced to its known part |
| Migration.MigrationKeepsPolicy | custom_components/power_orchestrator/__init__.py:493-550 | a derivable policy keeps its limits and durations in order |
| Migration.MigratingAgainIffDerivable | custom_components/power_orchestrator/__init__.py:493-550 | migrating again changes nothing iff a policy was derivable or data alone holds no usable list |
| Migration.ThirdMigrationChangesNothing | custom_components/power_orchestrator/__init__.py:493-550 | two migrations always settle |
| Migration.HiddenListResurfaces | custom_components/power_orchestrator/__init__.py:535-550 | a usable list hidden by options changes the entry at the second migration |

## Left out

- Home Assistant itself: coordinator scheduling, the event bus, service registration, entities, config and options flows, notifications, diagnostics, repair issues.
- Store internals: a save writes one whole snapshot or nothing; the reports of success and failure may differ from what was written.
- Text and JSON syntax: entity ids, intent bindings, unit conversion and float parsing; identities are texts, the binding's answer is part of the world a check reads, and parsed numbers are values or invalid.
- Legacy compatibility: unified-mode mapping, legacy request and pending-restore readers, the permissive model adapter and the wizard adapter.
- Shedding choice: `shed_candidates`, its rejection counts and the manual-ON re-shed lane; the protocol accepts any stop that passes its gates.
- Battery policy: only its place in the dispatch gate, its ticketless stop, and its exclusion from the grid-loss lane; the sweep before a retry pass is one possible cancellation.
- Ticket intent sources, operation text, reasons and other record fields that no gate reads.
- Changing the set of configured loads during a run.
- Liveness: nothing says that a dirty state is eventually saved, or that a reachable restore happens; only the readback wait is proved to end.
- Integers too large to convert to a float, which the threshold parser does not catch.
- Execution.TransitionRunner.Execute: the values that telemetry, readback and clocks return are arbitrary, so it says nothing of when they confirm; `readback.dfy` does.
- ProtocolFences.ConfirmedActionsAreSeparated: a process that dies before any snapshot is written after the first action is excluded, because its fence is then lost (`UnsavedActionIsForgotten`).
- ProtocolSafety.EveryCallWasPermitted: takes the window's maturity as the check read it; `ProtocolWindow.StartsFollowSixtySafeSeconds` says what it means in every run.
- ProtocolSafety.RestoreCreditIsConserved: for identities of at most 256 characters; for every longer one it is false (`CreditBoundIffNotTruncated`).
- ProtocolSafety.IssueCredit: the same limit, for the same reason.
- ProtocolSafety.StepConservesCredit: the same limit, for the same reason.
- ProtocolClears.OnlyUnsureClearsAreCharged: the same limit, for the same reason.
- ProtocolClears.SuccessfulClearsAreChargedAlone: the same limit, for the same reason.
- Execution.TransitionRunner.CreditIsConserved: the same limit, for the same reason.
- ProtocolJournal.GuardHolds: for identities of at most 256 characters; for every longer one it is false (`RecoveredLatchedIffNotTruncated`).
- ProtocolJournal.UnsettledCallIsRecoveredLatched: the same limit, for the same reason.
- TicketStore.RestoreRestoreTickets: why a row is rejected (its shape, bounds and texts) is not modelled, only that it is.
- Migration.MigrationKeepsPolicy: tier names and reason codes are not kept by the code, so only limits and durations are compared.
