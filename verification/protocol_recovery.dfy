/** Recovery as the inverse of a save, and a crash during recovery: runtime_recovery.py and storage.py. */
module ProtocolRecovery {
  import opened Prelude
  import opened Ownership
  import opened Protocol
  import F = Fences
  import TS = TicketStore
  import J = Journal

  /** What a healthy process saved is what the next one has, but for unfinished actions, which it
      latches, expired proof, and fences, which wait for a report of the new process. */
  lemma SavedStateIsRecovered(configured: set<DeviceId>, m: Mem, now: Time)
    requires !m.storeInvalid && m.telemetry != Unclassified
    requires OnePerDevice(m.own.tickets) && !TS.FromTheFuture(m.own.tickets, now)
    ensures var r := Recover(configured, Snapshot(configured, m), now, false);
      && r.mode == m.mode && !r.storageInvalid && r.telemetry == m.telemetry && r.journal == m.journal
      && (forall d :: d in configured ==>
            (d in r.faulted <==> d in m.faulted || d in Ambiguous(m.journal, configured)) &&
            (d in r.quarantined <==> d in m.quarantined || d in Ambiguous(m.journal, configured)))
      && (forall d :: d in configured && PauseActive(m, d, now) && m.own.pauses[d] <= now + MAX_PAUSE ==>
            PauseActive(r, d, now))
      && (r.own.tickets == m.own.tickets <==>
            forall t :: t in m.own.tickets ==> t.device in configured && !t.Expired(now))
      && (forall k :: F.Permits(r.own.fences, k) <==> F.Permits(m.own.fences, k))
  {
    TS.SaveReloadRoundTrip(m.own.tickets, configured, now);
  }

  lemma RecoveredOwnershipIsStable(configured: set<DeviceId>, m: Mem, c: Durable, now: Time)
    requires m.own.tickets == RecoveredTickets(c, configured, now)
    requires m.own.pauses == RecoveredPauses(c.pauses, configured, now)
    ensures !TS.FromTheFuture(m.own.tickets, now)
    ensures TS.Reloaded(m.own.tickets, configured, now) == m.own.tickets
    ensures RecoveredPauses(m.own.pauses, configured, now) == m.own.pauses
  {
    if c.tickets.Present? {
      TS.ReloadedIsNotFromTheFuture(c.tickets.v, configured, now);
      TS.ReloadTwice(c.tickets.v, configured, now, now);
    }
  }

  /** A crash after recovery's own save costs nothing: recovering again from any disk, healthy or
      corrupted, gives the same memory. */
  lemma RecoveringAgainChangesNothing(configured: set<DeviceId>, disk: Disk, now: Time, reconfigure: bool)
    ensures var r := Recover(configured, disk, now, reconfigure);
      Recover(configured, Snapshot(configured, r), now, reconfigure) == r
  {
    var r := Recover(configured, disk, now, reconfigure);
    var again := Recover(configured, Snapshot(configured, r), now, reconfigure);
    RecoveredOwnershipIsStable(configured, r, Contents(disk), now);
    assert again.own == r.own;
    assert again.faulted == r.faulted && again.quarantined == r.quarantined;
  }

  // ---------- The recovered mode ----------

  /** Nothing any reader found on disk is malformed or impossible, and no such finding was stored. */
  ghost predicate Healthy(disk: Disk, now: Time) {
    disk.Empty? ||
    (&& disk.Stored?
     && (disk.d.invalid.Absent? || (disk.d.invalid.Present? && !disk.d.invalid.v))
     && !disk.d.flags.Malformed? && !disk.d.intents.Malformed?
     && (disk.d.telemetry.Absent? || (disk.d.telemetry.Present? && disk.d.telemetry.v != Unclassified))
     && (disk.d.tickets.Absent? ||
         (disk.d.tickets.Present? && forall t :: t in disk.d.tickets.v ==> t.createdAt <= now)))
  }

  lemma HealthyIsOpen(configured: set<DeviceId>, disk: Disk, now: Time, reconfigure: bool)
    ensures Recover(configured, disk, now, reconfigure).storageInvalid <==> !Healthy(disk, now)
  {
    var c := Contents(disk);
    if c.tickets.Present? { FutureIsATicket(c.tickets.v, now); }
    assert c.invalid.Present? ==> c.invalid == Present(c.invalid.v);
    assert c.telemetry.Present? ==> c.telemetry == Present(c.telemetry.v);
  }

  lemma FutureIsATicket(ts: seq<Ticket>, now: Time)
    ensures !TS.FromTheFuture(ts, now) <==> forall t :: t in ts ==> t.createdAt <= now
  {
    if forall t :: t in ts ==> t.createdAt <= now {
      forall i | 0 <= i < |ts| ensures !(ts[i].createdAt > now) { assert ts[i] in ts; }
    }
  }

  /** The mode of every recovery: off from an unhealthy disk; else observing when reconfiguration is required
      or no mode is stored, as on a fresh installation; else the stored one. */
  lemma RecoveredMode(configured: set<DeviceId>, disk: Disk, now: Time, reconfigure: bool)
    ensures var m := Recover(configured, disk, now, reconfigure);
      && (m.mode == Auto <==> disk.Stored? && disk.d.mode == Some(Auto) && Healthy(disk, now) && !reconfigure)
      && (m.mode == Observe <==>
            Healthy(disk, now) && (reconfigure || disk.Empty? || disk.d.mode == None || disk.d.mode == Some(Observe)))
      && (m.mode == Off <==> !Healthy(disk, now) || (!reconfigure && disk.Stored? && disk.d.mode == Some(Off)))
      && m.reconfigure == reconfigure && !m.stopping && !m.sourceLoss && m.loadGeneration == 0 && m.lastAccepted == None
  {
    HealthyIsOpen(configured, disk, now, reconfigure);
  }

  /** A new process starts observing whenever recovery's own save fails, and otherwise in the recovered mode. */
  lemma RebootedMode(s: Sys, now: Time, reconfigure: bool, outcome: SaveOutcome)
    ensures var b := Rebooted(s, now, reconfigure, outcome);
      && (b.mem.mode == Auto <==>
            && outcome == SavedOk && !reconfigure
            && s.disk.Stored? && s.disk.d.mode == Some(Auto) && Healthy(s.disk, now))
      && (outcome != SavedOk ==> b.mem.mode == Observe)
      && (outcome == FailedUnwritten ==> b.disk == s.disk)
      && b.task == Idle && b.calls == s.calls && b.created == s.created && b.cleared == s.cleared
  {
    RecoveredMode(s.configured, s.disk, now, reconfigure);
  }

  /** Every recovered flag, pause and telemetry latch, read off any disk: flags that cannot be read
      quarantine every load, an unfinished action latches its own, and a pause longer than a day is dropped. */
  lemma RecoveredFlags(configured: set<DeviceId>, disk: Disk, now: Time, reconfigure: bool, d: DeviceId)
    requires d in configured
    ensures var m, c := Recover(configured, disk, now, reconfigure), Contents(disk);
      && (d in m.quarantined <==>
            || c.flags.Malformed? || (c.flags.Present? && d in c.flags.v.quarantined)
            || exists r :: r in J.Unresolved(c.journal) && J.DeviceKey in r && r[J.DeviceKey] == J.Plain(J.Text(d)))
      && (d in m.faulted <==>
            || (c.flags.Present? && d in c.flags.v.faulted)
            || exists r :: r in J.Unresolved(c.journal) && J.DeviceKey in r && r[J.DeviceKey] == J.Plain(J.Text(d)))
      && (d in m.own.pauses <==> d in c.pauses && now < c.pauses[d] <= now + 86400.0)
      && (d in m.own.pauses ==> m.own.pauses[d] == c.pauses[d])
      && (c.telemetry.Present? ==> m.telemetry == c.telemetry.v)
      && (c.telemetry.Malformed? ==> m.telemetry == Unclassified) && (c.telemetry.Absent? ==> m.telemetry == NoFault)
      && m.journal == c.journal
  {
    var c := Contents(disk);
    assert d in Ambiguous(c.journal, configured) <==>
      exists r :: r in J.Unresolved(c.journal) && J.DeviceKey in r && r[J.DeviceKey] == J.Plain(J.Text(d)) by {
      if r :| r in J.Unresolved(c.journal) && J.DeviceKey in r && r[J.DeviceKey] == J.Plain(J.Text(d)) {
        assert NamesDevice(r, d);
      }
      if r :| r in J.Unresolved(c.journal) && NamesDevice(r, d) {
        assert r[J.DeviceKey] == J.Plain(J.Text(d));
      }
    }
  }

  /** A barrier that was pending on disk is pending again, counting reports from zero, after its own stamp or,
      lacking one, after the clock of the recovery. */
  lemma RecoveredBarriers(configured: set<DeviceId>, disk: Disk, now: Time, reconfigure: bool, k: F.Kind)
    ensures var m, f := Recover(configured, disk, now, reconfigure).own.fences, F.FenceOf(Contents(disk).fences, k);
      && (F.FenceOf(m, k).generation == if f.generation.Some? then Some(0) else None)
      && (f.generation.Some? ==> F.FenceOf(m, k).after == if f.after.Some? then f.after else Some(now))
  {}
}
