/** Ordered ownership over whole runs: one ticket per load, in memory and on disk. */
module ProtocolOwnership {
  import opened Prelude
  import opened Ownership
  import opened Protocol
  import TS = TicketStore

  lemma WithoutOnePerDevice(ts: seq<Ticket>, d: DeviceId)
    requires OnePerDevice(ts)
    ensures OnePerDevice(Without(ts, d))
  {
    WithoutOrdered(ts, d);
  }

  lemma {:induction false} KeptOnePerDevice(ts: seq<Ticket>, v: Intents, now: Time)
    requires OnePerDevice(ts)
    ensures OnePerDevice(Kept(ts, v, now))
  {
    if ts != [] {
      var rest := ts[1..];
      assert OnePerDevice(rest);
      KeptOnePerDevice(rest, v, now);
      KeptMembers(rest, v, now);
      forall t | t in Kept(rest, v, now) ensures t.device != ts[0].device {
        var k :| 0 <= k < |rest| && rest[k] == t;
        assert ts[k + 1] == t;
      }
    }
  }

  lemma CommitOnePerDevice(t: Txn, o: Owned, now: Time, pauseUntil: Option<Time>, stamp: Time, g: nat)
    requires OnePerDevice(o.tickets)
    ensures OnePerDevice(CommitOwned(t, o, now, pauseUntil, stamp, g).tickets)
  {
    var c := CommitOwned(t, o, now, pauseUntil, stamp, g);
    WithoutOrdered(o.tickets, t.device);
    if CreatesTicket(t) { AppendOrdered(Without(o.tickets, t.device), c.tickets[|c.tickets| - 1]); }
  }

  lemma RecoveredOnePerDevice(configured: set<DeviceId>, disk: Disk, now: Time, reconfigure: bool)
    ensures OnePerDevice(Recover(configured, disk, now, reconfigure).own.tickets)
  {
    var c := Contents(disk);
    if c.tickets.Present? { TS.ReloadedOrdered(c.tickets.v, configured, now); }
  }

  /** The stored list names each load once; its order is the queue's. */
  ghost predicate DiskOrdered(disk: Disk) {
    var c := Contents(disk);
    c.tickets.Present? && OnePerDevice(c.tickets.v)
  }

  /** Memory owns one ticket per load; so does disk, unless it still is as this run found it. */
  ghost predicate OwnershipInv(s: Sys, found: Disk) {
    OnePerDevice(s.mem.own.tickets) && (DiskOrdered(s.disk) || s.disk == found)
  }

  predicate TicketLabel(l: Label) {
    l.ReadBack? || l.Reconcile? || l.Retire? || l.Restart? || l.Cancel? || l.Resume?
  }

  /** A failed save and a cancellation leave disk alone and at most retire the running load's ticket. */
  lemma FailureDropsAtMostOne(s: Sys, l: Label)
    requires Enabled(s, l) && (l.Cancel? || l.Resume?)
    ensures var s' := Apply(s, l);
      && s'.disk == s.disk
      && (s'.mem.own.tickets == s.mem.own.tickets ||
          (s.task.Transition? && s'.mem.own.tickets == Without(s.mem.own.tickets, s.task.t.device)))
  {}

  lemma FailureKeepsOwnership(s: Sys, l: Label, found: Disk)
    requires OwnershipInv(s, found) && Enabled(s, l) && (l.Cancel? || l.Resume?)
    ensures OwnershipInv(Apply(s, l), found)
  {
    FailureDropsAtMostOne(s, l);
    if s.task.Transition? { WithoutOnePerDevice(s.mem.own.tickets, s.task.t.device); }
  }

  lemma RestartKeepsOwnership(s: Sys, l: Label, found: Disk)
    requires OwnershipInv(s, found) && l.Restart?
    ensures OwnershipInv(Apply(s, l), found)
  {
    RecoveredOnePerDevice(s.configured, s.disk, l.now, l.reconfigure);
  }

  lemma StepKeepsOwnership(s: Sys, l: Label, found: Disk)
    requires OwnershipInv(s, found) && Enabled(s, l)
    ensures OwnershipInv(Apply(s, l), found)
  {
    if l.ReadBack? {
      CommitOnePerDevice(s.task.t, s.mem.own, l.at, l.pauseUntil, l.stamp, s.mem.loadGeneration);
    } else if l.Reconcile? {
      KeptOnePerDevice(s.mem.own.tickets, l.intents, l.at);
    } else if l.Restart? {
      RestartKeepsOwnership(s, l, found);
    } else if l.Retire? {
      WithoutOnePerDevice(s.mem.own.tickets, l.device);
    } else if TicketLabel(l) {
      FailureKeepsOwnership(s, l, found);
    } else {
      OtherStepKeepsOwnership(s, l, found);
    }
  }

  /** Every other step leaves the tickets alone, and a save stores them as they are. */
  lemma OtherStepKeepsOwnership(s: Sys, l: Label, found: Disk)
    requires OwnershipInv(s, found) && Enabled(s, l) && !TicketLabel(l)
    ensures OwnershipInv(Apply(s, l), found)
  {}

  lemma {:induction false} RunKeepsOwnership(s: Sys, ls: seq<Label>, found: Disk)
    requires OwnershipInv(s, found) && Run(s, ls)
    ensures OwnershipInv(Exec(s, ls), found)
    decreases |ls|
  {
    if ls != [] {
      StepKeepsOwnership(s, ls[0], found);
      RunKeepsOwnership(Apply(s, ls[0]), ls[1..], found);
    }
  }

  /** Whatever was stored before, whatever fails and whoever dies: every reachable memory owns at most
      one ticket per load, so its queue is the ticket keys in order without repetition, and so does
      every snapshot written since. */
  lemma OwnershipStaysOrdered(s0: Sys, s: Sys)
    requires Initial(s0) && Reaches(s0, s)
    ensures Ordered(s.mem.own.tickets, Devices(s.mem.own.tickets)) && Distinct(Devices(s.mem.own.tickets))
    ensures s.disk != s0.disk ==> DiskOrdered(s.disk)
  {
    var now, reconfigure :| s0.mem == Recover(s0.configured, s0.disk, now, reconfigure);
    RecoveredOnePerDevice(s0.configured, s0.disk, now, reconfigure);
    var ls :| Run(s0, ls) && Exec(s0, ls) == s;
    RunKeepsOwnership(s0, ls, s0.disk);
  }
}
