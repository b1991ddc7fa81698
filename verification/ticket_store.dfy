/** Saving and reloading ticket ownership: storage.py and runtime_recovery.py. */
module TicketStore {
  import opened Prelude
  import opened Ownership

  /** Dictionary assignment: an existing key keeps its position, a new key goes last. */
  function Put(ts: seq<Ticket>, t: Ticket): seq<Ticket> {
    if ts == [] then [t]
    else if ts[0].device == t.device then [t] + ts[1..]
    else [ts[0]] + Put(ts[1..], t)
  }

  /** Rows that name a configured load, the later of two rows for one load winning in place. */
  function Loaded(rows: seq<Ticket>, configured: set<DeviceId>): seq<Ticket> {
    if rows == [] then []
    else
      var earlier := Loaded(rows[..|rows| - 1], configured);
      var row := rows[|rows| - 1];
      if row.device in configured then Put(earlier, row) else earlier
  }

  /** Tickets still usable at `now`, in their durable order. */
  function Usable(ts: seq<Ticket>, configured: set<DeviceId>, now: Time): seq<Ticket> {
    if ts == [] then []
    else if ts[0].device in configured && !ts[0].Expired(now) then [ts[0]] + Usable(ts[1..], configured, now)
    else Usable(ts[1..], configured, now)
  }

  predicate FromTheFuture(rows: seq<Ticket>, now: Time) {
    exists i :: 0 <= i < |rows| && rows[i].createdAt > now
  }

  /** A stored row as the reader parses it; None is one it rejects. */
  type Row = Option<Ticket>

  predicate Unreadable(rows: seq<Row>, now: Time) {
    exists i :: 0 <= i < |rows| && (rows[i].None? || rows[i].value.createdAt > now)
  }

  function Parsed(rows: seq<Row>): (ts: seq<Ticket>)
    requires forall i :: 0 <= i < |rows| ==> rows[i].Some?
    ensures |ts| == |rows| && forall i :: 0 <= i < |rows| ==> ts[i] == rows[i].value
  {
    seq(|rows|, i requires 0 <= i < |rows| => rows[i].value)
  }

  /** The storage reader: one row that is rejected or from the future invalidates the whole list. */
  method RestoreRestoreTickets(rows: seq<Row>, configured: set<DeviceId>, now: Time)
    returns (restored: seq<Ticket>, invalid: bool)
    ensures invalid <==> Unreadable(rows, now)
    ensures invalid ==> restored == []
    ensures !invalid ==> restored == Loaded(Parsed(rows), configured)
  {
    restored, invalid := [], false;
    var i := 0;
    while i < |rows|
      invariant 0 <= i <= |rows| && !invalid
      invariant forall j :: 0 <= j < i ==> rows[j].Some? && rows[j].value.createdAt <= now
      invariant restored == Loaded(Parsed(rows[..i]), configured)
    {
      if rows[i].None? || rows[i].value.createdAt > now {
        return [], true;
      }
      var row := rows[i].value;
      assert Parsed(rows[..i + 1])[..i] == Parsed(rows[..i]);
      if row.device in configured {
        restored := Put(restored, row);
      }
      i := i + 1;
    }
    assert rows[..i] == rows;
  }

  /** What a process owns after reading well-formed rows. */
  function Reloaded(rows: seq<Ticket>, configured: set<DeviceId>, now: Time): seq<Ticket> {
    if FromTheFuture(rows, now) then [] else Usable(Loaded(rows, configured), configured, now)
  }

  /** Recovery hands the still usable tickets to the ownership object. */
  method RecoverTickets(owner: RestoreTransactions, rows: seq<Row>, configured: set<DeviceId>, now: Time)
    returns (invalid: bool)
    modifies owner
    ensures owner.Valid()
    ensures invalid <==> Unreadable(rows, now)
    ensures invalid ==> owner.tickets == []
    ensures !invalid ==> owner.tickets == Reloaded(Parsed(rows), configured, now)
  {
    var restored;
    restored, invalid := RestoreRestoreTickets(rows, configured, now);
    if !invalid {
      ReloadedOrdered(Parsed(rows), configured, now);
    }
    owner.Hydrate(Usable(restored, configured, now));
  }

  // ---------- One ticket per load, whatever was stored ----------

  lemma {:induction false} PutMembers(ts: seq<Ticket>, t: Ticket)
    requires OnePerDevice(ts)
    ensures forall x :: x in Put(ts, t) <==> x == t || (x in ts && x.device != t.device)
    ensures OnePerDevice(Put(ts, t))
  {
    if ts != [] {
      var rest := ts[1..];
      assert forall x :: x in ts <==> x == ts[0] || x in rest;
      assert OnePerDevice(rest);
      PutMembers(rest, t);
      if ts[0].device != t.device {
        NewHead(ts[0], Put(rest, t));
      } else {
        NewHead(t, rest);
      }
    }
  }

  lemma DevicesCons(t: Ticket, ts: seq<Ticket>)
    ensures Devices([t] + ts) == [t.device] + Devices(ts)
    ensures forall d :: Holds([t] + ts, d) <==> t.device == d || Holds(ts, d)
  {
    var all := [t] + ts;
    forall d ensures Holds(all, d) <==> t.device == d || Holds(ts, d) {
      if t.device == d { assert all[0].device == d; }
      forall i | 0 <= i < |ts| && ts[i].device == d ensures Holds(all, d) { assert all[i + 1] == ts[i]; }
      forall i | 0 < i < |all| && all[i].device == d ensures Holds(ts, d) { assert ts[i - 1] == all[i]; }
    }
  }

  /** A later row for the same load takes the earlier one's place; a new load goes last. */
  lemma {:induction false} PutKeepsPlaces(ts: seq<Ticket>, t: Ticket)
    ensures Devices(Put(ts, t)) == if Holds(ts, t.device) then Devices(ts) else Devices(ts) + [t.device]
  {
    if ts != [] {
      var rest := ts[1..];
      assert ts == [ts[0]] + rest;
      DevicesCons(ts[0], rest);
      if ts[0].device == t.device {
        DevicesCons(t, rest);
      } else {
        PutKeepsPlaces(rest, t);
        DevicesCons(ts[0], Put(rest, t));
      }
    }
  }

  lemma NewHead(x: Ticket, ts: seq<Ticket>)
    requires OnePerDevice(ts) && forall y :: y in ts ==> y.device != x.device
    ensures OnePerDevice([x] + ts)
  {}

  /** Row i is for a configured load and no later row is for the same load. */
  ghost predicate LatestRow(rows: seq<Ticket>, configured: set<DeviceId>, i: int) {
    0 <= i < |rows| && rows[i].device in configured && forall j :: i < j < |rows| ==> rows[j].device != rows[i].device
  }

  lemma LatestRowSnoc(rows: seq<Ticket>, configured: set<DeviceId>, x: Ticket)
    requires rows != []
    ensures var row := rows[|rows| - 1];
      IsLatest(rows, configured, x) <==>
        || (x == row && row.device in configured)
        || (IsLatest(rows[..|rows| - 1], configured, x) && x.device != row.device)
  {
    var n := |rows| - 1;
    if IsLatest(rows, configured, x) {
      var i :| LatestRow(rows, configured, i) && rows[i] == x;
      if i < n { assert LatestRow(rows[..n], configured, i); }
    }
    if rows[n].device in configured { assert LatestRow(rows, configured, n); }
    forall i | LatestRow(rows[..n], configured, i) && rows[i] == x && x.device != rows[n].device
      ensures LatestRow(rows, configured, i)
    {}
  }

  ghost predicate IsLatest(rows: seq<Ticket>, configured: set<DeviceId>, x: Ticket) {
    exists i :: LatestRow(rows, configured, i) && rows[i] == x
  }

  /** Whatever rows are stored, loading yields one ticket per load: the latest row of each configured one. */
  lemma {:induction false} LoadedKeepsLatestRows(rows: seq<Ticket>, configured: set<DeviceId>)
    ensures OnePerDevice(Loaded(rows, configured))
    ensures forall x :: x in Loaded(rows, configured) <==> IsLatest(rows, configured, x)
  {
    if rows != [] {
      var n := |rows| - 1;
      var earlier := Loaded(rows[..n], configured);
      LoadedKeepsLatestRows(rows[..n], configured);
      PutMembers(earlier, rows[n]);
      forall x ensures x in Loaded(rows, configured) <==> IsLatest(rows, configured, x) {
        LatestRowSnoc(rows, configured, x);
        if rows[n].device !in configured && IsLatest(rows[..n], configured, x) {
          var i :| LatestRow(rows[..n], configured, i) && rows[..n][i] == x;
        }
      }
    }
  }

  lemma {:induction false} UsableMembers(ts: seq<Ticket>, configured: set<DeviceId>, now: Time)
    ensures forall t :: t in Usable(ts, configured, now) <==> t in ts && t.device in configured && !t.Expired(now)
  {
    if ts != [] { UsableMembers(ts[1..], configured, now); }
  }

  lemma {:induction false} UsableIsSubsequence(ts: seq<Ticket>, configured: set<DeviceId>, now: Time)
    ensures Subsequence(Usable(ts, configured, now), ts)
  {
    if ts != [] {
      UsableIsSubsequence(ts[1..], configured, now);
      if ts[0].device in configured && !ts[0].Expired(now) {
        assert Usable(ts, configured, now)[1..] == Usable(ts[1..], configured, now);
      }
    }
  }

  /** What a reload keeps of the loaded tickets: in their order, those for a configured load before their deadline. */
  lemma ReloadKeepsUnexpired(rows: seq<Ticket>, configured: set<DeviceId>, now: Time)
    requires forall i :: 0 <= i < |rows| ==> rows[i].createdAt <= now
    ensures Subsequence(Reloaded(rows, configured, now), Loaded(rows, configured))
    ensures forall t :: t in Reloaded(rows, configured, now) <==>
      t in Loaded(rows, configured) && t.device in configured && now < t.expiresAt
  {
    UsableIsSubsequence(Loaded(rows, configured), configured, now);
    UsableMembers(Loaded(rows, configured), configured, now);
  }

  lemma {:induction false} UsableOrdered(ts: seq<Ticket>, configured: set<DeviceId>, now: Time)
    requires OnePerDevice(ts)
    ensures OnePerDevice(Usable(ts, configured, now))
  {
    if ts != [] {
      var rest := ts[1..];
      assert OnePerDevice(rest);
      UsableOrdered(rest, configured, now);
      UsableMembers(rest, configured, now);
      if ts[0].device in configured && !ts[0].Expired(now) {
        forall y | y in Usable(rest, configured, now) ensures y.device != ts[0].device {
          var k :| 0 <= k < |rest| && rest[k] == y;
          assert ts[k + 1] == y;
        }
        NewHead(ts[0], Usable(rest, configured, now));
      }
    }
  }

  lemma ReloadedOrdered(rows: seq<Ticket>, configured: set<DeviceId>, now: Time)
    ensures OnePerDevice(Reloaded(rows, configured, now))
    ensures OnePerDevice(Usable(Loaded(rows, configured), configured, now))
  {
    LoadedKeepsLatestRows(rows, configured);
    UsableOrdered(Loaded(rows, configured), configured, now);
  }

  lemma ReloadedMembers(rows: seq<Ticket>, configured: set<DeviceId>, now: Time, t: Ticket)
    requires t in Reloaded(rows, configured, now)
    ensures t in rows && t.device in configured && !t.Expired(now) && t.createdAt <= now
  {
    UsableMembers(Loaded(rows, configured), configured, now);
    LoadedKeepsLatestRows(rows, configured);
    var i :| LatestRow(rows, configured, i) && rows[i] == t;
    assert !(rows[i].createdAt > now);
  }

  // ---------- What this program stored comes back ----------

  lemma {:induction false} PutNew(ts: seq<Ticket>, t: Ticket)
    requires forall x :: x in ts ==> x.device != t.device
    ensures Put(ts, t) == ts + [t]
  {
    if ts != [] {
      assert ts[0] in ts;
      PutNew(ts[1..], t);
      assert [ts[0]] + (ts[1..] + [t]) == ts + [t];
    }
  }

  lemma {:induction false} UsableAppend(a: seq<Ticket>, t: Ticket, configured: set<DeviceId>, now: Time)
    ensures Usable(a + [t], configured, now) ==
            if t.device in configured && !t.Expired(now) then Usable(a, configured, now) + [t]
            else Usable(a, configured, now)
  {
    if a == [] {
      assert [] + [t] == [t] && [t][1..] == [];
    } else {
      assert (a + [t])[1..] == a[1..] + [t];
      UsableAppend(a[1..], t, configured, now);
    }
  }

  /** Rows for different loads load in their own order: loading only filters. */
  lemma {:induction false} LoadedThenUsable(rows: seq<Ticket>, configured: set<DeviceId>, now: Time)
    requires OnePerDevice(rows)
    ensures Usable(Loaded(rows, configured), configured, now) == Usable(rows, configured, now)
  {
    if rows != [] {
      var n := |rows| - 1;
      var row := rows[n];
      var earlier := Loaded(rows[..n], configured);
      LoadedThenUsable(rows[..n], configured, now);
      assert rows == rows[..n] + [row];
      UsableAppend(rows[..n], row, configured, now);
      UsableAppend(earlier, row, configured, now);
      if row.device in configured {
        LoadedKeepsLatestRows(rows[..n], configured);
        forall x | x in earlier ensures x.device != row.device {
          var i :| LatestRow(rows[..n], configured, i) && rows[..n][i] == x;
          assert rows[i].device != rows[n].device;
        }
        PutNew(earlier, row);
      }
    }
  }

  lemma {:induction false} UsableKeepsAllIff(ts: seq<Ticket>, configured: set<DeviceId>, now: Time)
    ensures Usable(ts, configured, now) == ts <==> forall t :: t in ts ==> t.device in configured && !t.Expired(now)
    ensures |Usable(ts, configured, now)| <= |ts|
  {
    if ts != [] {
      UsableKeepsAllIff(ts[1..], configured, now);
      if ts[0].device in configured && !ts[0].Expired(now) {
        var u := Usable(ts[1..], configured, now);
        assert ts == [ts[0]] + ts[1..];
        assert Usable(ts, configured, now)[1..] == u;
      }
    }
  }

  /** A save and a reload return the same tickets in the same order exactly when every load is still
      configured, no ticket has expired, and the wall clock is not behind a creation. */
  lemma SaveReloadRoundTrip(ts: seq<Ticket>, configured: set<DeviceId>, now: Time)
    requires OnePerDevice(ts)
    ensures Reloaded(ts, configured, now) == ts <==>
      forall t :: t in ts ==> t.createdAt <= now < t.expiresAt && t.device in configured
  {
    LoadedThenUsable(ts, configured, now);
    UsableKeepsAllIff(ts, configured, now);
  }

  lemma {:induction false} UsableTwice(ts: seq<Ticket>, configured: set<DeviceId>, t1: Time, t2: Time)
    requires t1 <= t2
    ensures Usable(Usable(ts, configured, t1), configured, t2) == Usable(ts, configured, t2)
  {
    if ts != [] { UsableTwice(ts[1..], configured, t1, t2); }
  }

  lemma ReloadedIsNotFromTheFuture(rows: seq<Ticket>, configured: set<DeviceId>, now: Time)
    ensures !FromTheFuture(Reloaded(rows, configured, now), now)
  {
    var r := Reloaded(rows, configured, now);
    forall i | 0 <= i < |r| ensures r[i].createdAt <= now { ReloadedMembers(rows, configured, now, r[i]); }
  }

  /** Reloads compose in time: a second reload equals one reload at the later time, unless a row was
      from the future at the first reload and would have been usable by the second. */
  lemma ReloadTwice(rows: seq<Ticket>, configured: set<DeviceId>, t1: Time, t2: Time)
    requires t1 <= t2
    ensures Reloaded(Reloaded(rows, configured, t1), configured, t2) == Reloaded(rows, configured, t2) <==>
      !FromTheFuture(rows, t1) || Reloaded(rows, configured, t2) == []
  {
    var once := Reloaded(rows, configured, t1);
    ReloadedOrdered(rows, configured, t1);
    ReloadedIsNotFromTheFuture(rows, configured, t1);
    LoadedThenUsable(once, configured, t2);
    UsableTwice(Loaded(rows, configured), configured, t1, t2);
    assert forall i :: 0 <= i < |once| ==> !(once[i].createdAt > t1);
    if !FromTheFuture(rows, t1) {
      assert forall i :: 0 <= i < |rows| ==> !(rows[i].createdAt > t1);
    }
  }
}
