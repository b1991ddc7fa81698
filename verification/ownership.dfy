/**
 * Ordered restore ownership: restore_transactions.py and requests.py.
 *
 * A Python dictionary keeps insertion order, so the ticket dictionary is a
 * sequence of tickets with pairwise different devices.
 */
module Ownership {
  import opened Prelude

  const MAX_INTENT_TTL: Time := 86400.0

  /** The command target captured when the load was stopped. */
  datatype RestoreState = RestoreState(entity: string, climate: bool, temperature: Option<real>)

  /** What a confirmed stop leaves behind: which load, why, and the state to return it to. */
  datatype Ticket = Ticket(
    device: DeviceId,
    cause: string,
    operation: nat,
    createdAt: Time,
    expiresAt: Time,
    restore: RestoreState)
  {
    predicate Expired(now: Time) { now >= expiresAt }
  }

  /** One owner's say that a load may run again, until a deadline. */
  datatype Intent = Intent(active: bool, expiresAt: Time)
  {
    predicate Due(now: Time) { !active || now >= expiresAt }
  }

  type IntentKey = (DeviceId, string)
  type Intents = map<IntentKey, Intent>

  // ---------- Ordered dictionary operations ----------

  function Devices(ts: seq<Ticket>): (ds: seq<DeviceId>)
    ensures |ds| == |ts|
    ensures forall i :: 0 <= i < |ts| ==> ds[i] == ts[i].device
  {
    seq(|ts|, i requires 0 <= i < |ts| => ts[i].device)
  }

  predicate Holds(ts: seq<Ticket>, d: DeviceId) { exists i :: 0 <= i < |ts| && ts[i].device == d }

  function Lookup(ts: seq<Ticket>, d: DeviceId): (r: Option<Ticket>)
    ensures r.Some? <==> Holds(ts, d)
    ensures r.Some? ==> r.value in ts && r.value.device == d
  {
    if ts == [] then None
    else if ts[0].device == d then assert Holds(ts, d); Some(ts[0])
    else
      var rest := Lookup(ts[1..], d);
      assert rest.Some? ==> Holds(ts, d);
      assert Holds(ts, d) ==> Holds(ts[1..], d) by {
        if Holds(ts, d) {
          var i :| 0 <= i < |ts| && ts[i].device == d;
          assert ts[1..][i - 1].device == d;
        }
      }
      rest
  }

  /** Dropping one key keeps every other entry and their relative order. */
  function Without(ts: seq<Ticket>, d: DeviceId): (r: seq<Ticket>) {
    if ts == [] then []
    else if ts[0].device == d then Without(ts[1..], d)
    else [ts[0]] + Without(ts[1..], d)
  }

  /** `list.remove`: the first occurrence only. */
  function RemoveFirst(p: seq<DeviceId>, d: DeviceId): (r: seq<DeviceId>) {
    if p == [] then [] else if p[0] == d then p[1..] else [p[0]] + RemoveFirst(p[1..], d)
  }

  /** No two tickets are for the same device. */
  ghost predicate OnePerDevice(ts: seq<Ticket>) {
    forall i, j :: 0 <= i < j < |ts| ==> ts[i].device != ts[j].device
  }

  ghost predicate Ordered(ts: seq<Ticket>, pending: seq<DeviceId>) {
    OnePerDevice(ts) && pending == Devices(ts)
  }

  lemma {:induction false} WithoutMembers(ts: seq<Ticket>, d: DeviceId)
    ensures forall t :: t in Without(ts, d) <==> t in ts && t.device != d
  {
    if ts != [] { WithoutMembers(ts[1..], d); }
  }

  lemma {:induction false} WithoutIsSubsequence(ts: seq<Ticket>, d: DeviceId)
    ensures Subsequence(Without(ts, d), ts)
  {
    if ts != [] {
      WithoutIsSubsequence(ts[1..], d);
      if ts[0].device != d { assert Without(ts, d)[1..] == Without(ts[1..], d); }
    }
  }

  lemma {:induction false} WithoutAbsent(ts: seq<Ticket>, d: DeviceId)
    requires forall i :: 0 <= i < |ts| ==> ts[i].device != d
    ensures Without(ts, d) == ts
  {
    if ts != [] { WithoutAbsent(ts[1..], d); }
  }

  lemma {:induction false} WithoutAt(ts: seq<Ticket>, i: nat)
    requires i < |ts| && forall j :: 0 <= j < |ts| && j != i ==> ts[j].device != ts[i].device
    ensures Without(ts, ts[i].device) == ts[..i] + ts[i + 1..]
  {
    var rest := ts[1..];
    if i == 0 {
      WithoutAbsent(rest, ts[0].device);
      assert ts[..0] + ts[1..] == rest;
    } else {
      assert ts[0].device != ts[i].device;
      WithoutAt(rest, i - 1);
      assert [ts[0]] + (rest[..i - 1] + rest[i..]) == ts[..i] + ts[i + 1..];
    }
  }

  lemma {:induction false} RemoveFirstIsPositional(p: seq<DeviceId>, i: nat)
    requires i < |p| && p[i] !in p[..i]
    ensures RemoveFirst(p, p[i]) == p[..i] + p[i + 1..]
  {
    if i > 0 {
      var rest := p[1..];
      assert p[0] in p[..i];
      assert rest[..i - 1] == p[1..i];
      RemoveFirstIsPositional(rest, i - 1);
      assert [p[0]] + (rest[..i - 1] + rest[i..]) == p[..i] + p[i + 1..];
    }
  }

  lemma {:induction false} RemoveAbsent(p: seq<DeviceId>, d: DeviceId)
    requires d !in p
    ensures RemoveFirst(p, d) == p
  {
    if p != [] { RemoveAbsent(p[1..], d); }
  }

  /** Dropping a key keeps the queue equal to the ticket keys, in order. */
  lemma WithoutOrdered(ts: seq<Ticket>, d: DeviceId)
    requires OnePerDevice(ts)
    ensures Ordered(Without(ts, d), RemoveFirst(Devices(ts), d))
    ensures !Holds(Without(ts, d), d)
    ensures Subsequence(Without(ts, d), ts) && forall t :: t in ts && t.device != d ==> t in Without(ts, d)
  {
    WithoutIsSubsequence(ts, d);
    WithoutMembers(ts, d);
    if Holds(ts, d) {
      var i :| 0 <= i < |ts| && ts[i].device == d;
      OrderedAt(ts, i);
    } else {
      WithoutAbsent(ts, d);
      RemoveAbsent(Devices(ts), d);
    }
  }

  lemma DevicesConcat(a: seq<Ticket>, b: seq<Ticket>)
    ensures Devices(a + b) == Devices(a) + Devices(b)
  {}

  lemma CutIsOnePerDevice(ts: seq<Ticket>, i: nat)
    requires OnePerDevice(ts) && i < |ts|
    ensures OnePerDevice(ts[..i] + ts[i + 1..])
  {
    var cut := ts[..i] + ts[i + 1..];
    forall a, b | 0 <= a < b < |cut| ensures cut[a].device != cut[b].device {
      assert cut[a] == ts[if a < i then a else a + 1];
      assert cut[b] == ts[if b < i then b else b + 1];
    }
  }

  lemma OrderedAt(ts: seq<Ticket>, i: nat)
    requires OnePerDevice(ts) && i < |ts|
    ensures Without(ts, ts[i].device) == ts[..i] + ts[i + 1..]
    ensures Ordered(Without(ts, ts[i].device), RemoveFirst(Devices(ts), ts[i].device))
  {
    WithoutAt(ts, i);
    CutIsOnePerDevice(ts, i);
    PendingAt(ts, i);
  }

  lemma PendingAt(ts: seq<Ticket>, i: nat)
    requires OnePerDevice(ts) && i < |ts|
    ensures RemoveFirst(Devices(ts), ts[i].device) == Devices(ts[..i] + ts[i + 1..])
  {
    var p := Devices(ts);
    assert p[i] !in p[..i];
    RemoveFirstIsPositional(p, i);
    DevicesConcat(ts[..i], ts[i + 1..]);
    assert Devices(ts[..i]) == p[..i] && Devices(ts[i + 1..]) == p[i + 1..];
  }

  lemma AppendOrdered(ts: seq<Ticket>, t: Ticket)
    requires OnePerDevice(ts) && !Holds(ts, t.device)
    ensures Ordered(ts + [t], Devices(ts) + [t.device])
  {
    assert Devices(ts + [t]) == Devices(ts) + [t.device];
  }

  // ---------- Reconciliation ----------

  function Pruned(v: Intents, now: Time): (r: Intents) {
    map k | k in v && !v[k].Due(now) :: v[k]
  }

  predicate Live(v: Intents, d: DeviceId, now: Time) {
    exists k :: k in v && k.0 == d && !v[k].Due(now)
  }

  /** The tickets a reconciliation at `now` leaves, in their order. */
  function Kept(ts: seq<Ticket>, v: Intents, now: Time): (r: seq<Ticket>) {
    if ts == [] then []
    else if ts[0].Expired(now) || !Live(v, ts[0].device, now) then Kept(ts[1..], v, now)
    else [ts[0]] + Kept(ts[1..], v, now)
  }

  lemma {:induction false} KeptMembers(ts: seq<Ticket>, v: Intents, now: Time)
    ensures forall t :: t in Kept(ts, v, now) <==> t in ts && !t.Expired(now) && Live(v, t.device, now)
  {
    if ts != [] { KeptMembers(ts[1..], v, now); }
  }

  lemma {:induction false} KeptIsSubsequence(ts: seq<Ticket>, v: Intents, now: Time)
    ensures Subsequence(Kept(ts, v, now), ts)
  {
    if ts != [] {
      KeptIsSubsequence(ts[1..], v, now);
      if !ts[0].Expired(now) && Live(v, ts[0].device, now) { assert Kept(ts, v, now)[1..] == Kept(ts[1..], v, now); }
    }
  }

  /** What a reconciliation leaves, in the old order: the tickets before their deadline that some active
      intent for their load, itself before its deadline, still asks for. */
  lemma KeptAreUnexpiredAndLive(ts: seq<Ticket>, v: Intents, now: Time)
    ensures Subsequence(Kept(ts, v, now), ts)
    ensures forall t :: t in Kept(ts, v, now) <==>
      && t in ts && now < t.expiresAt
      && exists k :: k in v && k.0 == t.device && v[k].active && now < v[k].expiresAt
    ensures forall k :: k in Pruned(v, now) <==> k in v && v[k].active && now < v[k].expiresAt
    ensures forall k :: k in Pruned(v, now) ==> Pruned(v, now)[k] == v[k]
  {
    KeptMembers(ts, v, now);
    KeptIsSubsequence(ts, v, now);
    forall d ensures Live(v, d, now) <==> exists k :: k in v && k.0 == d && v[k].active && now < v[k].expiresAt {
      if Live(v, d, now) {
        var k :| k in v && k.0 == d && !v[k].Due(now);
        assert v[k].active && now < v[k].expiresAt;
      }
      if k :| k in v && k.0 == d && v[k].active && now < v[k].expiresAt {
        assert !v[k].Due(now);
      }
    }
  }

  lemma PrunedIsLive(v: Intents, d: DeviceId, t: Time, now: Time)
    requires t <= now
    ensures Live(Pruned(v, t), d, now) <==> Live(v, d, now)
  {
    if Live(v, d, now) {
      var k :| k in v && k.0 == d && !v[k].Due(now);
      assert k in Pruned(v, t);
    }
  }

  lemma {:induction false} KeptDependsOnLive(ts: seq<Ticket>, v: Intents, w: Intents, now: Time)
    requires forall d :: Live(v, d, now) <==> Live(w, d, now)
    ensures Kept(ts, v, now) == Kept(ts, w, now)
  {
    if ts != [] { KeptDependsOnLive(ts[1..], v, w, now); }
  }

  lemma {:induction false} KeptTwice(ts: seq<Ticket>, v: Intents, t1: Time, t2: Time)
    requires t1 <= t2
    ensures Kept(Kept(ts, v, t1), v, t2) == Kept(ts, v, t2)
  {
    if ts != [] {
      KeptTwice(ts[1..], v, t1, t2);
      if Live(v, ts[0].device, t2) {
        var k :| k in v && k.0 == ts[0].device && !v[k].Due(t2);
        assert !v[k].Due(t1);
      }
    }
  }

  /** Reconciling at t1 and again at t2 is reconciling at t2: same intents, tickets and order. */
  lemma {:induction false} ReconcileComposesInTime(ts: seq<Ticket>, v: Intents, t1: Time, t2: Time)
    requires t1 <= t2
    ensures Pruned(Pruned(v, t1), t2) == Pruned(v, t2)
    ensures Kept(Kept(ts, Pruned(v, t1), t1), Pruned(Pruned(v, t1), t2), t2)
         == Kept(ts, Pruned(v, t2), t2)
    ensures forall t :: t in Kept(ts, Pruned(v, t2), t2) ==> !t.Expired(t2) && Live(Pruned(v, t2), t.device, t2)
  {
    assert Pruned(Pruned(v, t1), t2) == Pruned(v, t2);
    forall d ensures Live(Pruned(v, t1), d, t1) <==> Live(v, d, t1) { PrunedIsLive(v, d, t1, t1); }
    forall d ensures Live(Pruned(v, t2), d, t2) <==> Live(v, d, t2) { PrunedIsLive(v, d, t2, t2); }
    KeptDependsOnLive(ts, Pruned(v, t1), v, t1);
    KeptDependsOnLive(Kept(ts, v, t1), Pruned(v, t2), v, t2);
    KeptDependsOnLive(ts, Pruned(v, t2), v, t2);
    KeptTwice(ts, v, t1, t2);
    KeptMembers(ts, Pruned(v, t2), t2);
  }

  lemma {:induction false} KeptAppend(a: seq<Ticket>, t: Ticket, v: Intents, now: Time)
    ensures Kept(a + [t], v, now) ==
            if t.Expired(now) || !Live(v, t.device, now) then Kept(a, v, now) else Kept(a, v, now) + [t]
  {
    if a == [] {
      assert [] + [t] == [t];
      assert [t][1..] == [];
    } else {
      assert (a + [t])[1..] == a[1..] + [t];
      KeptAppend(a[1..], t, v, now);
    }
  }

  // ---------- The stateful owners ----------

  class RestoreIntentRegistry {
    var values: Intents

    constructor (v: Intents)
      ensures values == v
    { values := v; }

    method Set(d: DeviceId, source: string, intent: Intent)
      modifies this
      ensures values == old(values)[(d, source) := intent]
    { values := values[(d, source) := intent]; }

    method Remove(d: DeviceId, source: string)
      modifies this
      ensures values == map k | k in old(values) && k != (d, source) :: old(values)[k]
    { values := map k | k in values && k != (d, source) :: values[k]; }

    method Prune(now: Time) returns (changed: bool)
      modifies this
      ensures values == Pruned(old(values), now)
      ensures changed <==> values != old(values)
    {
      var before := |values|;
      ghost var v := values;
      values := map k | k in values && !values[k].Due(now) :: values[k];
      assert values.Keys <= v.Keys;
      if |values| == before { SameSize(values.Keys, v.Keys); }
      changed := |values| != before;
    }

    /** Whether any source still wants the load. */
    method HasActiveSource(d: DeviceId, now: Time) returns (b: bool)
      ensures b <==> Live(values, d, now)
    {
      var live := set k | k in values && k.0 == d && !values[k].Due(now);
      b := live != {};
      assert forall k :: k in values && k.0 == d && !values[k].Due(now) ==> k in live;
      if b {
        var k :| k in live;
      }
    }
  }

  lemma SameSize<T>(a: set<T>, b: set<T>)
    requires a <= b && |a| == |b|
    ensures a == b
  {
    assert |b - a| == |b| - |a|;
  }

  class RestoreTransactions {
    var tickets: seq<Ticket>
    var pending: seq<DeviceId>

    ghost predicate Valid() reads this { Ordered(tickets, pending) }

    constructor ()
      ensures Valid() && tickets == [] && pending == []
    { tickets, pending := [], []; }

    /** The tickets become these, and the queue their keys in the same order. */
    method Hydrate(ts: seq<Ticket>)
      requires OnePerDevice(ts)
      modifies this
      ensures Valid() && tickets == ts
    { tickets, pending := ts, Devices(ts); }

    method Remove(d: DeviceId)
      modifies this
      ensures tickets == Without(old(tickets), d) && pending == RemoveFirst(old(pending), d)
      ensures old(Valid()) ==> Valid()
    {
      if Valid() { WithoutOrdered(tickets, d); }
      if d in pending {
        pending := RemoveFirst(pending, d);
      } else {
        RemoveAbsent(pending, d);
      }
      tickets := Without(tickets, d);
    }

    method Create(d: DeviceId, cause: string, operation: nat, restore: RestoreState, now: Time)
      requires Valid()
      modifies this
      ensures Valid()
      ensures tickets == Without(old(tickets), d) + [Ticket(d, cause, operation, now, now + 86400.0, restore)]
    {
      WithoutOrdered(tickets, d);
      Remove(d);
      var t := Ticket(d, cause, operation, now, now + MAX_INTENT_TTL, restore);
      AppendOrdered(tickets, t);
      tickets := tickets + [t];
      pending := pending + [d];
    }

    /** Retire expired or orphan proof; reports whether anything was retired. */
    method Reconcile(intents: RestoreIntentRegistry, now: Time) returns (changed: bool)
      requires Valid()
      modifies this, intents
      ensures Valid()
      ensures intents.values == Pruned(old(intents.values), now)
      ensures tickets == Kept(old(tickets), intents.values, now)
      ensures changed <==> intents.values != old(intents.values) || tickets != old(tickets)
    {
      changed := intents.Prune(now);
      var all := tickets;
      ghost var pruned := changed;
      ghost var v := intents.values;
      var i := 0;
      assert tickets == Progress(all, 0, v, now);
      while i < |all|
        invariant 0 <= i <= |all|
        invariant Valid() && intents.values == v
        invariant tickets == Progress(all, i, v, now) && |tickets| <= |all|
        invariant changed <==> pruned || |tickets| < |all|
      {
        ReconcileStep(tickets, all, i, v, now);
        var live := intents.HasActiveSource(all[i].device, now);
        if all[i].Expired(now) || !live {
          Remove(all[i].device);
          changed := true;
        }
        i := i + 1;
      }
      KeptAllOrFewer(all, v, now);
      WholeSlice(all, Kept(all, v, now));
    }
  }

  lemma WholeSlice(all: seq<Ticket>, done: seq<Ticket>)
    ensures all[..|all|] == all && done + all[|all|..] == done
  {}

  lemma {:induction false} KeptAllOrFewer(ts: seq<Ticket>, v: Intents, now: Time)
    ensures |Kept(ts, v, now)| <= |ts|
    ensures |Kept(ts, v, now)| == |ts| ==> Kept(ts, v, now) == ts
  {
    if ts != [] { KeptAllOrFewer(ts[1..], v, now); }
  }

  /** What the loop holds after its first i turns. */
  ghost function Progress(all: seq<Ticket>, i: nat, v: Intents, now: Time): seq<Ticket>
    requires i <= |all|
  {
    Kept(all[..i], v, now) + all[i..]
  }

  /** One loop turn: the done prefix gains the ticket, or the ticket alone is dropped. */
  lemma ReconcileStep(ts: seq<Ticket>, all: seq<Ticket>, i: nat, v: Intents, now: Time)
    requires i < |all| && OnePerDevice(ts)
    requires ts == Progress(all, i, v, now)
    ensures Progress(all, i + 1, v, now) ==
            if all[i].Expired(now) || !Live(v, all[i].device, now) then Without(ts, all[i].device) else ts
    ensures all[i].Expired(now) || !Live(v, all[i].device, now) ==> |Progress(all, i + 1, v, now)| < |ts|
  {
    if all[i].Expired(now) || !Live(v, all[i].device, now) {
      DropStep(ts, all, i, v, now);
    } else {
      KeepStep(all, i, v, now);
    }
  }

  lemma KeepStep(all: seq<Ticket>, i: nat, v: Intents, now: Time)
    requires i < |all| && !all[i].Expired(now) && Live(v, all[i].device, now)
    ensures Progress(all, i + 1, v, now) == Progress(all, i, v, now)
  {
    TakeOneMore(all, i);
    KeptAppend(all[..i], all[i], v, now);
    ShiftOne(Kept(all[..i], v, now), all, i);
  }

  lemma DropStep(ts: seq<Ticket>, all: seq<Ticket>, i: nat, v: Intents, now: Time)
    requires i < |all| && OnePerDevice(ts) && ts == Progress(all, i, v, now)
    requires all[i].Expired(now) || !Live(v, all[i].device, now)
    ensures Progress(all, i + 1, v, now) == Without(ts, all[i].device)
    ensures |Progress(all, i + 1, v, now)| < |ts|
  {
    var done := Kept(all[..i], v, now);
    TakeOneMore(all, i);
    KeptAppend(all[..i], all[i], v, now);
    CutAfter(done, all, i);
    OrderedAt(ts, |done|);
  }
}
