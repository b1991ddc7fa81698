/** Causal confirmation of a command by a bounded polling wait: readback.py. */
module Readback {
  import opened Prelude

  const IDLE_RELAY_MAX_AGE: Time := 180.0

  datatype Entity = Entity(id: nat, climate: bool)

  /** One entity state: interpreted on/off, report stamp, and the thermostat's idle flag. */
  datatype EntityState = EntityState(on: Option<bool>, reportedAt: Option<Time>, idle: bool)

  /** Everything one synchronous poll sees. */
  datatype View = View(states: map<Entity, EntityState>, now: Time)

  function StateOf(v: View, e: Entity): EntityState {
    if e in v.states then v.states[e] else EntityState(None, None, false)
  }

  ghost predicate IsMax(stamps: seq<Time>, m: Time) {
    m in stamps && forall s :: s in stamps ==> s <= m
  }

  method MaxOf(stamps: seq<Time>) returns (m: Time)
    requires stamps != []
    ensures IsMax(stamps, m)
  {
    m := stamps[0];
    var i := 1;
    while i < |stamps|
      invariant 1 <= i <= |stamps|
      invariant IsMax(stamps[..i], m)
    {
      assert stamps[..i + 1] == stamps[..i] + [stamps[i]];
      m := Max(m, stamps[i]);
      i := i + 1;
    }
    assert stamps[..i] == stamps;
  }

  /** The world the wait observes; other parties change it whenever the wait sleeps. */
  class HomeStates {
    var view: View
    var mono: Time

    constructor (v: View, m: Time)
      ensures view == v && mono == m
    { view, mono := v, m; }

    /** Reading the monotonic clock never shows an earlier instant. */
    method Monotonic() returns (t: Time)
      modifies this`mono
      ensures t == mono >= old(mono)
    {
      var elapsed: Time :| elapsed >= 0.0;
      mono := mono + elapsed;
      t := mono;
    }

    /** A sleep lasts at least as long as asked; everything else may have changed. */
    method Sleep(d: Time)
      modifies this
      ensures mono >= old(mono) + d
    {
      var extra: Time :| extra >= 0.0;
      mono := mono + d + extra;
      view := *;
    }
  }

  datatype Outcome = InvalidArguments | Waited(report: Option<Time>)

  class CausalReadback {
    const members: seq<Entity>
    const command: Entity
    const expectedOn: bool
    const previous: map<Entity, Option<Time>>

    /** Capture every member's report before dispatch. */
    constructor (members: seq<Entity>, command: Entity, expectedOn: bool, before: View)
      ensures this.members == members && this.command == command && this.expectedOn == expectedOn
      ensures forall e :: e in members || e == command ==> Previous(e) == StateOf(before, e).reportedAt
    {
      this.members, this.command, this.expectedOn := members, command, expectedOn;
      this.previous := map e | e in members + [command] :: StateOf(before, e).reportedAt;
    }

    function Previous(e: Entity): Option<Time> { if e in previous then previous[e] else None }

    /** A report at or after issuance, not from the future, and newer than the captured one. */
    predicate Causal(e: Entity, s: EntityState, issued: Time, now: Time) {
      && s.reportedAt.Some? && issued <= s.reportedAt.value <= now
      && (Previous(e).Some? ==> s.reportedAt.value > Previous(e).value)
    }

    predicate MemberConfirms(e: Entity, v: View, issued: Time) {
      Causal(e, StateOf(v, e), issued, v.now) && StateOf(v, e).on == Some(expectedOn)
    }

    predicate IdleRelay(e: Entity, v: View) {
      var s := StateOf(v, e);
      s.on == Some(false) && s.reportedAt.Some? && 0.0 <= v.now - s.reportedAt.value <= IDLE_RELAY_MAX_AGE
    }

    predicate IdleCommand(v: View, issued: Time) {
      var s := StateOf(v, command);
      command.climate && Causal(command, s, issued, v.now) && s.on == Some(true) && s.idle
    }

    /** The thermostat newly reports enabled and idle, and its relays are freshly off. */
    ghost predicate IdleConfirms(v: View, issued: Time) {
      IdleCommand(v, issued) && forall e :: e in members && e != command ==> IdleRelay(e, v)
    }

    ghost predicate AllConfirm(v: View, issued: Time) {
      forall e :: e in members ==> MemberConfirms(e, v, issued)
    }

    /** Whether one poll of this view is a successful readback. */
    ghost predicate Confirms(v: View, issued: Time) {
      members != [] && ((expectedOn && IdleConfirms(v, issued)) || AllConfirm(v, issued))
    }

    /** The stamp is the latest report among the entities that made the readback succeed. */
    ghost predicate IsConfirmation(v: View, issued: Time, t: Time) {
      && members != []
      && (forall e :: e in members ==> StateOf(v, e).reportedAt.Some? && StateOf(v, e).reportedAt.value <= t <= v.now)
      && (exists e :: (e in members || e == command) && StateOf(v, e).reportedAt == Some(t))
      && (if expectedOn && IdleConfirms(v, issued)
          then StateOf(v, command).reportedAt.value <= t
          else AllConfirm(v, issued))
    }

    method IdleClimateReport(v: View, issued: Time) returns (r: Option<Time>)
      ensures r.Some? <==> IdleConfirms(v, issued)
      ensures r.Some? && members != [] ==>
        && (forall e :: e in members + [command] ==>
              StateOf(v, e).reportedAt.Some? && StateOf(v, e).reportedAt.value <= r.value <= v.now)
        && (exists e :: e in members + [command] && StateOf(v, e).reportedAt == r)
    {
      if !IdleCommand(v, issued) { return None; }
      var confirmed := [StateOf(v, command).reportedAt.value];
      var i := 0;
      while i < |members|
        invariant 0 <= i <= |members| && confirmed != []
        invariant forall j :: 0 <= j < i && members[j] != command ==> IdleRelay(members[j], v)
        invariant StateOf(v, command).reportedAt.value in confirmed
        invariant forall j :: 0 <= j < i ==>
          StateOf(v, members[j]).reportedAt.Some? && StateOf(v, members[j]).reportedAt.value in confirmed
        invariant forall s :: s in confirmed ==>
          s <= v.now && exists e :: e in members + [command] && StateOf(v, e).reportedAt == Some(s)
      {
        var e := members[i];
        if e != command {
          if !IdleRelay(e, v) { return None; }
          confirmed := confirmed + [StateOf(v, e).reportedAt.value];
        }
        i := i + 1;
      }
      var m := MaxOf(confirmed);
      r := Some(m);
    }

    /** A report made in [issued, now] and after the one captured before the command. */
    ghost predicate NewReport(e: Entity, v: View, issued: Time) {
      var at := StateOf(v, e).reportedAt;
      at.Some? && issued <= at.value && at.value <= v.now && (Previous(e).Some? ==> Previous(e).value < at.value)
    }

    /** Every member newly reads what was commanded. */
    ghost predicate EveryMemberReads(v: View, issued: Time) {
      forall e :: e in members ==> StateOf(v, e).on == Some(expectedOn) && NewReport(e, v, issued)
    }

    /** A commanded thermostat newly reads on and idle, and every relay reads off within three minutes. */
    ghost predicate TargetReached(v: View, issued: Time) {
      && expectedOn && command.climate
      && StateOf(v, command).on == Some(true) && StateOf(v, command).idle && NewReport(command, v, issued)
      && forall e :: e in members && e != command ==>
           var s := StateOf(v, e);
           && s.on == Some(false) && s.reportedAt.Some?
           && v.now - 180.0 <= s.reportedAt.value && s.reportedAt.value <= v.now
    }

    lemma ConfirmsIff(v: View, issued: Time)
      ensures Confirms(v, issued) <==> members != [] && (EveryMemberReads(v, issued) || TargetReached(v, issued))
    {
      assert AllConfirm(v, issued) <==> EveryMemberReads(v, issued) by {
        if EveryMemberReads(v, issued) {
          forall e | e in members ensures MemberConfirms(e, v, issued) { assert StateOf(v, e).on == Some(expectedOn); }
        }
        if AllConfirm(v, issued) {
          forall e | e in members ensures StateOf(v, e).on == Some(expectedOn) && NewReport(e, v, issued) {
            assert MemberConfirms(e, v, issued);
          }
        }
      }
      if expectedOn && IdleConfirms(v, issued) {
        forall e | e in members && e != command
          ensures StateOf(v, e).on == Some(false) && StateOf(v, e).reportedAt.Some?
          ensures v.now - 180.0 <= StateOf(v, e).reportedAt.value && StateOf(v, e).reportedAt.value <= v.now
        {
          assert IdleRelay(e, v);
        }
      }
      if TargetReached(v, issued) {
        forall e | e in members && e != command ensures IdleRelay(e, v) { assert StateOf(v, e).on == Some(false); }
      }
    }

    /** A confirmed stop read every member off, and a confirmed start every member on or its target reached. */
    lemma ConfirmedStates(v: View, issued: Time, t: Time)
      requires IsConfirmation(v, issued, t)
      ensures EveryMemberReads(v, issued) || TargetReached(v, issued)
      ensures !expectedOn ==> forall e :: e in members ==> StateOf(v, e).on == Some(false)
    {
      ConfirmsIff(v, issued);
    }

    /** One poll: an answer iff this view confirms the command. */
    method ConfirmedReport(v: View, issued: Time) returns (r: Option<Time>)
      ensures r.Some? <==> members != [] && (EveryMemberReads(v, issued) || TargetReached(v, issued))
      ensures r.Some? <==> Confirms(v, issued)
      ensures r.Some? ==> IsConfirmation(v, issued, r.value)
    {
      ConfirmsIff(v, issued);
      if members == [] { return None; }
      if expectedOn {
        r := IdleClimateReport(v, issued);
        if r.Some? { return; }
      }
      var confirmed: seq<Time> := [];
      var i := 0;
      while i < |members|
        invariant 0 <= i <= |members| && |confirmed| == i
        invariant forall j :: 0 <= j < i ==>
          MemberConfirms(members[j], v, issued) && confirmed[j] == StateOf(v, members[j]).reportedAt.value
      {
        var e := members[i];
        if !MemberConfirms(e, v, issued) { return None; }
        confirmed := confirmed + [StateOf(v, e).reportedAt.value];
        i := i + 1;
      }
      var m := MaxOf(confirmed);
      ghost var k :| 0 <= k < |confirmed| && confirmed[k] == m;
      assert StateOf(v, members[k]).reportedAt == Some(m);
      forall e | e in members
        ensures MemberConfirms(e, v, issued) && StateOf(v, e).reportedAt.value <= m
      {
        var j :| 0 <= j < |members| && members[j] == e;
        assert confirmed[j] in confirmed;
      }
      r := Some(m);
    }

    /** Poll until confirmed or until the monotonic deadline; `seen` lists the views polled. */
    method Wait(world: HomeStates, issued: Time, timeout: Time, poll: Time)
      returns (r: Outcome, polls: nat, ghost seen: seq<View>)
      modifies world
      ensures r.InvalidArguments? <==> timeout < 0.0 || poll <= 0.0
      ensures r.InvalidArguments? ==> polls == 0
      ensures |seen| == polls
      ensures r.Waited? ==> 1 <= polls <= Ceiling(timeout / poll) + 1
      ensures r.Waited? && r.report.Some? ==>
        && world.view == seen[polls - 1] && IsConfirmation(world.view, issued, r.report.value)
        && (EveryMemberReads(world.view, issued) || TargetReached(world.view, issued))
        && (!expectedOn ==> forall e :: e in members ==> StateOf(world.view, e).on == Some(false))
      ensures r.Waited? && r.report.Some? ==> forall i :: 0 <= i < polls - 1 ==> !Confirms(seen[i], issued)
      ensures r.Waited? && r.report.None? ==> forall i :: 0 <= i < polls ==> !Confirms(seen[i], issued)
      ensures r.Waited? && r.report.None? ==> world.mono >= old(world.mono) + timeout
    {
      polls, seen := 0, [];
      if timeout < 0.0 || poll <= 0.0 { return InvalidArguments, 0, []; }
      var start := world.Monotonic();
      var deadline := start + timeout;
      var budget := Ceiling(timeout / poll);
      PollsFit(timeout, poll, 0);
      var again := true;
      while again
        invariant 0 <= polls <= budget + 1 && |seen| == polls
        invariant again ==> polls <= budget
        invariant forall i :: 0 <= i < polls ==> !Confirms(seen[i], issued)
        invariant world.mono >= start + Span(poll, polls) || world.mono >= deadline
        invariant !again ==> polls >= 1 && world.mono >= deadline
        decreases budget + 1 - polls, again
      {
        var confirmed := ConfirmedReport(world.view, issued);
        polls, seen := polls + 1, seen + [world.view];
        if confirmed.Some? {
          ConfirmedStates(world.view, issued, confirmed.value);
          return Waited(confirmed), polls, seen;
        }
        var clock := world.Monotonic();
        var remaining := deadline - clock;
        if remaining <= 0.0 { return Waited(None), polls, seen; }
        PollsFit(timeout, poll, polls - 1);
        SpanStep(poll, polls - 1);
        world.Sleep(if poll <= remaining then poll else remaining);
        var after := world.Monotonic();
        again := after <= deadline;
      }
      r := Waited(None);
    }
  }

  /** A full number of poll intervals that still fits the timeout stays below the poll budget. */
  lemma PollsFit(timeout: real, poll: real, n: int)
    requires timeout >= 0.0 && poll > 0.0
    ensures Ceiling(timeout / poll) >= 0
    ensures Span(poll, n) < timeout ==> n < Ceiling(timeout / poll)
    ensures Span(poll, 0) == 0.0
  {
    assert timeout / poll >= 0.0;
    if Span(poll, n) < timeout {
      assert n as real < timeout / poll;
    }
  }

  /** The least time n full polling intervals take. */
  ghost function Span(poll: real, n: int): real { n as real * poll }

  lemma SpanStep(poll: real, n: int)
    ensures Span(poll, n + 1) == Span(poll, n) + poll
  {
    assert (n + 1) as real == n as real + 1.0;
  }

  /** An aggregate report later than the confirmation is later than every required member's report. */
  lemma LaterThanEveryMember(r: CausalReadback, v: View, issued: Time, t: Time, aggregate: Time, e: Entity)
    requires r.IsConfirmation(v, issued, t) && aggregate > t && e in r.members
    ensures StateOf(v, e).reportedAt.Some? && StateOf(v, e).reportedAt.value < aggregate
    ensures !(r.expectedOn && r.IdleConfirms(v, issued)) ==> issued <= StateOf(v, e).reportedAt.value
  {
    if !(r.expectedOn && r.IdleConfirms(v, issued)) { assert r.MemberConfirms(e, v, issued); }
  }
}
