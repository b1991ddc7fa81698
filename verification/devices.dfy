/**
 * Normalizing household device records, strictly or tolerantly: device_configuration.py.
 *
 * Raw values keep the distinctions the adapters make. Texts stand for themselves without
 * surrounding white space, and a raw number for what converting it to a float yields.
 */
module Devices {
  import opened Prelude

  datatype Entity = Entity(domain: string, slug: string)

  const CONTROL := {"switch", "light", "input_boolean", "climate", "humidifier"}
  const SENSORS := {"sensor"}
  const MAX_PRIORITY := 100000
  const MAX_EXPECTED := 50000

  function Shown(e: Entity): (s: string)
    ensures s != ""
  {
    e.domain + "." + e.slug
  }

  // ---------- Raw values ----------

  datatype RawText = NotText | Text(s: string)

  /** `Blank` is the empty text, which some readers take as absent. */
  datatype RawRef = NoRef | BlankRef | BadRef | Ref(e: Entity)

  datatype RawList = NoList | Single(r: RawRef) | Several(rs: seq<RawRef>) | NotAList

  datatype RawNum = NoNum | BlankNum | Truth | Finite(v: real) | NotFinite | BadNum

  datatype RawDevice = NotAnObject | Raw(
    id: RawText, name: RawText, entity: RawRef, expectedPower: RawNum, sensor: RawRef,
    priority: RawNum, shedPriority: RawNum, actuators: RawList, command: RawRef,
    readbacks: RawList, emergency: RawList, battery: RawNum)

  datatype RawDevices = NotDevices | DeviceList(raws: seq<RawDevice>)

  datatype Device = Device(
    id: string, name: string, entity: Entity, expectedPower: int, sensor: Option<Entity>,
    priority: int, shedPriority: int, actuators: seq<Entity>, command: Entity,
    readbacks: seq<Entity>, emergency: seq<Entity>, battery: Option<real>)

  // ---------- Fields; None is the ValueError of the strict adapter ----------

  function EntityId(r: RawRef, domains: set<string>): (e: Option<Entity>)
    ensures e.Some? ==> e.value.domain in domains && e.value.slug != ""
  {
    if r.Ref? && r.e.domain in domains && r.e.slug != "" then Some(r.e) else None
  }

  function Members(rs: seq<RawRef>, strict: bool, exclude: set<Entity>): Option<seq<Entity>> {
    if rs == [] then Some([]) else
      var member := EntityId(rs[0], CONTROL);
      if member.None? || member.value in exclude then
        if strict then None else Members(rs[1..], strict, exclude)
      else Consed(member.value, Members(rs[1..], strict, exclude + {member.value}))
  }

  function EntityList(v: RawList, strict: bool, exclude: set<Entity>): Option<seq<Entity>> {
    match v
    case NoList => Some([])
    case NotAList => if strict then None else Some([])
    case Single(r) => Members([r], strict, exclude)
    case Several(rs) => Members(rs, strict, exclude)
  }

  function AsSet<T>(s: seq<T>): set<T> { set x | x in s }

  /** `_entities`. */
  method Entities(v: RawList, strict: bool, exclude: set<Entity>) returns (r: Option<seq<Entity>>)
    ensures r == EntityList(v, strict, exclude)
  {
    if v.NoList? {
      return Some([]);
    }
    if v.NotAList? {
      return if strict then None else Some([]);
    }
    var values := if v.Single? then [v.r] else v.rs;
    var result, i := [], 0;
    assert values[0..] == values && exclude + AsSet(result) == exclude;
    while i < |values|
      invariant 0 <= i <= |values|
      invariant Members(values, strict, exclude) ==
        Joined(result, Members(values[i..], strict, exclude + AsSet(result)))
    {
      var rest := values[i..];
      assert rest[0] == values[i] && rest[1..] == values[i + 1..];
      var member := EntityId(values[i], CONTROL);
      if member.None? || member.value in result || member.value in exclude {
        if strict {
          return None;
        }
      } else {
        var seen := exclude + AsSet(result);
        JoinOneMore(result, member.value, Members(values[i + 1..], strict, seen + {member.value}));
        assert exclude + AsSet(result + [member.value]) == seen + {member.value};
        result := result + [member.value];
      }
      i := i + 1;
    }
    r := Some(result);
  }

  function SafeNumber(n: RawNum, fallback: real, minimum: real, maximum: real): real {
    if n.Finite? && minimum <= n.v <= maximum then n.v else fallback
  }

  function PositiveInteger(n: RawNum, fallback: int): Option<int> {
    if n.NoNum? then Some(fallback)
    else if n.Finite? && n.v >= 1.0 && n.v == n.v.Floor as real then Some(n.v.Floor)
    else None
  }

  function Priority(n: RawNum, fallback: int, strict: bool): Option<int> {
    if strict then PositiveInteger(n, fallback)
    else Some(SafeNumber(n, fallback as real, 1.0, MAX_PRIORITY as real).Floor)
  }

  function ExpectedPower(n: RawNum, strict: bool): Option<int> {
    if !strict then Some(Ceiling(SafeNumber(n, 1.0, 1.0, MAX_EXPECTED as real)))
    else if n.Finite? && 1.0 <= n.v <= MAX_EXPECTED as real then Some(Ceiling(n.v))
    else None
  }

  function BatteryMinimum(n: RawNum): Option<real> {
    if n.Finite? && 0.0 < n.v <= 100.0 then Some(n.v) else None
  }

  function FirstClimate(es: seq<Entity>, fallback: Entity): Entity {
    if es == [] then fallback else if es[0].domain == "climate" then es[0] else FirstClimate(es[1..], fallback)
  }

  function CommandOf(raw: RawDevice, entity: Entity, actuators: seq<Entity>): Entity
    requires raw.Raw?
  {
    var given := EntityId(raw.command, CONTROL);
    if given.Some? then given.value else FirstClimate(actuators, entity)
  }

  function Or<T>(es: seq<T>, fallback: seq<T>): seq<T> { if es == [] then fallback else es }

  // ---------- Records ----------

  datatype Outcome = ValueError | Skipped | Made(d: Device)

  predicate HasIdentity(raw: RawDevice)
    requires raw.Raw?
  {
    raw.id.Text? && raw.id.s != "" && EntityId(raw.entity, CONTROL).Some?
  }

  /** The strict adapter's other refusals: a present sensor or battery minimum that cannot be read. */
  predicate Unreadable(raw: RawDevice)
    requires raw.Raw?
  {
    || (!raw.sensor.NoRef? && !raw.sensor.BlankRef? && EntityId(raw.sensor, SENSORS).None?)
    || (!raw.battery.NoNum? && !raw.battery.BlankNum? && BatteryMinimum(raw.battery).None?)
  }

  /** `_record` with `_roles`. */
  function RecordOf(raw: RawDevice, index: nat, seen: set<Entity>, strict: bool): Outcome
    requires raw.Raw?
  {
    if !HasIdentity(raw) then (if strict then ValueError else Skipped) else
      var entity := EntityId(raw.entity, CONTROL).value;
      var actuators := EntityList(raw.actuators, strict, {entity} + seen);
      var readbacks := EntityList(raw.readbacks, strict, {});
      var emergency := EntityList(raw.emergency, strict, {});
      var power := ExpectedPower(raw.expectedPower, strict);
      var priority := Priority(raw.priority, index + 1, strict);
      if actuators.None? || readbacks.None? || emergency.None? || power.None? || priority.None? then ValueError else
        var shed := Priority(raw.shedPriority, priority.value, strict);
        if shed.None? || (strict && Unreadable(raw)) then ValueError else
          var command := CommandOf(raw, entity, actuators.value);
          Made(Device(
            raw.id.s, if raw.name.Text? && raw.name.s != "" then raw.name.s else Shown(entity), entity,
            power.value, EntityId(raw.sensor, SENSORS), priority.value, shed.value, actuators.value, command,
            Or(readbacks.value, [if command.domain == "climate" then entity else command]),
            Or(emergency.value, if command != entity then [entity] else []),
            BatteryMinimum(raw.battery)))
  }

  /** A present list is one readable name or a list of readings; anything else is no list at all. */
  ghost predicate ReadsAs(v: RawList, rs: seq<RawRef>) {
    match v
    case NoList => rs == []
    case NotAList => false
    case Single(r) => rs == [r]
    case Several(all) => rs == all
  }

  ghost predicate Controllable(r: RawRef) {
    r.Ref? && r.e.slug != "" && r.e.domain in {"switch", "light", "input_boolean", "climate", "humidifier"}
  }

  lemma {:induction false} MembersFacts(rs: seq<RawRef>, strict: bool, exclude: set<Entity>)
    ensures Members(rs, false, exclude).Some?
    ensures forall e :: e in Members(rs, false, exclude).value <==>
      e !in exclude && Ref(e) in rs && Controllable(Ref(e))
    ensures Members(rs, true, exclude).Some? ==>
      Members(rs, true, exclude) == Members(rs, false, exclude) && |Members(rs, true, exclude).value| == |rs|
    ensures |Members(rs, false, exclude).value| <= |rs|
    ensures |Members(rs, false, exclude).value| == |rs| ==> Members(rs, true, exclude).Some?
  {
    if rs != [] {
      var member := EntityId(rs[0], CONTROL);
      assert member.Some? <==> Controllable(rs[0]);
      if member.Some? { assert rs[0] == Ref(member.value); }
      assert forall r :: r in rs <==> r == rs[0] || r in rs[1..];
      MembersFacts(rs[1..], strict, exclude);
      if member.Some? { MembersFacts(rs[1..], strict, exclude + {member.value}); }
    }
  }

  /** Which entities a list yields: the controllable ones outside the excluded set, each once. The strict
      adapter accepts exactly the lists of which it would drop nothing. */
  lemma EntityListFacts(v: RawList, rs: seq<RawRef>, exclude: set<Entity>)
    requires ReadsAs(v, rs)
    ensures EntityList(v, false, exclude).Some?
    ensures var es := EntityList(v, false, exclude).value;
      && (forall e :: e in es <==> e !in exclude && Ref(e) in rs && Controllable(Ref(e)))
      && (EntityList(v, true, exclude) == if |es| == |rs| then Some(es) else None)
  {
    MembersFacts(rs, true, exclude);
  }

  /** A priority as the adapters read it: the given one, or the fallback. Strictly only a missing one falls back,
      and only a whole number from 1 is accepted; tolerantly all but 1 to 100000 falls back, cut to a whole one. */
  lemma PriorityFacts(n: RawNum, fallback: int)
    ensures Priority(n, fallback, true) ==
      if n.NoNum? then Some(fallback)
      else if n.Finite? && n.v >= 1.0 && n.v.Floor as real == n.v then Some(n.v.Floor) else None
    ensures Priority(n, fallback, false) ==
      Some(if n.Finite? && 1.0 <= n.v <= 100000.0 then n.v.Floor else fallback)
  {}

  /** Expected power is rounded up to a whole watt from 1 to 50000; strictly nothing else is accepted, and
      tolerantly everything else counts as one watt. */
  lemma ExpectedPowerFacts(n: RawNum, strict: bool)
    ensures n.Finite? && 1.0 <= n.v <= 50000.0 ==>
      && ExpectedPower(n, strict).Some?
      && ExpectedPower(n, strict).value as real >= n.v && (ExpectedPower(n, strict).value - 1) as real < n.v
    ensures !(n.Finite? && 1.0 <= n.v <= 50000.0) ==> ExpectedPower(n, strict) == if strict then None else Some(1)
  {}

  ghost predicate FirstClimateAt(es: seq<Entity>, i: int) {
    0 <= i < |es| && es[i].domain == "climate" && forall j :: 0 <= j < i ==> es[j].domain != "climate"
  }

  lemma {:induction false} FirstClimateFacts(es: seq<Entity>, fallback: Entity)
    ensures (forall e :: e in es ==> e.domain != "climate") ==> FirstClimate(es, fallback) == fallback
    ensures (exists e :: e in es && e.domain == "climate") ==>
      exists i :: FirstClimateAt(es, i) && FirstClimate(es, fallback) == es[i]
  {
    if es != [] {
      FirstClimateFacts(es[1..], fallback);
      if es[0].domain == "climate" {
        assert FirstClimateAt(es, 0);
      } else if exists e :: e in es && e.domain == "climate" {
        var i :| FirstClimateAt(es[1..], i) && FirstClimate(es[1..], fallback) == es[1..][i];
        assert FirstClimateAt(es, i + 1);
      }
    }
  }

  /** The roles of a record: the given command if it can be controlled, else the first climate actuator, else the
      entity; the given readbacks, else the command, or for a climate command the entity; the given
      emergency members, else the entity when something else commands it. */
  lemma RecordRoles(raw: RawDevice, index: nat, seen: set<Entity>, strict: bool)
    requires raw.Raw? && RecordOf(raw, index, seen, strict).Made?
    ensures var d := RecordOf(raw, index, seen, strict).d;
      && raw.id == Text(d.id) && raw.entity == Ref(d.entity) && Controllable(raw.entity) && d.id != ""
      && (d.name == if raw.name.Text? && raw.name.s != "" then raw.name.s else d.entity.domain + "." + d.entity.slug)
      && (d.sensor == if raw.sensor.Ref? && raw.sensor.e.slug != "" && raw.sensor.e.domain == "sensor"
                      then Some(raw.sensor.e) else None)
      && (d.battery == if raw.battery.Finite? && 0.0 < raw.battery.v <= 100.0 then Some(raw.battery.v) else None)
      && (if Controllable(raw.command) then raw.command == Ref(d.command)
          else if exists e :: e in d.actuators && e.domain == "climate"
          then exists i :: FirstClimateAt(d.actuators, i) && d.command == d.actuators[i]
          else d.command == d.entity)
  {
    FirstClimateFacts(RecordOf(raw, index, seen, strict).d.actuators, RecordOf(raw, index, seen, strict).d.entity);
  }

  lemma RecordLists(raw: RawDevice, index: nat, seen: set<Entity>, strict: bool)
    requires raw.Raw? && RecordOf(raw, index, seen, strict).Made?
    ensures var d := RecordOf(raw, index, seen, strict).d;
      && Some(d.actuators) == EntityList(raw.actuators, strict, {d.entity} + seen)
      && (var given := EntityList(raw.readbacks, strict, {}).value;
          d.readbacks ==
            if given != [] then given else if d.command.domain == "climate" then [d.entity] else [d.command])
      && (var given := EntityList(raw.emergency, strict, {}).value;
          d.emergency == if given != [] then given else if d.command == d.entity then [] else [d.entity])
      && Some(d.expectedPower) == ExpectedPower(raw.expectedPower, strict)
      && Some(d.priority) == Priority(raw.priority, index + 1, strict)
      && Some(d.shedPriority) == Priority(raw.shedPriority, d.priority, strict)
  {}

  /** Which records the strict adapter refuses and the tolerant one skips. */
  lemma RecordIsMadeIff(raw: RawDevice, index: nat, seen: set<Entity>)
    requires raw.Raw?
    ensures RecordOf(raw, index, seen, false).Made? <==> raw.id.Text? && raw.id.s != "" && Controllable(raw.entity)
    ensures !RecordOf(raw, index, seen, false).Made? ==> RecordOf(raw, index, seen, false).Skipped?
    ensures RecordOf(raw, index, seen, true).Made? || RecordOf(raw, index, seen, true).ValueError?
    ensures RecordOf(raw, index, seen, true).Made? <==>
      && raw.id.Text? && raw.id.s != "" && Controllable(raw.entity)
      && EntityList(raw.actuators, true, {raw.entity.e} + seen).Some?
      && EntityList(raw.readbacks, true, {}).Some? && EntityList(raw.emergency, true, {}).Some?
      && raw.expectedPower.Finite? && 1.0 <= raw.expectedPower.v <= 50000.0
      && Priority(raw.priority, index + 1, true).Some?
      && Priority(raw.shedPriority, Priority(raw.priority, index + 1, true).value, true).Some?
      && (raw.sensor.Ref? ==> raw.sensor.e.slug != "" && raw.sensor.e.domain == "sensor") && !raw.sensor.BadRef?
      && (raw.battery.NoNum? || raw.battery.BlankNum? || (raw.battery.Finite? && 0.0 < raw.battery.v <= 100.0))
  {
    TolerantListsAreRead(raw.actuators, if raw.entity.Ref? then {raw.entity.e} + seen else seen);
    TolerantListsAreRead(raw.readbacks, {});
    TolerantListsAreRead(raw.emergency, {});
  }

  lemma TolerantListsAreRead(v: RawList, exclude: set<Entity>)
    ensures EntityList(v, false, exclude).Some?
  {
    match v
    case Single(r) => MembersFacts([r], false, exclude);
    case Several(rs) => MembersFacts(rs, false, exclude);
    case _ =>
  }

  function Owned(d: Device): set<Entity> { {d.entity} + AsSet(d.actuators) }

  datatype Seen = Seen(ids: set<string>, entities: set<Entity>, priorities: set<int>)

  const NOTHING_SEEN := Seen({}, {}, {})

  function After(seen: Seen, d: Device): Seen {
    Seen(seen.ids + {d.id}, seen.entities + Owned(d), seen.priorities + {d.priority})
  }

  /** One record against what came before it. */
  function Admit(raw: RawDevice, index: nat, seen: Seen, strict: bool): Outcome {
    if raw.NotAnObject? then (if strict then ValueError else Skipped) else
      var record := RecordOf(raw, index, seen.entities, strict);
      if !record.Made? then record
      else if record.d.id in seen.ids || record.d.entity in seen.entities then (if strict then ValueError else Skipped)
      else if strict && record.d.priority in seen.priorities then ValueError
      else record
  }

  /** What becomes of a record after those before it: kept iff it is made, its identity and entity are new, and,
      strictly, its priority is; otherwise the strict adapter refuses the list and the tolerant one skips it. */
  lemma AdmittedIff(raw: RawDevice, index: nat, seen: Seen, strict: bool)
    ensures Admit(raw, index, seen, strict).Made? <==>
      && raw.Raw? && RecordOf(raw, index, seen.entities, strict).Made?
      && (var d := RecordOf(raw, index, seen.entities, strict).d;
          d.id !in seen.ids && d.entity !in seen.entities && (strict ==> d.priority !in seen.priorities))
    ensures Admit(raw, index, seen, strict).Made? ==>
      Admit(raw, index, seen, strict) == RecordOf(raw, index, seen.entities, strict)
    ensures !Admit(raw, index, seen, strict).Made? ==>
      Admit(raw, index, seen, strict) == if strict then ValueError else Skipped
  {
    if raw.Raw? { RecordIsMadeIff(raw, index, seen.entities); }
  }

  function NormalizeFrom(raws: seq<RawDevice>, index: nat, seen: Seen, strict: bool): Option<seq<Device>> {
    if raws == [] then Some([]) else
      var first := Admit(raws[0], index, seen, strict);
      match first
      case ValueError => None
      case Skipped => NormalizeFrom(raws[1..], index + 1, seen, strict)
      case Made(d) => Consed(d, NormalizeFrom(raws[1..], index + 1, After(seen, d), strict))
  }

  function Normalized(v: RawDevices, strict: bool): Option<seq<Device>> {
    if v.NotDevices? then (if strict then None else Some([])) else NormalizeFrom(v.raws, 0, NOTHING_SEEN, strict)
  }

  /** `normalize_devices`. */
  method NormalizeDevices(v: RawDevices, strict: bool) returns (r: Option<seq<Device>>)
    ensures r == Normalized(v, strict)
  {
    if v.NotDevices? {
      return if strict then None else Some([]);
    }
    var normalized: seq<Device> := [];
    var ids, entities, priorities := {}, {}, {};
    var index := 0;
    assert v.raws[0..] == v.raws;
    while index < |v.raws|
      invariant 0 <= index <= |v.raws|
      invariant Normalized(v, strict) ==
        Joined(normalized, NormalizeFrom(v.raws[index..], index, Seen(ids, entities, priorities), strict))
    {
      var raw := v.raws[index];
      ghost var rest := v.raws[index..];
      assert rest[0] == raw && rest[1..] == v.raws[index + 1..];
      index := index + 1;
      if raw.NotAnObject? {
        if strict {
          return None;
        }
        continue;
      }
      var record := RecordOf(raw, index - 1, entities, strict);
      if record.ValueError? {
        return None;
      }
      if record.Skipped? {
        continue;
      }
      if record.d.id in ids || record.d.entity in entities {
        if strict {
          return None;
        }
        continue;
      }
      if strict && record.d.priority in priorities {
        return None;
      }
      JoinOneMore(normalized, record.d,
        NormalizeFrom(v.raws[index..], index, After(Seen(ids, entities, priorities), record.d), strict));
      normalized := normalized + [record.d];
      ids, entities, priorities := ids + {record.d.id}, entities + Owned(record.d), priorities + {record.d.priority};
    }
    r := Some(normalized);
  }

  // ---------- Complete records ----------

  predicate IsControl(e: Entity) { e.domain in CONTROL && e.slug != "" }

  ghost predicate ProperList(es: seq<Entity>, exclude: set<Entity>) {
    Distinct(es) && forall e :: e in es ==> IsControl(e) && e !in exclude
  }

  ghost predicate Complete(d: Device) {
    && d.id != "" && d.name != "" && IsControl(d.entity) && IsControl(d.command)
    && 1 <= d.expectedPower <= MAX_EXPECTED && d.priority >= 1 && d.shedPriority >= 1
    && (d.sensor.Some? ==> d.sensor.value.domain in SENSORS && d.sensor.value.slug != "")
    && (d.battery.Some? ==> 0.0 < d.battery.value <= 100.0)
    && ProperList(d.actuators, {d.entity})
    && ProperList(d.readbacks, {}) && d.readbacks != []
    && ProperList(d.emergency, {}) && (d.emergency == [] ==> d.command == d.entity)
  }

  lemma {:induction false} MembersAreProper(rs: seq<RawRef>, strict: bool, exclude: set<Entity>)
    requires Members(rs, strict, exclude).Some?
    ensures ProperList(Members(rs, strict, exclude).value, exclude)
  {
    if rs != [] {
      var member := EntityId(rs[0], CONTROL);
      if member.None? || member.value in exclude {
        MembersAreProper(rs[1..], strict, exclude);
      } else {
        MembersAreProper(rs[1..], strict, exclude + {member.value});
      }
    }
  }

  lemma EntityListIsProper(v: RawList, strict: bool, exclude: set<Entity>)
    requires EntityList(v, strict, exclude).Some?
    ensures ProperList(EntityList(v, strict, exclude).value, exclude)
  {
    match v
    case Single(r) => MembersAreProper([r], strict, exclude);
    case Several(rs) => MembersAreProper(rs, strict, exclude);
    case _ =>
  }

  lemma {:induction false} FirstClimateIsControl(es: seq<Entity>, fallback: Entity)
    requires IsControl(fallback) && forall e :: e in es ==> IsControl(e)
    ensures IsControl(FirstClimate(es, fallback))
  {
    if es != [] { FirstClimateIsControl(es[1..], fallback); }
  }

  lemma RecordIsComplete(raw: RawDevice, index: nat, seen: set<Entity>, strict: bool)
    requires raw.Raw? && RecordOf(raw, index, seen, strict).Made?
    ensures var d := RecordOf(raw, index, seen, strict).d; Complete(d) && AsSet(d.actuators) !! seen
  {
    var d := RecordOf(raw, index, seen, strict).d;
    EntityListIsProper(raw.actuators, strict, {d.entity} + seen);
    EntityListIsProper(raw.readbacks, strict, {});
    EntityListIsProper(raw.emergency, strict, {});
    FirstClimateIsControl(d.actuators, d.entity);
  }

  /** Complete records, each with its own identity, entities and (strictly) priority. */
  ghost predicate Separate(ds: seq<Device>, seen: Seen, strict: bool) {
    ds == [] ||
      (&& Complete(ds[0]) && ds[0].id !in seen.ids && Owned(ds[0]) !! seen.entities
       && (strict ==> ds[0].priority !in seen.priorities)
       && Separate(ds[1..], After(seen, ds[0]), strict))
  }

  lemma {:induction false} NormalizedIsSeparate(raws: seq<RawDevice>, index: nat, seen: Seen, strict: bool)
    requires NormalizeFrom(raws, index, seen, strict).Some?
    ensures Separate(NormalizeFrom(raws, index, seen, strict).value, seen, strict)
  {
    if raws != [] {
      match Admit(raws[0], index, seen, strict)
      case Skipped => NormalizedIsSeparate(raws[1..], index + 1, seen, strict);
      case Made(d) =>
        RecordIsComplete(raws[0], index, seen.entities, strict);
        NormalizedIsSeparate(raws[1..], index + 1, After(seen, d), strict);
        var out := NormalizeFrom(raws, index, seen, strict).value;
        assert out[0] == d && out[1..] == NormalizeFrom(raws[1..], index + 1, After(seen, d), strict).value;
    }
  }

  lemma {:induction false} SeparateAt(ds: seq<Device>, seen: Seen, strict: bool, j: nat)
    requires Separate(ds, seen, strict) && j < |ds|
    ensures Complete(ds[j]) && ds[j].id !in seen.ids && Owned(ds[j]) !! seen.entities
    ensures strict ==> ds[j].priority !in seen.priorities
  {
    if j > 0 { SeparateAt(ds[1..], After(seen, ds[0]), strict, j - 1); }
  }

  lemma {:induction false} SeparatePair(ds: seq<Device>, seen: Seen, strict: bool, i: nat, j: nat)
    requires Separate(ds, seen, strict) && i < j < |ds|
    ensures ds[i].id != ds[j].id && Owned(ds[i]) !! Owned(ds[j])
    ensures strict ==> ds[i].priority != ds[j].priority
  {
    if i == 0 {
      SeparateAt(ds[1..], After(seen, ds[0]), strict, j - 1);
    } else {
      SeparatePair(ds[1..], After(seen, ds[0]), strict, i - 1, j - 1);
    }
  }

  /** Whatever is read, no two normalized loads share an identity or any entity they control. */
  lemma NormalizedLoadsAreDisjoint(v: RawDevices, strict: bool, i: nat, j: nat)
    requires Normalized(v, strict).Some? && i < j < |Normalized(v, strict).value|
    ensures var ds := Normalized(v, strict).value;
      && ds[i].id != ds[j].id && Owned(ds[i]) !! Owned(ds[j])
      && (strict ==> ds[i].priority != ds[j].priority)
  {
    NormalizedIsSeparate(v.raws, 0, NOTHING_SEEN, strict);
    SeparatePair(Normalized(v, strict).value, NOTHING_SEEN, strict, i, j);
  }

  lemma NormalizedLoadIsComplete(v: RawDevices, strict: bool, i: nat)
    requires Normalized(v, strict).Some? && i < |Normalized(v, strict).value|
    ensures Complete(Normalized(v, strict).value[i])
  {
    NormalizedIsSeparate(v.raws, 0, NOTHING_SEEN, strict);
    SeparateAt(Normalized(v, strict).value, NOTHING_SEEN, strict, i);
  }

  lemma {:induction false} TolerantNeverRefusesFrom(raws: seq<RawDevice>, index: nat, seen: Seen)
    ensures NormalizeFrom(raws, index, seen, false).Some?
  {
    if raws != [] {
      AdmittedIff(raws[0], index, seen, false);
      var first := Admit(raws[0], index, seen, false);
      TolerantNeverRefusesFrom(raws[1..], index + 1, if first.Made? then After(seen, first.d) else seen);
    }
  }

  lemma {:induction false} StrictKeepsAllFrom(raws: seq<RawDevice>, index: nat, seen: Seen)
    requires NormalizeFrom(raws, index, seen, true).Some?
    ensures |NormalizeFrom(raws, index, seen, true).value| == |raws|
  {
    if raws != [] {
      AdmittedIff(raws[0], index, seen, true);
      StrictKeepsAllFrom(raws[1..], index + 1, After(seen, Admit(raws[0], index, seen, true).d));
    }
  }

  /** The tolerant adapter refuses nothing and reads what is no list as empty; the strict one refuses what is no
      list and drops no record of what it accepts. */
  lemma RefusesOrKeeps(v: RawDevices)
    ensures Normalized(v, false).Some? && (v.NotDevices? ==> Normalized(v, false) == Some([]))
    ensures Normalized(v, true).Some? ==> v.DeviceList? && |Normalized(v, true).value| == |v.raws|
  {
    if v.DeviceList? {
      TolerantNeverRefusesFrom(v.raws, 0, NOTHING_SEEN);
      if Normalized(v, true).Some? { StrictKeepsAllFrom(v.raws, 0, NOTHING_SEEN); }
    }
  }

  // ---------- Normalizing again ----------

  function Refs(es: seq<Entity>): (rs: seq<RawRef>)
    ensures |rs| == |es| && forall i :: 0 <= i < |es| ==> rs[i] == Ref(es[i])
  {
    seq(|es|, i requires 0 <= i < |es| => Ref(es[i]))
  }

  /** A complete record as it is stored and read back. */
  function Stored(d: Device): RawDevice {
    Raw(Text(d.id), Text(d.name), Ref(d.entity), Finite(d.expectedPower as real),
        if d.sensor.Some? then Ref(d.sensor.value) else NoRef,
        Finite(d.priority as real), Finite(d.shedPriority as real), Several(Refs(d.actuators)), Ref(d.command),
        Several(Refs(d.readbacks)), Several(Refs(d.emergency)),
        if d.battery.Some? then Finite(d.battery.value) else NoNum)
  }

  function StoredAll(ds: seq<Device>): (raws: seq<RawDevice>)
    ensures |raws| == |ds|
  {
    if ds == [] then [] else [Stored(ds[0])] + StoredAll(ds[1..])
  }

  lemma {:induction false} ProperListIsFixed(es: seq<Entity>, strict: bool, exclude: set<Entity>)
    requires ProperList(es, exclude)
    ensures Members(Refs(es), strict, exclude) == Some(es)
  {
    if es != [] {
      assert Refs(es)[1..] == Refs(es[1..]);
      forall e | e in es[1..] ensures e != es[0] {
        var i :| 0 < i < |es| && es[i] == e;
        assert es[0] != es[i];
      }
      ProperListIsFixed(es[1..], strict, exclude + {es[0]});
      assert [es[0]] + es[1..] == es;
    }
  }

  predicate PrioritiesFit(d: Device) { d.priority <= MAX_PRIORITY && d.shedPriority <= MAX_PRIORITY }

  lemma NumbersAreFixed(d: Device, fallback: int, strict: bool)
    requires Complete(d) && (strict || PrioritiesFit(d))
    ensures Priority(Finite(d.priority as real), fallback, strict) == Some(d.priority)
    ensures Priority(Finite(d.shedPriority as real), fallback, strict) == Some(d.shedPriority)
    ensures ExpectedPower(Finite(d.expectedPower as real), strict) == Some(d.expectedPower)
  {}

  lemma ListsAreFixed(d: Device, seen: set<Entity>, strict: bool)
    requires Complete(d) && Owned(d) !! seen
    ensures EntityList(Stored(d).actuators, strict, {d.entity} + seen) == Some(d.actuators)
    ensures EntityList(Stored(d).readbacks, strict, {}) == Some(d.readbacks)
    ensures EntityList(Stored(d).emergency, strict, {}) == Some(d.emergency)
  {
    forall e | e in d.actuators ensures e !in {d.entity} + seen { assert e in Owned(d); }
    ProperListIsFixed(d.actuators, strict, {d.entity} + seen);
    ProperListIsFixed(d.readbacks, strict, {});
    ProperListIsFixed(d.emergency, strict, {});
  }

  lemma CompleteIsFixed(d: Device, index: nat, seen: set<Entity>, strict: bool)
    requires Complete(d) && Owned(d) !! seen && (strict || PrioritiesFit(d))
    ensures RecordOf(Stored(d), index, seen, strict) == Made(d)
  {
    ListsAreFixed(d, seen, strict);
    NumbersAreFixed(d, index + 1, strict);
    NumbersAreFixed(d, d.priority, strict);
    assert !Unreadable(Stored(d));
  }

  lemma {:induction false} SeparateIsFixed(ds: seq<Device>, index: nat, seen: Seen, strict: bool)
    requires Separate(ds, seen, strict) && (strict || forall d :: d in ds ==> PrioritiesFit(d))
    ensures NormalizeFrom(StoredAll(ds), index, seen, strict) == Some(ds)
  {
    if ds != [] {
      CompleteIsFixed(ds[0], index, seen.entities, strict);
      SeparateIsFixed(ds[1..], index + 1, After(seen, ds[0]), strict);
      assert StoredAll(ds)[1..] == StoredAll(ds[1..]);
      assert [ds[0]] + ds[1..] == ds;
    }
  }

  /** Normalizing what normalization stored changes nothing; the tolerant adapter needs the
      priorities in the range it keeps. */
  lemma NormalizingAgainChangesNothing(v: RawDevices, strict: bool)
    requires Normalized(v, strict).Some?
    requires strict || forall d :: d in Normalized(v, strict).value ==> PrioritiesFit(d)
    ensures Normalized(DeviceList(StoredAll(Normalized(v, strict).value)), strict) == Normalized(v, strict)
  {
    if v.DeviceList? { NormalizedIsSeparate(v.raws, 0, NOTHING_SEEN, strict); }
    SeparateIsFixed(Normalized(v, strict).value, 0, NOTHING_SEEN, strict);
  }

  // ---------- The tolerant adapter on what the strict one accepts ----------

  lemma {:induction false} StrictMembersAgree(rs: seq<RawRef>, exclude: set<Entity>)
    requires Members(rs, true, exclude).Some?
    ensures Members(rs, false, exclude) == Members(rs, true, exclude)
  {
    if rs != [] { StrictMembersAgree(rs[1..], exclude + {EntityId(rs[0], CONTROL).value}); }
  }

  lemma StrictListsAgree(v: RawList, exclude: set<Entity>)
    requires EntityList(v, true, exclude).Some?
    ensures EntityList(v, false, exclude) == EntityList(v, true, exclude)
  {
    match v
    case Single(r) => StrictMembersAgree([r], exclude);
    case Several(rs) => StrictMembersAgree(rs, exclude);
    case _ =>
  }

  /** Each priority is in the tolerant range, or is what the tolerant adapter falls back to. */
  predicate SurvivesTolerance(d: Device, index: nat) {
    && (d.priority <= MAX_PRIORITY || d.priority == index + 1)
    && (d.shedPriority <= MAX_PRIORITY || d.shedPriority == d.priority)
  }

  lemma StrictRecordAgrees(raw: RawDevice, index: nat, seen: set<Entity>)
    requires raw.Raw? && RecordOf(raw, index, seen, true).Made?
    ensures var strictly, tolerantly := RecordOf(raw, index, seen, true), RecordOf(raw, index, seen, false);
      && tolerantly.Made? && (tolerantly == strictly <==> SurvivesTolerance(strictly.d, index))
      && tolerantly.d.id == strictly.d.id && tolerantly.d.entity == strictly.d.entity
      && tolerantly.d.actuators == strictly.d.actuators
  {
    var d := RecordOf(raw, index, seen, true).d;
    StrictListsAgree(raw.actuators, {d.entity} + seen);
    StrictListsAgree(raw.readbacks, {});
    StrictListsAgree(raw.emergency, {});
    var p := Priority(raw.priority, index + 1, false).value;
    assert d.priority == p <==> d.priority <= MAX_PRIORITY || d.priority == index + 1;
  }

  ghost predicate AllSurvive(ds: seq<Device>, index: nat) {
    forall i :: 0 <= i < |ds| ==> SurvivesTolerance(ds[i], index + i)
  }

  /** The two adapters' sets differ at most in the priorities, which the tolerant one never reads. */
  lemma {:induction false} StrictListAgrees(raws: seq<RawDevice>, index: nat, seen: Seen, loose: Seen)
    requires NormalizeFrom(raws, index, seen, true).Some? && loose.ids == seen.ids && loose.entities == seen.entities
    ensures var strictly := NormalizeFrom(raws, index, seen, true);
      && |strictly.value| == |raws|
      && NormalizeFrom(raws, index, loose, false).Some?
      && (NormalizeFrom(raws, index, loose, false) == strictly <==> AllSurvive(strictly.value, index))
  {
    if raws != [] {
      StrictRecordAgrees(raws[0], index, seen.entities);
      var d := Admit(raws[0], index, seen, true).d;
      var e := Admit(raws[0], index, loose, false).d;
      StrictListAgrees(raws[1..], index + 1, After(seen, d), After(loose, e));
      AgreeAtHead(d, e, NormalizeFrom(raws[1..], index + 1, After(seen, d), true).value,
        NormalizeFrom(raws[1..], index + 1, After(loose, e), false).value, index);
    }
  }

  lemma AgreeAtHead(d: Device, e: Device, ds: seq<Device>, es: seq<Device>, index: nat)
    requires e == d <==> SurvivesTolerance(d, index)
    requires es == ds <==> AllSurvive(ds, index + 1)
    ensures [e] + es == [d] + ds <==> AllSurvive([d] + ds, index)
  {
    var all := [d] + ds;
    assert ([e] + es)[0] == e && ([e] + es)[1..] == es && all[0] == d && all[1..] == ds;
    if AllSurvive(all, index) {
      forall i | 0 <= i < |ds| ensures SurvivesTolerance(ds[i], index + 1 + i) { assert all[i + 1] == ds[i]; }
    }
  }

  /** On every list the strict adapter accepts, the tolerant one also keeps every record, and gives
      the same ones exactly when each priority is at most 100000 or is the fallback anyway. */
  lemma TolerantAgreesWithStrict(v: RawDevices)
    requires Normalized(v, true).Some?
    ensures Normalized(v, false) == Normalized(v, true) <==> AllSurvive(Normalized(v, true).value, 0)
    ensures Normalized(v, false).Some? && |Normalized(v, true).value| == |v.raws|
  {
    StrictListAgrees(v.raws, 0, NOTHING_SEEN, NOTHING_SEEN);
  }
}
