/**
 * Threshold derivation and entry migration: policy.py and __init__.py.
 *
 * A stored payload maps keys to values as read from configuration; text is reduced to what
 * converting it to a float yields.
 */
module Migration {
  import opened Prelude

  const MAX_POWER := 100000.0
  const MAX_DURATION := 86400.0
  const MAX_TIERS := 64
  const TIER_GAP := 0.000000001

  // ---------- Payloads ----------

  datatype Num = Truth(b: bool) | Finite(v: real) | NotFinite | Unreadable

  datatype Field = PowerLimit | LimitW | DurationS | TimeS

  datatype Item = NotAMapping | Item(fields: map<Field, Num>)

  datatype Named = Sustained | Fast | Critical

  /** `Setting` stands for every other key that migration keeps, `Retired` for every other one it drops. */
  datatype Key =
    | Thresholds | MaxLoad | Limit(tier: Named) | Duration(tier: Named)
    | ReconfigurationRequired | Devices | Setting(name: string) | Retired(name: string)

  datatype DeviceKey = Kept(name: string) | Dropped(name: string)

  datatype Record = NotARecord | Record(fields: map<DeviceKey, int>)

  datatype Value = Number(n: Num) | Items(items: seq<Item>) | Records(records: seq<Record>) | Flag | Other(tag: int)

  type Payload = map<Key, Value>

  datatype Pair = Pair(limit: real, duration: real)

  // ---------- Deriving thresholds ----------

  /** What `float` makes of a raw number inside a threshold list, where a truth value is 1 or 0. */
  function AsFloat(n: Num): Option<real> {
    match n
    case Truth(b) => Some(if b then 1.0 else 0.0)
    case Finite(v) => Some(v)
    case _ => None
  }

  /** A legacy number: a truth value is refused and both bounds are inclusive. */
  function FiniteNumber(v: Value, minimum: real, maximum: real): Option<real> {
    if v.Number? && v.n.Finite? && minimum <= v.n.v <= maximum then Some(v.n.v) else None
  }

  predicate ValidPair(p: Pair, previous: real) {
    previous < p.limit <= MAX_POWER && 0.0 <= p.duration <= MAX_DURATION
  }

  predicate ValidFrom(ps: seq<Pair>, previous: real) {
    ps == [] || (ValidPair(ps[0], previous) && ValidFrom(ps[1..], ps[0].limit))
  }

  function Pick(fields: map<Field, Num>, preferred: Field, fallback: Field): Num {
    if preferred in fields then fields[preferred]
    else if fallback in fields then fields[fallback]
    else Unreadable
  }

  function ParseItem(item: Item, previous: real): Option<Pair> {
    if item.NotAMapping? then None else
      var limit := AsFloat(Pick(item.fields, PowerLimit, LimitW));
      var duration := AsFloat(Pick(item.fields, DurationS, TimeS));
      if limit.Some? && duration.Some? && ValidPair(Pair(limit.value, duration.value), previous)
      then Some(Pair(limit.value, duration.value)) else None
  }

  function Parse(items: seq<Item>, previous: real): Option<seq<Pair>> {
    if items == [] then Some([]) else
      var first := ParseItem(items[0], previous);
      if first.None? then None else
        Consed(first.value, Parse(items[1..], first.value.limit))
  }

  /** `_parse_threshold_list`. */
  method ParseThresholdList(items: seq<Item>) returns (r: Option<seq<Pair>>)
    ensures r == Parse(items, 0.0)
  {
    var parsed, previous, i := [], 0.0, 0;
    assert items[0..] == items;
    while i < |items|
      invariant 0 <= i <= |items|
      invariant Parse(items, 0.0) == Joined(parsed, Parse(items[i..], previous))
    {
      assert items[i..][1..] == items[i + 1..];
      var pair := ParseItem(items[i], previous);
      if pair.None? {
        return None;
      }
      JoinOneMore(parsed, pair.value, Parse(items[i + 1..], pair.value.limit));
      parsed, previous, i := parsed + [pair.value], pair.value.limit, i + 1;
    }
    r := Some(parsed);
  }

  const NAMED := [Sustained, Fast, Critical]

  function NamedPair(m: Payload, tier: Named, previous: real): Option<Pair>
    requires Limit(tier) in m
  {
    var limit := FiniteNumber(m[Limit(tier)], previous + TIER_GAP, MAX_POWER);
    var duration := if Duration(tier) in m then FiniteNumber(m[Duration(tier)], 0.0, MAX_DURATION) else Some(0.0);
    if limit.Some? && duration.Some? && ValidPair(Pair(limit.value, duration.value), previous)
    then Some(Pair(limit.value, duration.value)) else None
  }

  /** The named tiers that are present, in order; one bad value spoils them all. */
  function NamedFrom(m: Payload, tiers: seq<Named>, previous: real): Option<seq<Pair>> {
    if tiers == [] then Some([])
    else if Limit(tiers[0]) !in m then NamedFrom(m, tiers[1..], previous)
    else
      var first := NamedPair(m, tiers[0], previous);
      if first.None? then None else
        Consed(first.value, NamedFrom(m, tiers[1..], first.value.limit))
  }

  function NonEmpty(ps: Option<seq<Pair>>): Option<seq<Pair>> { if ps == Some([]) then None else ps }

  /** `_legacy_named_thresholds`. */
  method LegacyNamedThresholds(m: Payload) returns (r: Option<seq<Pair>>)
    ensures r == NonEmpty(NamedFrom(m, NAMED, 0.0))
  {
    var parsed: seq<Pair> := [];
    var previous, i := 0.0, 0;
    assert NAMED[0..] == NAMED;
    while i < |NAMED|
      invariant 0 <= i <= |NAMED|
      invariant NamedFrom(m, NAMED, 0.0) == Joined(parsed, NamedFrom(m, NAMED[i..], previous))
    {
      var rest := NAMED[i..];
      assert rest[0] == NAMED[i] && rest[1..] == NAMED[i + 1..];
      if Limit(NAMED[i]) in m {
        var pair := NamedPair(m, NAMED[i], previous);
        if pair.None? {
          return None;
        }
        JoinOneMore(parsed, pair.value, NamedFrom(m, NAMED[i + 1..], pair.value.limit));
        parsed, previous := parsed + [pair.value], pair.value.limit;
      }
      i := i + 1;
    }
    r := if parsed == [] then None else Some(parsed);
  }

  function FromList(m: Payload): Option<seq<Pair>> {
    if Thresholds in m && m[Thresholds].Items? && 1 <= |m[Thresholds].items| <= MAX_TIERS
    then Parse(m[Thresholds].items, 0.0) else None
  }

  /** `derive_thresholds_from_mapping`: a list, else the named tiers, else the maximum load. */
  function Derive(m: Payload): Option<seq<Pair>> {
    if FromList(m).Some? then FromList(m)
    else if NonEmpty(NamedFrom(m, NAMED, 0.0)).Some? then NamedFrom(m, NAMED, 0.0)
    else
      var load := if MaxLoad in m then FiniteNumber(m[MaxLoad], 1.0, MAX_POWER) else None;
      if load.Some? then Some([Pair(load.value, 0.0)]) else None
  }

  method DeriveThresholds(m: Payload) returns (r: Option<seq<Pair>>)
    ensures r == Derive(m)
  {
    if Thresholds in m && m[Thresholds].Items? && 1 <= |m[Thresholds].items| <= MAX_TIERS {
      r := ParseThresholdList(m[Thresholds].items);
      if r.Some? {
        return;
      }
    }
    r := LegacyNamedThresholds(m);
    if r.Some? {
      return;
    }
    if MaxLoad in m {
      var load := FiniteNumber(m[MaxLoad], 1.0, MAX_POWER);
      if load.Some? {
        return Some([Pair(load.value, 0.0)]);
      }
    }
    r := None;
  }

  // ---------- What is derived, in plain terms ----------

  /** Which source a policy comes from: a readable list of 1 to 64 tiers before anything else; else the named
      tiers that are present, if all of those are good; else a maximum load from 1 to 100000 watts, at once. */
  lemma DerivedFrom(m: Payload)
    ensures Thresholds in m && m[Thresholds].Items? && 1 <= |m[Thresholds].items| <= 64 ==>
      Parse(m[Thresholds].items, 0.0).Some? ==> Derive(m) == Parse(m[Thresholds].items, 0.0)
    ensures FromList(m).Some? ==>
      Thresholds in m && m[Thresholds].Items? && 1 <= |m[Thresholds].items| <= 64
    ensures FromList(m).None? && NamedFrom(m, NAMED, 0.0).Some? && NamedFrom(m, NAMED, 0.0).value != [] ==>
      Derive(m) == NamedFrom(m, NAMED, 0.0)
    ensures FromList(m).None? && (NamedFrom(m, NAMED, 0.0).None? || NamedFrom(m, NAMED, 0.0) == Some([])) ==>
      Derive(m) ==
        if MaxLoad in m && m[MaxLoad].Number? && m[MaxLoad].n.Finite? && 1.0 <= m[MaxLoad].n.v <= 100000.0
        then Some([Pair(m[MaxLoad].n.v, 0.0)]) else None
  {}

  /** One entry of a list: `power_limit` is read before `limit_w` and `duration_s` before `time_s`, a truth value
      counts as 1 or 0, and the limit must exceed the one before. */
  lemma ParsedItem(item: Item, previous: real, p: Pair)
    ensures ParseItem(item, previous) == Some(p) <==>
      && item.Item?
      && ReadsNumber(item.fields, if PowerLimit in item.fields then PowerLimit else LimitW, p.limit)
      && ReadsNumber(item.fields, if DurationS in item.fields then DurationS else TimeS, p.duration)
      && previous < p.limit <= 100000.0 && 0.0 <= p.duration <= 86400.0
  {}

  ghost predicate ReadsNumber(fields: map<Field, Num>, f: Field, v: real) {
    && f in fields
    && (fields[f] == Finite(v) || (fields[f] == Truth(true) && v == 1.0) || (fields[f] == Truth(false) && v == 0.0))
  }

  ghost predicate EntryAt(items: seq<Item>, previous: real, ps: seq<Pair>, i: nat)
    requires i < |items| == |ps|
  {
    ParseItem(items[i], if i == 0 then previous else ps[i - 1].limit) == Some(ps[i])
  }

  /** A list is read entry by entry, or not at all. */
  lemma {:induction false} ParsedList(items: seq<Item>, previous: real, ps: seq<Pair>)
    ensures Parse(items, previous) == Some(ps) <==>
      |ps| == |items| && forall i :: 0 <= i < |items| ==> EntryAt(items, previous, ps, i)
  {
    if items != [] && |ps| == |items| {
      ParsedList(items[1..], ps[0].limit, ps[1..]);
      assert ps == [ps[0]] + ps[1..];
      assert forall i :: 0 < i < |items| ==>
        (EntryAt(items, previous, ps, i) <==> EntryAt(items[1..], ps[0].limit, ps[1..], i - 1));
      assert EntryAt(items, previous, ps, 0) <==> ParseItem(items[0], previous) == Some(ps[0]);
      if forall i :: 0 <= i < |items| ==> EntryAt(items, previous, ps, i) {
        forall i | 0 <= i < |items[1..]| ensures EntryAt(items[1..], ps[0].limit, ps[1..], i) {
          assert EntryAt(items, previous, ps, i + 1);
        }
      }
    } else if items != [] && Parse(items, previous).Some? {
      ParsedIsValid(items, previous);
    }
  }

  /** A named tier: both numbers real and bounded, no truth values, the duration 0 when absent. */
  lemma NamedTier(m: Payload, tier: Named, previous: real, p: Pair)
    requires Limit(tier) in m && previous >= 0.0
    ensures NamedPair(m, tier, previous) == Some(p) <==>
      && m[Limit(tier)] == Number(Finite(p.limit)) && previous + 0.000000001 <= p.limit <= 100000.0
      && (if Duration(tier) in m then m[Duration(tier)] == Number(Finite(p.duration)) else p.duration == 0.0)
      && 0.0 <= p.duration <= 86400.0
  {}

  /** The named tiers a payload sets a limit for, gentlest first. */
  function Present(m: Payload): seq<Named> {
    (if Limit(Sustained) in m then [Sustained] else []) +
    (if Limit(Fast) in m then [Fast] else []) +
    (if Limit(Critical) in m then [Critical] else [])
  }

  ghost predicate TierAt(m: Payload, tiers: seq<Named>, previous: real, ps: seq<Pair>, i: nat)
    requires i < |tiers| == |ps| && forall t :: t in tiers ==> Limit(t) in m
  {
    NamedPair(m, tiers[i], if i == 0 then previous else ps[i - 1].limit) == Some(ps[i])
  }

  lemma {:induction false} PresentTiersInOrder(m: Payload, tiers: seq<Named>, previous: real, ps: seq<Pair>)
    requires forall t :: t in tiers ==> Limit(t) in m
    ensures NamedFrom(m, tiers, previous) == Some(ps) <==>
      |ps| == |tiers| && forall i :: 0 <= i < |tiers| ==> TierAt(m, tiers, previous, ps, i)
    decreases |tiers|
  {
    if tiers != [] {
      assert tiers[0] in tiers;
      if ps != [] {
        PresentTiersInOrder(m, tiers[1..], ps[0].limit, ps[1..]);
        assert ps == [ps[0]] + ps[1..];
      }
      if |ps| == |tiers| {
        assert forall i :: 0 < i < |tiers| ==>
          (TierAt(m, tiers, previous, ps, i) <==> TierAt(m, tiers[1..], ps[0].limit, ps[1..], i - 1));
        assert TierAt(m, tiers, previous, ps, 0) <==> NamedPair(m, tiers[0], previous) == Some(ps[0]);
        if forall i :: 0 <= i < |tiers| ==> TierAt(m, tiers, previous, ps, i) {
          forall i | 0 <= i < |tiers[1..]| ensures TierAt(m, tiers[1..], ps[0].limit, ps[1..], i) {
            assert TierAt(m, tiers, previous, ps, i + 1);
          }
        }
      }
    }
  }

  /** The named tiers are read gentlest first, skipping the absent ones, each above the one before, or not at all. */
  lemma NamedTiersInOrder(m: Payload, ps: seq<Pair>)
    ensures NamedFrom(m, NAMED, 0.0) == Some(ps) <==>
      |ps| == |Present(m)| && forall i :: 0 <= i < |ps| ==> TierAt(m, Present(m), 0.0, ps, i)
  {
    SkipAbsent(m, 0.0);
    PresentTiersInOrder(m, Present(m), 0.0, ps);
  }

  lemma SkipAbsent(m: Payload, previous: real)
    ensures NamedFrom(m, NAMED, previous) == NamedFrom(m, Present(m), previous)
  {
    var s, f, c := [Sustained], [Fast], [Critical];
    var tail := if Limit(Critical) in m then c else [];
    var middle := (if Limit(Fast) in m then f else []) + tail;
    assert forall p: real :: NamedFrom(m, c, p) == NamedFrom(m, tail, p) by {
      forall p: real ensures NamedFrom(m, c, p) == NamedFrom(m, tail, p) { SkipHead(m, Critical, [], [], p); }
    }
    forall p: real ensures NamedFrom(m, f + c, p) == NamedFrom(m, middle, p) { SkipHead(m, Fast, c, tail, p); }
    SkipHead(m, Sustained, f + c, middle, previous);
    assert NAMED == s + (f + c);
    assert Present(m) == (if Limit(Sustained) in m then s else []) + middle;
  }

  lemma SkipHead(m: Payload, t: Named, rest: seq<Named>, kept: seq<Named>, p: real)
    requires forall q: real :: NamedFrom(m, rest, q) == NamedFrom(m, kept, q)
    ensures NamedFrom(m, [t] + rest, p) == NamedFrom(m, (if Limit(t) in m then [t] else []) + kept, p)
  {
    assert ([t] + rest)[1..] == rest;
    if Limit(t) in m {
      assert ([t] + kept)[1..] == kept;
    } else {
      assert [] + kept == kept;
    }
  }

  // ---------- What is derived is a policy ----------

  lemma {:induction false} ParsedIsValid(items: seq<Item>, previous: real)
    requires Parse(items, previous).Some?
    ensures ValidFrom(Parse(items, previous).value, previous) && |Parse(items, previous).value| == |items|
  {
    if items != [] {
      var first := ParseItem(items[0], previous).value;
      ParsedIsValid(items[1..], first.limit);
      var ps := Parse(items, previous).value;
      assert ps[0] == first && ps[1..] == Parse(items[1..], first.limit).value;
    }
  }

  lemma {:induction false} NamedIsValid(m: Payload, tiers: seq<Named>, previous: real)
    requires NamedFrom(m, tiers, previous).Some?
    ensures ValidFrom(NamedFrom(m, tiers, previous).value, previous)
    ensures |NamedFrom(m, tiers, previous).value| <= |tiers|
  {
    if tiers != [] {
      if Limit(tiers[0]) !in m {
        NamedIsValid(m, tiers[1..], previous);
      } else {
        var first := NamedPair(m, tiers[0], previous).value;
        NamedIsValid(m, tiers[1..], first.limit);
        var ps := NamedFrom(m, tiers, previous).value;
        assert ps[0] == first && ps[1..] == NamedFrom(m, tiers[1..], first.limit).value;
      }
    }
  }

  predicate IsPolicy(ps: seq<Pair>) { 1 <= |ps| <= MAX_TIERS && ValidFrom(ps, 0.0) }

  lemma {:induction false} LimitsRise(ps: seq<Pair>, previous: real, i: nat, j: nat)
    requires ValidFrom(ps, previous) && i < j < |ps|
    ensures previous < ps[i].limit < ps[j].limit
  {
    if i > 0 {
      LimitsRise(ps[1..], ps[0].limit, i - 1, j - 1);
    } else if j > 1 {
      LimitsRise(ps[1..], ps[0].limit, 0, j - 1);
    } else {
      assert ps[1] == ps[1..][0];
    }
  }

  lemma {:induction false} PairsAreBounded(ps: seq<Pair>, previous: real, i: nat)
    requires ValidFrom(ps, previous) && 0.0 <= previous && i < |ps|
    ensures 0.0 < ps[i].limit <= MAX_POWER && 0.0 <= ps[i].duration <= MAX_DURATION
  {
    if i > 0 { PairsAreBounded(ps[1..], ps[0].limit, i - 1); }
  }

  /** Whatever it is derived from, a policy has 1 to 64 tiers, each within its bounds, whose limits rise. */
  lemma DerivedIsAPolicy(m: Payload)
    requires Derive(m).Some?
    ensures IsPolicy(Derive(m).value)
    ensures var ps := Derive(m).value;
      && (forall i :: 0 <= i < |ps| ==> 0.0 < ps[i].limit <= MAX_POWER && 0.0 <= ps[i].duration <= MAX_DURATION)
      && (forall i, j :: 0 <= i < j < |ps| ==> ps[i].limit < ps[j].limit)
  {
    if FromList(m).Some? {
      ParsedIsValid(m[Thresholds].items, 0.0);
    } else if NamedFrom(m, NAMED, 0.0).Some? {
      NamedIsValid(m, NAMED, 0.0);
    }
    var ps := Derive(m).value;
    forall i | 0 <= i < |ps| ensures 0.0 < ps[i].limit <= MAX_POWER && 0.0 <= ps[i].duration <= MAX_DURATION {
      PairsAreBounded(ps, 0.0, i);
    }
    forall i, j | 0 <= i < j < |ps| ensures ps[i].limit < ps[j].limit {
      LimitsRise(ps, 0.0, i, j);
    }
  }

  // ---------- Migration ----------

  function Encoded(ps: seq<Pair>): (items: seq<Item>)
    ensures |items| == |ps|
  {
    if ps == [] then []
    else [EncodedPair(ps[0])] + Encoded(ps[1..])
  }

  function EncodedPair(p: Pair): Item { Item(map[PowerLimit := Finite(p.limit), DurationS := Finite(p.duration)]) }

  lemma PairIsReadBack(p: Pair, previous: real)
    requires ValidPair(p, previous)
    ensures ParseItem(EncodedPair(p), previous) == Some(p)
  {}

  /** Every valid policy survives being written as a threshold list and parsed again. */
  lemma {:induction false} ParseUndoesEncode(ps: seq<Pair>, previous: real)
    requires ValidFrom(ps, previous)
    ensures Parse(Encoded(ps), previous) == Some(ps)
  {
    if ps != [] {
      PairIsReadBack(ps[0], previous);
      ParseUndoesEncode(ps[1..], ps[0].limit);
      assert Encoded(ps)[1..] == Encoded(ps[1..]);
      assert [ps[0]] + ps[1..] == ps;
    }
  }

  predicate Allowed(k: Key) { k in {Thresholds, ReconfigurationRequired, Devices} || k.Setting? }

  predicate Legacy(k: Key) { k == MaxLoad || k.Limit? || k.Duration? }

  function Stripped(p: Payload): Payload { map k | k in p && !Legacy(k) :: p[k] }

  /** `_clean_migration_payload`. */
  function Cleaned(p: Payload, keep: bool): Payload {
    var allowed := map k | k in p && Allowed(k) :: p[k];
    if keep then Stripped(allowed) else Stripped(allowed) - {Thresholds, ReconfigurationRequired}
  }

  function CleanRecord(r: Record): Record
    requires r.Record?
  {
    Record(map k | k in r.fields && k.Kept? :: r.fields[k])
  }

  function CleanRecords(rs: seq<Record>): seq<Record> {
    if rs == [] then []
    else if rs[0].NotARecord? then CleanRecords(rs[1..])
    else [CleanRecord(rs[0])] + CleanRecords(rs[1..])
  }

  /** `_clean_migration_devices`. */
  function CleanDevices(p: Payload): Payload {
    if Devices in p && p[Devices].Records? then p[Devices := Records(CleanRecords(p[Devices].records))] else p
  }

  datatype Config = Config(data: Payload, options: Payload)

  /** Options override data. */
  function Merged(c: Config): Payload { c.data + c.options }

  function Flagged(data: Payload, tiers: Option<seq<Pair>>): Payload {
    if tiers.None? then data[ReconfigurationRequired := Flag] else data - {ReconfigurationRequired}
  }

  function WithThresholds(c: Config, tiers: Option<seq<Pair>>): Config {
    if tiers.None? then c.(data := c.data[ReconfigurationRequired := Flag])
    else Config(c.data[Thresholds := Items(Encoded(tiers.value))], c.options - {Thresholds})
  }

  /** `async_migrate_entry`. */
  function Migrated(c: Config): Config {
    var tiers := Derive(Merged(c));
    var w := WithThresholds(c, tiers);
    Config(CleanDevices(Flagged(Cleaned(w.data, true), tiers)), CleanDevices(Cleaned(w.options, false)))
  }

  /** One configuration entry whose two payloads migration rewrites in place. */
  class Entry {
    var data: Payload
    var options: Payload

    function Contents(): Config
      reads this
    {
      Config(data, options)
    }

    method MigrateThresholds(tiers: Option<seq<Pair>>)
      modifies this
      ensures Contents() == WithThresholds(old(Contents()), tiers)
    {
      if tiers.None? {
        data := data[ReconfigurationRequired := Flag];
        return;
      }
      data := data[Thresholds := Items(Encoded(tiers.value))];
      options := options - {Thresholds};
    }

    method Migrate()
      modifies this
      ensures Contents() == Migrated(old(Contents()))
    {
      var tiers := DeriveThresholds(data + options);
      MigrateThresholds(tiers);
      data := Cleaned(data, true);
      options := Cleaned(options, false);
      if tiers.None? {
        data := data[ReconfigurationRequired := Flag];
      } else {
        data := data - {ReconfigurationRequired};
      }
      data := CleanDevices(data);
      options := CleanDevices(options);
    }
  }

  // ---------- What migration does to each key ----------

  lemma {:induction false} CleanRecordsTwice(rs: seq<Record>)
    ensures CleanRecords(CleanRecords(rs)) == CleanRecords(rs)
  {
    if rs != [] {
      CleanRecordsTwice(rs[1..]);
      if rs[0].Record? {
        assert CleanRecord(CleanRecord(rs[0])) == CleanRecord(rs[0]);
        assert CleanRecords(rs)[1..] == CleanRecords(rs[1..]);
      }
    }
  }

  /** Every device record keeps its known keys and loses the others, and what is no record goes. */
  lemma {:induction false} CleanRecordsFacts(rs: seq<Record>)
    ensures forall r :: r in CleanRecords(rs) ==>
      r.Record? && exists was :: was in rs && was.Record? && KnownPart(was, r)
    ensures forall was :: was in rs && was.Record? ==> exists r :: r in CleanRecords(rs) && KnownPart(was, r)
  {
    if rs != [] {
      CleanRecordsFacts(rs[1..]);
      assert forall x :: x in rs <==> x == rs[0] || x in rs[1..];
      if rs[0].Record? {
        var first := CleanRecord(rs[0]);
        assert KnownPart(rs[0], first) && CleanRecords(rs)[0] == first;
        assert forall x :: x in CleanRecords(rs) <==> x == first || x in CleanRecords(rs[1..]);
      }
    }
  }

  ghost predicate KnownPart(before: Record, after: Record) {
    && before.Record? && after.Record?
    && (forall k :: k in after.fields <==> k in before.fields && k.Kept?)
    && (forall k :: k in after.fields ==> after.fields[k] == before.fields[k])
  }

  lemma CleanDevicesTwice(p: Payload)
    ensures CleanDevices(CleanDevices(p)) == CleanDevices(p)
  {
    if Devices in p && p[Devices].Records? { CleanRecordsTwice(p[Devices].records); }
  }

  /** Both payloads keep allowed keys only, options no thresholds, and the flag says whether a policy was found. */
  lemma OnlyAllowedKeysRemain(c: Config, k: Key)
    ensures k in Migrated(c).data ==> Allowed(k)
    ensures k in Migrated(c).options ==> Allowed(k) && k != Thresholds && k != ReconfigurationRequired
    ensures ReconfigurationRequired in Migrated(c).data <==> Derive(Merged(c)).None?
  {}

  lemma CleanedKeepsSetting(p: Payload, keep: bool, name: string)
    ensures var k, q := Setting(name), CleanDevices(Cleaned(p, keep));
      (k in q <==> k in p) && (k in p ==> q[k] == p[k])
  {}

  lemma SettingsAreKeptInData(c: Config, name: string)
    ensures var k := Setting(name);
      (k in Migrated(c).data <==> k in c.data) && (k in c.data ==> Migrated(c).data[k] == c.data[k])
  {
    var w := WithThresholds(c, Derive(Merged(c)));
    CleanedKeepsSetting(w.data, true, name);
  }

  lemma SettingsAreKeptInOptions(c: Config, name: string)
    ensures var k := Setting(name);
      (k in Migrated(c).options <==> k in c.options) && (k in c.options ==> Migrated(c).options[k] == c.options[k])
  {
    var w := WithThresholds(c, Derive(Merged(c)));
    CleanedKeepsSetting(w.options, false, name);
  }

  /** Every kept setting reads the same through the merged view as before. */
  lemma SettingsAreKept(c: Config, name: string)
    ensures var k := Setting(name);
      (k in Merged(Migrated(c)) <==> k in Merged(c)) && (k in Merged(c) ==> Merged(Migrated(c))[k] == Merged(c)[k])
  {
    SettingsAreKeptInData(c, name);
    SettingsAreKeptInOptions(c, name);
  }

  /** Both payloads keep their device lists, with each record's known part, and what is no list as it is. */
  lemma DeviceListsAreCleaned(c: Config)
    ensures Devices in Migrated(c).data <==> Devices in c.data
    ensures Devices in Migrated(c).options <==> Devices in c.options
    ensures Devices in c.data ==> Migrated(c).data[Devices] == CleanValue(c.data[Devices])
    ensures Devices in c.options ==> Migrated(c).options[Devices] == CleanValue(c.options[Devices])
  {
    var w := WithThresholds(c, Derive(Merged(c)));
    CleanedKeepsDevices(w.data, true);
    CleanedKeepsDevices(w.options, false);
  }

  function CleanValue(v: Value): Value { if v.Records? then Records(CleanRecords(v.records)) else v }

  lemma CleanedKeepsDevices(p: Payload, keep: bool)
    ensures var q := CleanDevices(Cleaned(p, keep));
      (Devices in q <==> Devices in p) && (Devices in p ==> q[Devices] == CleanValue(p[Devices]))
  {}

  lemma ThresholdsAfter(c: Config)
    ensures var before, after := Derive(Merged(c)), Merged(Migrated(c));
      if before.Some? then Thresholds in after && after[Thresholds] == Items(Encoded(before.value))
      else
        && (Thresholds in after <==> Thresholds in c.data)
        && (Thresholds in after ==> after[Thresholds] == c.data[Thresholds])
  {}

  /** Only a threshold list can be derived from a migrated entry. */
  lemma MigratedDerivesFromList(c: Config)
    ensures Derive(Merged(Migrated(c))) == FromList(Merged(Migrated(c)))
  {
    var m := Merged(Migrated(c));
    forall tier ensures Limit(tier) !in m {
      OnlyAllowedKeysRemain(c, Limit(tier));
    }
    OnlyAllowedKeysRemain(c, MaxLoad);
    NamedAbsent(m, NAMED);
  }

  lemma {:induction false} NamedAbsent(m: Payload, tiers: seq<Named>)
    requires forall tier :: Limit(tier) !in m
    ensures NamedFrom(m, tiers, 0.0) == Some([])
  {
    if tiers != [] { NamedAbsent(m, tiers[1..]); }
  }

  /** Migration preserves the policy: the same limits and durations in the same order. */
  lemma MigrationKeepsPolicy(c: Config)
    requires Derive(Merged(c)).Some?
    ensures Derive(Merged(Migrated(c))) == Derive(Merged(c))
  {
    var ps := Derive(Merged(c)).value;
    DerivedIsAPolicy(Merged(c));
    MigratedDerivesFromList(c);
    ThresholdsAfter(c);
    ParseUndoesEncode(ps, 0.0);
  }

  /** When nothing was derivable, what becomes derivable is exactly data's own threshold list. */
  lemma UnderivableThenList(c: Config)
    requires Derive(Merged(c)).None?
    ensures Derive(Merged(Migrated(c))) == FromList(c.data)
  {
    MigratedDerivesFromList(c);
    ThresholdsAfter(c);
  }

  // ---------- Migrating again ----------

  /** A clean entry: what every migration leaves. */
  predicate Clean(c: Config) {
    && (forall k :: k in c.data ==> Allowed(k))
    && (forall k :: k in c.options ==> Allowed(k) && k != Thresholds && k != ReconfigurationRequired)
    && CleanDevices(c.data) == c.data && CleanDevices(c.options) == c.options
    && (ReconfigurationRequired in c.data ==> c.data[ReconfigurationRequired] == Flag)
  }

  lemma MigratedIsClean(c: Config)
    ensures Clean(Migrated(c))
  {
    var tiers := Derive(Merged(c));
    var w := WithThresholds(c, tiers);
    CleanDevicesTwice(Flagged(Cleaned(w.data, true), tiers));
    CleanDevicesTwice(Cleaned(w.options, false));
    forall k ensures k in Migrated(c).data ==> Allowed(k) { OnlyAllowedKeysRemain(c, k); }
    forall k ensures k in Migrated(c).options ==> Allowed(k) && k != Thresholds && k != ReconfigurationRequired {
      OnlyAllowedKeysRemain(c, k);
    }
  }

  /** A clean entry is left alone when its flag is right and its list is the policy's own. */
  lemma CleanIsFixed(c: Config)
    requires Clean(c)
    requires if Derive(Merged(c)).None? then ReconfigurationRequired in c.data
             else ReconfigurationRequired !in c.data && Thresholds in c.data &&
                  c.data[Thresholds] == Items(Encoded(Derive(Merged(c)).value))
    ensures Migrated(c) == c
  {
    var tiers := Derive(Merged(c));
    assert WithThresholds(c, tiers) == c by { WithSameThresholds(c, tiers); }
    CleanPayloadIsFixed(c.data);
    assert Cleaned(c.options, false) == c.options;
    assert Flagged(c.data, tiers) == c.data;
  }

  lemma WithSameThresholds(c: Config, tiers: Option<seq<Pair>>)
    requires if tiers.None? then ReconfigurationRequired in c.data && c.data[ReconfigurationRequired] == Flag
             else Thresholds in c.data && c.data[Thresholds] == Items(Encoded(tiers.value)) && Thresholds !in c.options
    ensures WithThresholds(c, tiers) == c
  {
    var w := WithThresholds(c, tiers);
    assert w.data == c.data;
    assert w.options == c.options;
  }

  lemma CleanPayloadIsFixed(p: Payload)
    requires forall k :: k in p ==> Allowed(k)
    ensures Cleaned(p, true) == p
  {}

  /** Migrating again changes nothing exactly when the first migration found a policy, or data
      alone holds no usable list: an unusable list in options hides one in data, and migration
      drops options' list for good. */
  lemma MigratingAgainIffDerivable(c: Config)
    ensures Migrated(Migrated(c)) == Migrated(c) <==> Derive(Merged(c)).Some? || FromList(c.data).None?
  {
    var once := Migrated(c);
    MigratedIsClean(c);
    ThresholdsAfter(c);
    OnlyAllowedKeysRemain(c, ReconfigurationRequired);
    OnlyAllowedKeysRemain(c, Thresholds);
    if Derive(Merged(c)).Some? {
      MigrationKeepsPolicy(c);
      CleanIsFixed(once);
    } else {
      UnderivableThenList(c);
      if FromList(c.data).None? {
        CleanIsFixed(once);
      } else {
        OnlyAllowedKeysRemain(once, ReconfigurationRequired);
      }
    }
  }

  /** Two migrations always settle. */
  lemma ThirdMigrationChangesNothing(c: Config)
    ensures Migrated(Migrated(Migrated(c))) == Migrated(Migrated(c))
  {
    var once := Migrated(c);
    MigratingAgainIffDerivable(once);
    if Derive(Merged(once)).None? {
      OnlyAllowedKeysRemain(c, Thresholds);
      MigratedDerivesFromList(c);
    }
  }

  const SHADOWED := [Pair(3000.0, 60.0)]

  /** A usable list that shadows nothing until options are merged over it. */
  function UsableData(): Payload { map[Thresholds := Items(Encoded(SHADOWED))] }

  function UnusableOptions(): Payload { map[Thresholds := Items([NotAMapping])] }

  lemma DataIsUsable()
    ensures FromList(UsableData()).Some?
  {
    assert ValidFrom(SHADOWED[1..], 3000.0);
    ParseUndoesEncode(SHADOWED, 0.0);
  }

  lemma MergedIsUnusable()
    ensures Derive(UsableData() + UnusableOptions()).None?
  {
    var m := UsableData() + UnusableOptions();
    assert m[Thresholds] == Items([NotAMapping]);
    NamedAbsent(m, NAMED);
  }

  /** Options saved an unusable list over a usable one: the second migration changes the entry. */
  lemma HiddenListResurfaces()
    ensures var c := Config(UsableData(), UnusableOptions());
      Derive(Merged(c)).None? && Migrated(Migrated(c)) != Migrated(c)
  {
    DataIsUsable();
    MergedIsUnusable();
    MigratingAgainIffDerivable(Config(UsableData(), UnusableOptions()));
  }
}
