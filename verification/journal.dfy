/** The bounded audit journal: storage.py and journal.py. */
module Journal {
  import opened Prelude

  const MAX_AUDIT_ENTRIES := 100
  const MAX_UNRESOLVED_ACTIONS := 16
  const MAX_FIELD_LENGTH := 256
  const MAX_SNAPSHOT_TEXT := 128
  const MAX_TIERS := 64

  /** The words the protocol itself writes to the `phase` and `result` fields, all far below the field limit. */
  datatype Phase = Prepared | Dispatched | Confirmed | Rejected | Failed | ObserveOnly | Observed

  datatype Scalar =
    | Text(s: string) | Word(phase: Phase) | Number(r: real) | NonFinite
    | Flag(b: bool) | Null | Nested

  datatype RawTier = Pair(limit: Scalar, duration: Scalar) | NotPair

  /** A dictionary of input evidence. */
  datatype Evidence = Evidence(fields: map<string, Scalar>, thresholds: Option<seq<RawTier>>)

  datatype Value = Plain(v: Scalar) | Dict(e: Evidence)

  datatype Key =
    | ActionIdKey | ActionKey | DeviceKey | PhaseKey | ResultKey
    | DecisionReasonKey | InputSnapshotKey | TimestampKey | OtherKey(name: string)

  type Event = map<Key, Value>

  const SNAPSHOT_FIELDS := {
    "captured_at", "integration_version", "policy_version", "load_w", "load_valid",
    "load_reason", "load_reported_at", "load_age_s", "load_max_age_s", "safety_state",
    "safety_available", "safety_ok", "safety_reported_at", "battery_threshold",
    "battery_charge", "battery_min_soc", "mode"
  }

  // ---------- Normalization of one record ----------

  function Cut(s: string, n: nat): (r: string)
    ensures |r| <= n && r <= s && (|s| <= n ==> r == s)
  {
    if |s| <= n then s else s[..n]
  }

  predicate IsSpace(c: char) {
    var n := c as int;
    9 <= n <= 13 || 28 <= n <= 32 || n == 133 || n == 160 || n == 5760
    || 8192 <= n <= 8202 || n == 8232 || n == 8233 || n == 8239 || n == 8287 || n == 12288
  }

  predicate Blank(s: string) { forall i :: 0 <= i < |s| ==> IsSpace(s[i]) }

  function NormScalar(v: Scalar): Option<Scalar> {
    match v
    case Text(s) => Some(Text(Cut(s, MAX_FIELD_LENGTH)))
    case NonFinite => None
    case Nested => None
    case _ => Some(v)
  }

  predicate EvidenceScalar(v: Scalar) { !v.NonFinite? && !v.Nested? }

  function ShortScalar(v: Scalar): Scalar { if v.Text? then Text(Cut(v.s, MAX_SNAPSHOT_TEXT)) else v }

  predicate GoodTier(t: RawTier) {
    t.Pair? && t.limit.Number? && t.limit.r >= 0.0 && t.duration.Number? && t.duration.r >= 0.0
  }

  function GoodTiers(ts: seq<RawTier>): seq<RawTier> {
    if ts == [] then [] else (if GoodTier(ts[0]) then [ts[0]] else []) + GoodTiers(ts[1..])
  }

  function NormEvidence(e: Evidence): Evidence {
    Evidence(
      map k | k in e.fields && k in SNAPSHOT_FIELDS && EvidenceScalar(e.fields[k]) :: ShortScalar(e.fields[k]),
      match e.thresholds
      case None => None
      case Some(ts) => Some(GoodTiers(if |ts| <= MAX_TIERS then ts else ts[..MAX_TIERS])))
  }

  function NormField(k: Key, v: Value): Option<Value> {
    if k == InputSnapshotKey then (if v.Dict? then Some(Dict(NormEvidence(v.e))) else None)
    else if v.Dict? then None
    else match NormScalar(v.v) case None => None case Some(s) => Some(Plain(s))
  }

  predicate NonBlankText(e: Event, k: Key) {
    k in e && e[k].Plain? && e[k].v.Text? && !Blank(e[k].v.s)
  }

  predicate ValidIdentity(e: Event) { NonBlankText(e, ActionIdKey) && NonBlankText(e, ActionKey) }

  function NormFields(e: Event): Event {
    map k | k in e && NormField(k, e[k]).Some? :: NormField(k, e[k]).value
  }

  function Normalize(e: Event, now: Time): Option<Event> {
    if !ValidIdentity(e) then None
    else
      var n := NormFields(e);
      Some(if TimestampKey in n then n else n[TimestampKey := Plain(Number(now))])
  }

  function IdOf(e: Event): Value { if ActionIdKey in e then e[ActionIdKey] else Plain(Null) }

  /** A record that normalization leaves alone. */
  ghost predicate IsNormal(r: Event) {
    ValidIdentity(r) && TimestampKey in r && forall k :: k in r ==> NormField(k, r[k]) == Some(r[k])
  }

  /** Identity and action stay readable after truncation to the field limit. */
  predicate Storable(e: Event) {
    && ValidIdentity(e)
    && !Blank(Cut(e[ActionIdKey].v.s, MAX_FIELD_LENGTH))
    && !Blank(Cut(e[ActionKey].v.s, MAX_FIELD_LENGTH))
  }

  /** What is kept of one field: texts to 256 characters, truth values, finite numbers and null as they are;
      a dictionary only as input evidence. */
  lemma FieldIsKeptAs(k: Key, v: Value)
    ensures k != InputSnapshotKey ==>
      NormField(k, v) ==
        if v.Dict? || v.v.NonFinite? || v.v.Nested? then None
        else if v.v.Text? && |v.v.s| > 256 then Some(Plain(Text(v.v.s[..256]))) else Some(v)
    ensures k == InputSnapshotKey ==> (NormField(k, v).Some? <==> v.Dict?)
    ensures k == InputSnapshotKey && v.Dict? ==> NormField(k, v) == Some(Dict(NormEvidence(v.e)))
  {}

  /** What is kept of the evidence: the known fields, texts to 128 characters, no numbers that are not finite and
      nothing nested; of the first 64 tiers, in order, those whose two numbers are not negative. */
  lemma EvidenceIsKeptAs(e: Evidence, name: string)
    ensures name in NormEvidence(e).fields <==>
      name in e.fields && name in SNAPSHOT_FIELDS && !e.fields[name].NonFinite? && !e.fields[name].Nested?
    ensures name in NormEvidence(e).fields ==>
      NormEvidence(e).fields[name] ==
        if e.fields[name].Text? && |e.fields[name].s| > 128 then Text(e.fields[name].s[..128]) else e.fields[name]
    ensures NormEvidence(e).thresholds.Some? <==> e.thresholds.Some?
    ensures e.thresholds.Some? ==>
      var first := if |e.thresholds.value| > 64 then e.thresholds.value[..64] else e.thresholds.value;
      && Subsequence(NormEvidence(e).thresholds.value, first)
      && forall t :: t in NormEvidence(e).thresholds.value <==>
           t in first && t.Pair? && t.limit.Number? && t.limit.r >= 0.0 && t.duration.Number? && t.duration.r >= 0.0
  {
    if e.thresholds.Some? {
      GoodTiersFacts(if |e.thresholds.value| > 64 then e.thresholds.value[..64] else e.thresholds.value);
    }
  }

  lemma {:induction false} GoodTiersFacts(ts: seq<RawTier>)
    ensures Subsequence(GoodTiers(ts), ts)
    ensures forall t :: t in GoodTiers(ts) <==>
      t in ts && t.Pair? && t.limit.Number? && t.limit.r >= 0.0 && t.duration.Number? && t.duration.r >= 0.0
  {
    if ts != [] {
      GoodTiersFacts(ts[1..]);
      assert forall t :: t in ts <==> t == ts[0] || t in ts[1..];
      if GoodTier(ts[0]) {
        assert GoodTiers(ts)[1..] == GoodTiers(ts[1..]);
      } else {
        assert GoodTiers(ts) == GoodTiers(ts[1..]);
      }
    }
  }

  lemma {:induction false} GoodTiersAreKept(ts: seq<RawTier>)
    ensures |GoodTiers(ts)| <= |ts|
    ensures GoodTiers(GoodTiers(ts)) == GoodTiers(ts)
  {
    if ts != [] {
      GoodTiersAreKept(ts[1..]);
      var rest := GoodTiers(ts[1..]);
      if GoodTier(ts[0]) { assert ([ts[0]] + rest)[1..] == rest; }
      else { assert [] + rest == rest; }
    }
  }

  lemma EvidenceIdempotent(e: Evidence)
    ensures NormEvidence(NormEvidence(e)) == NormEvidence(e)
  {
    var n := NormEvidence(e);
    assert forall k :: k in n.fields ==> EvidenceScalar(n.fields[k]) && ShortScalar(n.fields[k]) == n.fields[k];
    assert NormEvidence(n).fields == n.fields;
    if e.thresholds.Some? {
      var ts := e.thresholds.value;
      GoodTiersAreKept(if |ts| <= MAX_TIERS then ts else ts[..MAX_TIERS]);
    }
  }

  lemma FieldIdempotent(k: Key, v: Value)
    ensures var f := NormField(k, v); f.Some? ==> NormField(k, f.value) == f
  {
    if v.Dict? { EvidenceIdempotent(v.e); }
  }

  lemma NormalIsFixed(r: Event, now: Time)
    requires IsNormal(r)
    ensures Normalize(r, now) == Some(r)
  {
    assert NormFields(r) == r;
  }

  /** Normalization is idempotent exactly on the records whose identity survives truncation. */
  lemma NormalizedIsNormalIffStorable(e: Event, now: Time)
    requires ValidIdentity(e)
    ensures IsNormal(Normalize(e, now).value) <==> Storable(e)
    ensures !Storable(e) ==> forall later :: Normalize(Normalize(e, now).value, later) == None
    ensures IdOf(Normalize(e, now).value) == Plain(Text(Cut(e[ActionIdKey].v.s, MAX_FIELD_LENGTH)))
  {
    var n := Normalize(e, now).value;
    assert n[ActionIdKey] == Plain(Text(Cut(e[ActionIdKey].v.s, MAX_FIELD_LENGTH)));
    assert n[ActionKey] == Plain(Text(Cut(e[ActionKey].v.s, MAX_FIELD_LENGTH)));
    forall k | k in n ensures NormField(k, n[k]) == Some(n[k]) {
      if k in NormFields(e) { FieldIdempotent(k, e[k]); }
    }
  }

  // ---------- The bounded history ----------

  function NormAll(h: seq<Event>, now: Time): seq<Event> {
    if h == [] then []
    else match Normalize(h[0], now)
      case None => NormAll(h[1..], now)
      case Some(n) => [n] + NormAll(h[1..], now)
  }

  function Newest(h: seq<Event>): (r: seq<Event>)
    ensures |r| <= MAX_AUDIT_ENTRIES
  {
    if |h| <= MAX_AUDIT_ENTRIES then h else h[|h| - MAX_AUDIT_ENTRIES..]
  }

  function NormHistory(h: seq<Event>, now: Time): seq<Event> { NormAll(Newest(h), now) }

  /** First evidence wins; every other field takes the latest value. */
  function Merge(previous: Event, latest: Event): Event {
    var merged := previous + latest;
    var reasoned :=
      if DecisionReasonKey in previous then merged[DecisionReasonKey := previous[DecisionReasonKey]] else merged;
    if InputSnapshotKey in previous then reasoned[InputSnapshotKey := previous[InputSnapshotKey]] else reasoned
  }

  function FindId(h: seq<Event>, id: Value): (i: nat)
    ensures i <= |h|
    ensures i < |h| ==> IdOf(h[i]) == id
    ensures forall j :: 0 <= j < i ==> IdOf(h[j]) != id
  {
    if h == [] then 0 else if IdOf(h[0]) == id then 0 else 1 + FindId(h[1..], id)
  }

  /** The whole effect of `record_action` on the stored history. */
  function Record(h: seq<Event>, e: Event, now: Time): seq<Event> {
    match Normalize(e, now)
    case None => h
    case Some(n) => Place(NormHistory(h, now), n, now)
  }

  function Place(known: seq<Event>, n: Event, now: Time): seq<Event> {
    var i := FindId(known, IdOf(n));
    if i < |known| then NormHistory(known[i := Merge(known[i], n)], now)
    else NormHistory(known + [n], now)
  }

  class AuditStore {
    var history: seq<Event>

    constructor (h: seq<Event>)
      ensures history == h
    { history := h; }

    method RecordAction(e: Event, now: Time)
      modifies this
      ensures history == Record(old(history), e, now)
    {
      var normalized := Normalize(e, now);
      if normalized.None? { return; }
      var known := NormHistory(history, now);
      var n := normalized.value;
      var i := FindRecord(known, IdOf(n));
      if i < |known| {
        history := NormHistory(known[i := Merge(known[i], n)], now);
      } else {
        history := NormHistory(known + [n], now);
      }
    }
  }

  method FindRecord(known: seq<Event>, id: Value) returns (i: nat)
    ensures i == FindId(known, id)
  {
    i := 0;
    while i < |known| && IdOf(known[i]) != id
      invariant i <= FindId(known, id)
    {
      i := i + 1;
    }
  }

  // ---------- What every sequence of recordings keeps ----------

  ghost predicate NormalForm(h: seq<Event>) {
    |h| <= MAX_AUDIT_ENTRIES && forall i :: 0 <= i < |h| ==> IsNormal(h[i])
  }

  ghost predicate DistinctIds(h: seq<Event>) {
    forall i, j :: 0 <= i < j < |h| ==> IdOf(h[i]) != IdOf(h[j])
  }

  ghost predicate JournalInvariant(h: seq<Event>) { NormalForm(h) && DistinctIds(h) }

  lemma NormalAreFixed(h: seq<Event>, now: Time)
    requires forall i :: 0 <= i < |h| ==> IsNormal(h[i])
    ensures forall i :: 0 <= i < |h| ==> Normalize(h[i], now) == Some(h[i])
  {
    forall i | 0 <= i < |h| ensures Normalize(h[i], now) == Some(h[i]) { NormalIsFixed(h[i], now); }
  }

  lemma {:induction false} NormAllFixed(h: seq<Event>, now: Time)
    requires forall i :: 0 <= i < |h| ==> Normalize(h[i], now) == Some(h[i])
    ensures NormAll(h, now) == h
  {
    if h != [] { NormAllFixed(h[1..], now); }
  }

  lemma {:induction false} NormAllConcat(a: seq<Event>, b: seq<Event>, now: Time)
    ensures NormAll(a + b, now) == NormAll(a, now) + NormAll(b, now)
  {
    if a == [] {
      assert a + b == b;
    } else {
      assert (a + b)[1..] == a[1..] + b;
      NormAllConcat(a[1..], b, now);
    }
  }

  lemma NormAllAppend(h: seq<Event>, e: Event, now: Time)
    ensures NormAll(h + [e], now) ==
            NormAll(h, now) + (match Normalize(e, now) case None => [] case Some(n) => [n])
  {
    NormAllConcat(h, [e], now);
    assert NormAll([e][1..], now) == [];
  }

  lemma NormAllDrops(a: seq<Event>, x: Event, b: seq<Event>, now: Time)
    requires Normalize(x, now) == None
    requires NormAll(a, now) == a && NormAll(b, now) == b
    ensures NormAll(a + [x] + b, now) == a + b
  {
    NormAllConcat(a + [x], b, now);
    NormAllAppend(a, x, now);
  }

  ghost predicate KeepsKey(before: Event, after: Event, k: Key) {
    k in before ==> k in after && after[k] == before[k]
  }

  /** The later record still shows the earlier one's reason and input snapshot. */
  ghost predicate KeepsEvidence(before: Event, after: Event) {
    KeepsKey(before, after, DecisionReasonKey) && KeepsKey(before, after, InputSnapshotKey)
  }

  /** Two phases of one action: every field takes its latest value, but the decision reason and the input
      snapshot, once recorded, stay. */
  lemma MergedFields(p: Event, n: Event)
    ensures forall k :: k in Merge(p, n) <==> k in p || k in n
    ensures forall k :: k in n && k != DecisionReasonKey && k != InputSnapshotKey ==> Merge(p, n)[k] == n[k]
    ensures forall k :: k in p && (k !in n || k == DecisionReasonKey || k == InputSnapshotKey) ==>
      Merge(p, n)[k] == p[k]
    ensures forall k :: k in n && k !in p ==> Merge(p, n)[k] == n[k]
    ensures KeepsEvidence(p, Merge(p, n))
  {}

  lemma MergeIsNormal(p: Event, n: Event)
    requires IsNormal(p) && IsNormal(n)
    ensures IsNormal(Merge(p, n))
  {
    MergedFields(p, n);
  }

  lemma MergeFacts(p: Event, e: Event, now: Time)
    requires IsNormal(p) && ValidIdentity(e) && IdOf(p) == IdOf(Normalize(e, now).value)
    ensures var m := Merge(p, Normalize(e, now).value);
      && IdOf(m) == IdOf(p)
      && (IsNormal(m) <==> Storable(e))
      && (!Storable(e) ==> Normalize(m, now) == None)
      && KeepsEvidence(p, m)
  {
    var n := Normalize(e, now).value;
    NormalizedIsNormalIffStorable(e, now);
    MergedFields(p, n);
    if Storable(e) {
      MergeIsNormal(p, n);
    } else {
      assert Merge(p, n)[ActionKey] == n[ActionKey];
    }
  }

  /** The history without position i. */
  function Dropped(h: seq<Event>, i: nat): (r: seq<Event>)
    requires i < |h|
    ensures |r| == |h| - 1 && forall j :: 0 <= j < |r| ==> r[j] == h[if j < i then j else j + 1]
  {
    h[..i] + h[i + 1..]
  }

  /** How many of the oldest records go when one is added. */
  function Overflow(h: seq<Event>): nat { if |h| < MAX_AUDIT_ENTRIES then 0 else |h| + 1 - MAX_AUDIT_ENTRIES }

  function Appended(h: seq<Event>, n: Event): (r: seq<Event>)
    ensures |r| == |h| + 1 - Overflow(h) && r[|r| - 1] == n
    ensures forall j :: 0 <= j < |r| - 1 ==> r[j] == h[j + Overflow(h)]
  {
    h[Overflow(h)..] + [n]
  }

  /** What one recording does to a journal in normal form: the old record is updated where it
      stands, or the new one goes last and the oldest beyond the bound go; an unreadable
      identity loses the record instead. */
  function Effect(h: seq<Event>, e: Event, now: Time): seq<Event>
    requires ValidIdentity(e)
  {
    var n := Normalize(e, now).value;
    var i := FindId(h, IdOf(n));
    if i < |h| then (if Storable(e) then h[i := Merge(h[i], n)] else Dropped(h, i))
    else if Storable(e) then Appended(h, n)
    else h[Overflow(h)..]
  }

  lemma UpdateNormal(h: seq<Event>, i: nat, m: Event, now: Time)
    requires NormalForm(h) && i < |h| && IsNormal(m)
    ensures NormAll(h[i := m], now) == h[i := m]
  {
    NormalAreFixed(h[i := m], now);
    NormAllFixed(h[i := m], now);
  }

  lemma NormalPartIsFixed(h: seq<Event>, lo: nat, hi: nat, now: Time)
    requires NormalForm(h) && lo <= hi <= |h|
    ensures NormAll(h[lo..hi], now) == h[lo..hi]
  {
    NormalAreFixed(h[lo..hi], now);
    NormAllFixed(h[lo..hi], now);
  }

  lemma UpdateLost(h: seq<Event>, i: nat, m: Event, now: Time)
    requires NormalForm(h) && i < |h| && Normalize(m, now) == None
    ensures NormAll(h[i := m], now) == Dropped(h, i)
  {
    var a, b := h[0..i], h[i + 1..|h|];
    NormalPartIsFixed(h, 0, i, now);
    NormalPartIsFixed(h, i + 1, |h|, now);
    NormAllDrops(a, m, b, now);
    assert h[i := m] == a + [m] + b && Dropped(h, i) == a + b;
  }

  lemma AppendEffect(h: seq<Event>, n: Event, now: Time)
    requires NormalForm(h)
    ensures IsNormal(n) ==> NormAll(Newest(h + [n]), now) == Appended(h, n)
    ensures Normalize(n, now) == None ==> NormAll(Newest(h + [n]), now) == h[Overflow(h)..]
  {
    var kept := h[Overflow(h)..];
    assert Newest(h + [n]) == kept + [n];
    NormalAreFixed(h, now);
    NormAllFixed(kept, now);
    NormAllAppend(kept, n, now);
    if IsNormal(n) { NormalIsFixed(n, now); }
  }

  lemma RecordIsEffect(h: seq<Event>, e: Event, now: Time)
    requires NormalForm(h) && ValidIdentity(e)
    ensures Record(h, e, now) == Effect(h, e, now)
  {
    NormalAreFixed(h, now);
    NormAllFixed(h, now);
    NormalizedIsNormalIffStorable(e, now);
    PlaceIsEffect(h, e, now);
  }

  lemma PlaceIsEffect(h: seq<Event>, e: Event, now: Time)
    requires NormalForm(h) && ValidIdentity(e)
    ensures Place(h, Normalize(e, now).value, now) == Effect(h, e, now)
  {
    var n := Normalize(e, now).value;
    var i := FindId(h, IdOf(n));
    if i < |h| {
      MergeFacts(h[i], e, now);
      if Storable(e) { UpdateNormal(h, i, Merge(h[i], n), now); } else { UpdateLost(h, i, Merge(h[i], n), now); }
    } else {
      NormalizedIsNormalIffStorable(e, now);
      AppendEffect(h, n, now);
    }
  }

  /** Every record stays readable and the bound holds, whatever is recorded. */
  lemma RecordKeepsNormalForm(h: seq<Event>, e: Event, now: Time)
    requires NormalForm(h)
    ensures NormalForm(Record(h, e, now))
  {
    if ValidIdentity(e) {
      RecordIsEffect(h, e, now);
      NormalizedIsNormalIffStorable(e, now);
      var n := Normalize(e, now).value;
      var i := FindId(h, IdOf(n));
      if i < |h| { MergeFacts(h[i], e, now); }
    }
  }

  lemma UpdateKeeps(h: seq<Event>, i: nat, m: Event)
    requires JournalInvariant(h) && i < |h| && IsNormal(m) && IdOf(m) == IdOf(h[i])
    ensures JournalInvariant(h[i := m])
  {}

  lemma DropKeeps(h: seq<Event>, i: nat)
    requires JournalInvariant(h) && i < |h|
    ensures JournalInvariant(Dropped(h, i))
  {}

  lemma AppendKeeps(h: seq<Event>, n: Event)
    requires JournalInvariant(h) && IsNormal(n) && forall j :: 0 <= j < |h| ==> IdOf(h[j]) != IdOf(n)
    ensures JournalInvariant(Appended(h, n))
  {}

  lemma TailKeeps(h: seq<Event>, k: nat)
    requires JournalInvariant(h) && k <= |h|
    ensures JournalInvariant(h[k..])
  {}

  /** Identifiers stay different, the bound holds, and every record stays readable. */
  lemma RecordKeepsInvariant(h: seq<Event>, e: Event, now: Time)
    requires JournalInvariant(h)
    ensures JournalInvariant(Record(h, e, now))
  {
    if ValidIdentity(e) {
      RecordIsEffect(h, e, now);
      NormalizedIsNormalIffStorable(e, now);
      var n := Normalize(e, now).value;
      var i := FindId(h, IdOf(n));
      if i < |h| {
        MergeFacts(h[i], e, now);
        if Storable(e) { UpdateKeeps(h, i, Merge(h[i], n)); } else { DropKeeps(h, i); }
      } else {
        if Storable(e) { AppendKeeps(h, n); } else { TailKeeps(h, Overflow(h)); }
      }
    }
  }

  /** A new readable action goes last; the oldest record leaves only when there are a hundred already. */
  lemma NewActionGoesLast(h: seq<Event>, e: Event, now: Time)
    requires NormalForm(h) && Storable(e) && forall i :: 0 <= i < |h| ==> IdOf(h[i]) != IdOf(Normalize(e, now).value)
    ensures |h| <= 100
    ensures |h| < 100 ==> Record(h, e, now) == h + [Normalize(e, now).value]
    ensures |h| == 100 ==> Record(h, e, now) == h[1..] + [Normalize(e, now).value]
  {
    RecordIsEffect(h, e, now);
    assert FindId(h, IdOf(Normalize(e, now).value)) == |h|;
    assert h[0..] == h;
  }

  /** A known action is updated where it stands. */
  lemma KnownActionIsUpdatedInPlace(h: seq<Event>, e: Event, now: Time, i: nat)
    requires JournalInvariant(h) && Storable(e) && i < |h| && IdOf(h[i]) == IdOf(Normalize(e, now).value)
    ensures Record(h, e, now) == h[i := Merge(h[i], Normalize(e, now).value)]
  {
    RecordIsEffect(h, e, now);
    var n := Normalize(e, now).value;
    assert FindId(h, IdOf(n)) == i;
  }

  ghost predicate Recorded(h: seq<Event>, id: Value) { exists i :: 0 <= i < |h| && IdOf(h[i]) == id }

  /** The action just recorded is in the journal exactly when its identity survives truncation. */
  lemma NewestIsKeptIff(h: seq<Event>, e: Event, now: Time)
    requires JournalInvariant(h) && ValidIdentity(e)
    ensures Recorded(Record(h, e, now), IdOf(Normalize(e, now).value)) <==> Storable(e)
  {
    RecordIsEffect(h, e, now);
    var n := Normalize(e, now).value;
    var i := FindId(h, IdOf(n));
    if i < |h| { MergeFacts(h[i], e, now); }
    if Storable(e) {
      var after := Effect(h, e, now);
      assert IdOf(after[if i < |h| then i else |after| - 1]) == IdOf(n);
    }
  }

  /** Two hundred and fifty-six spaces before the first readable character. */
  function LongBlankId(): string { seq(MAX_FIELD_LENGTH, _ => ' ') + "x" }

  function LongBlankEvent(): Event {
    map[ActionIdKey := Plain(Text(LongBlankId())), ActionKey := Plain(Text("turn_off"))]
  }

  lemma LongBlankIsUnstorable()
    ensures ValidIdentity(LongBlankEvent()) && !Storable(LongBlankEvent())
  {
    var id := LongBlankId();
    assert id[MAX_FIELD_LENGTH] == 'x' && "turn_off"[0] == 't';
    assert Cut(id, MAX_FIELD_LENGTH) == id[..MAX_FIELD_LENGTH];
    assert Blank(id[..MAX_FIELD_LENGTH]);
  }

  /** An accepted identity can still be lost: here only its cut-off tail was readable. */
  lemma AcceptedIdentityCanBeLost(h: seq<Event>, now: Time)
    requires JournalInvariant(h)
    ensures ValidIdentity(LongBlankEvent())
    ensures !Recorded(Record(h, LongBlankEvent(), now), IdOf(Normalize(LongBlankEvent(), now).value))
  {
    LongBlankIsUnstorable();
    NewestIsKeptIff(h, LongBlankEvent(), now);
  }

  lemma EvidenceKeptByUpdate(h: seq<Event>, e: Event, now: Time, i: nat, j: nat)
    requires JournalInvariant(h) && Storable(e) && FindId(h, IdOf(Normalize(e, now).value)) < |h|
    requires i < |h| && j < |h| && IdOf(Effect(h, e, now)[j]) == IdOf(h[i])
    ensures KeepsEvidence(h[i], Effect(h, e, now)[j])
  {
    var n := Normalize(e, now).value;
    var at := FindId(h, IdOf(n));
    MergeFacts(h[at], e, now);
    EvidenceKeptInPlace(h, at, Merge(h[at], n), i, j);
  }

  /** Dropping and evicting change no record: what is left stood in the journal before. */
  lemma EvidenceKeptByLoss(h: seq<Event>, e: Event, now: Time, i: nat, j: nat)
    requires JournalInvariant(h) && ValidIdentity(e) && !Storable(e)
    requires i < |h| && j < |Effect(h, e, now)| && IdOf(Effect(h, e, now)[j]) == IdOf(h[i])
    ensures KeepsEvidence(h[i], Effect(h, e, now)[j])
  {
    var at := FindId(h, IdOf(Normalize(e, now).value));
    SamePlace(h, i, if at < |h| then (if j < at then j else j + 1) else j + Overflow(h));
  }

  lemma EvidenceKeptByAppend(h: seq<Event>, e: Event, now: Time, i: nat, j: nat)
    requires JournalInvariant(h) && Storable(e) && FindId(h, IdOf(Normalize(e, now).value)) == |h|
    requires i < |h| && j < |Effect(h, e, now)| && IdOf(Effect(h, e, now)[j]) == IdOf(h[i])
    ensures KeepsEvidence(h[i], Effect(h, e, now)[j])
  {
    if j < |Effect(h, e, now)| - 1 {
      assert Effect(h, e, now)[j] == h[j + Overflow(h)];
      SamePlace(h, i, j + Overflow(h));
    }
  }

  lemma EvidenceKeptByEffect(h: seq<Event>, e: Event, now: Time, i: nat, j: nat)
    requires JournalInvariant(h) && ValidIdentity(e)
    requires i < |h| && j < |Effect(h, e, now)| && IdOf(Effect(h, e, now)[j]) == IdOf(h[i])
    ensures KeepsEvidence(h[i], Effect(h, e, now)[j])
  {
    if !Storable(e) {
      EvidenceKeptByLoss(h, e, now, i, j);
    } else if FindId(h, IdOf(Normalize(e, now).value)) < |h| {
      EvidenceKeptByUpdate(h, e, now, i, j);
    } else {
      EvidenceKeptByAppend(h, e, now, i, j);
    }
  }

  lemma EvidenceKeptInPlace(h: seq<Event>, at: nat, m: Event, i: nat, j: nat)
    requires DistinctIds(h) && at < |h| && i < |h| && j < |h|
    requires IdOf(m) == IdOf(h[at]) && KeepsEvidence(h[at], m) && IdOf(h[at := m][j]) == IdOf(h[i])
    ensures KeepsEvidence(h[i], h[at := m][j])
  {
    SamePlace(h, i, j);
  }

  lemma SamePlace(h: seq<Event>, i: nat, j: nat)
    requires DistinctIds(h) && i < |h| && j < |h| && IdOf(h[i]) == IdOf(h[j])
    ensures i == j
  {}

  /** A record that stays keeps its first decision evidence through one more recording. */
  lemma EvidenceKeptByStep(h: seq<Event>, e: Event, now: Time, i: nat, j: nat)
    requires JournalInvariant(h)
    requires i < |h| && j < |Record(h, e, now)| && IdOf(Record(h, e, now)[j]) == IdOf(h[i])
    ensures KeepsEvidence(h[i], Record(h, e, now)[j])
  {
    if ValidIdentity(e) {
      RecordIsEffect(h, e, now);
      EvidenceKeptByEffect(h, e, now, i, j);
    } else {
      assert Record(h, e, now) == h;
      SamePlace(h, i, j);
    }
  }

  /** The journal after a whole sequence of recordings, each at its own time. */
  function After(h: seq<Event>, es: seq<(Event, Time)>): seq<Event> {
    if es == [] then h
    else Record(After(h, es[..|es| - 1]), es[|es| - 1].0, es[|es| - 1].1)
  }

  lemma {:induction false} EveryRunKeepsInvariant(h: seq<Event>, es: seq<(Event, Time)>)
    requires JournalInvariant(h)
    ensures JournalInvariant(After(h, es))
  {
    if es != [] {
      EveryRunKeepsInvariant(h, es[..|es| - 1]);
      RecordKeepsInvariant(After(h, es[..|es| - 1]), es[|es| - 1].0, es[|es| - 1].1);
    }
  }

  /** The action stays in the journal through every recording of the run. */
  ghost predicate AlwaysRecorded(h: seq<Event>, es: seq<(Event, Time)>, id: Value) {
    forall n :: 0 <= n <= |es| ==> Recorded(After(h, es[..n]), id)
  }

  lemma AlwaysRecordedBefore(h: seq<Event>, es: seq<(Event, Time)>, id: Value)
    requires es != [] && AlwaysRecorded(h, es, id)
    ensures AlwaysRecorded(h, es[..|es| - 1], id) && Recorded(After(h, es[..|es| - 1]), id)
  {
    var n := |es| - 1;
    forall p | 0 <= p <= n ensures Recorded(After(h, es[..n][..p]), id) {
      assert es[..n][..p] == es[..p];
    }
  }

  /** Whatever is recorded later, a retained action shows the evidence first recorded for it. */
  lemma {:induction false} FirstEvidenceWins(h: seq<Event>, es: seq<(Event, Time)>, i: nat, j: nat)
    requires JournalInvariant(h)
    requires i < |h| && j < |After(h, es)| && IdOf(After(h, es)[j]) == IdOf(h[i])
    requires AlwaysRecorded(h, es, IdOf(h[i]))
    ensures KeepsEvidence(h[i], After(h, es)[j])
  {
    if es == [] {
      SamePlace(h, i, j);
    } else {
      var n := |es| - 1;
      var before := After(h, es[..n]);
      EveryRunKeepsInvariant(h, es[..n]);
      AlwaysRecordedBefore(h, es, IdOf(h[i]));
      var m :| 0 <= m < |before| && IdOf(before[m]) == IdOf(h[i]);
      FirstEvidenceWins(h, es[..n], i, m);
      EvidenceKeptByStep(before, es[n].0, es[n].1, m, j);
    }
  }

  // ---------- Unresolved actions ----------

  predicate HasWord(e: Event, k: Key, p: Phase) { k in e && e[k] == Plain(Word(p)) }

  /** Fields whose text merely spells an unfinished phase read the same to `unresolved_actions`. */
  predicate Unfinished(v: Value) {
    && v.Plain?
    && (v.v == Word(Prepared) || v.v == Word(Dispatched) || v.v == Text("prepared") || v.v == Text("dispatched"))
  }

  predicate IsUnresolved(e: Event) {
    (PhaseKey in e && Unfinished(e[PhaseKey])) || (ResultKey in e && Unfinished(e[ResultKey]))
  }

  function UnresolvedIn(h: seq<Event>): seq<Event> {
    if h == [] then []
    else
      var earlier := UnresolvedIn(h[..|h| - 1]);
      if IsUnresolved(h[|h| - 1]) then earlier + [h[|h| - 1]] else earlier
  }

  /** `unresolved_actions` on an already normalized history: the latest sixteen. */
  function Unresolved(h: seq<Event>): seq<Event> {
    var u := UnresolvedIn(h);
    if |u| <= MAX_UNRESOLVED_ACTIONS then u else u[|u| - MAX_UNRESOLVED_ACTIONS..]
  }

  /** However many actions are unresolved, the newest record is never lost among them. */
  lemma NewestUnresolvedIsReported(h: seq<Event>)
    requires h != [] && IsUnresolved(h[|h| - 1])
    ensures h[|h| - 1] in Unresolved(h)
  {
    var u := UnresolvedIn(h);
    assert u[|u| - 1] == h[|h| - 1];
    assert Unresolved(h)[|Unresolved(h)| - 1] == u[|u| - 1];
  }

  /** The text of a phase or result field, however it got there. */
  ghost predicate Says(e: Event, k: Key, p: Phase, spelled: string) {
    k in e && (e[k] == Plain(Word(p)) || e[k] == Plain(Text(spelled)))
  }

  lemma {:induction false} UnresolvedInMembers(h: seq<Event>)
    ensures forall r :: r in UnresolvedIn(h) <==> r in h && IsUnresolved(r)
    ensures Subsequence(UnresolvedIn(h), h)
  {
    if h != [] {
      var n := |h| - 1;
      UnresolvedInMembers(h[..n]);
      assert h == h[..n] + [h[n]];
      if IsUnresolved(h[n]) {
        SubsequenceSnoc(UnresolvedIn(h[..n]), h[..n], h[n]);
      } else {
        SubsequenceWider(UnresolvedIn(h[..n]), h[..n], h[n]);
      }
    }
  }

  lemma {:induction false} SubsequenceSnoc<T>(xs: seq<T>, ys: seq<T>, z: T)
    requires Subsequence(xs, ys)
    ensures Subsequence(xs + [z], ys + [z])
    decreases |ys|
  {
    if ys == [] {
      assert xs + [z] == [z] && ys + [z] == [z];
      assert [z][1..] == [];
    } else {
      assert (ys + [z])[1..] == ys[1..] + [z];
      if xs != [] && xs[0] == ys[0] && Subsequence(xs[1..], ys[1..]) {
        assert (xs + [z])[1..] == xs[1..] + [z];
        SubsequenceSnoc(xs[1..], ys[1..], z);
      } else {
        SubsequenceSnoc(xs, ys[1..], z);
      }
    }
  }

  lemma {:induction false} SubsequenceWider<T>(xs: seq<T>, ys: seq<T>, z: T)
    requires Subsequence(xs, ys)
    ensures Subsequence(xs, ys + [z])
    decreases |ys|
  {
    if xs != [] {
      assert (ys + [z])[1..] == ys[1..] + [z];
      if xs[0] == ys[0] && Subsequence(xs[1..], ys[1..]) {
        SubsequenceWider(xs[1..], ys[1..], z);
      } else {
        SubsequenceWider(xs, ys[1..], z);
      }
    }
  }

  /** A record is unfinished iff its phase or its result says prepared or dispatched; the report is all such
      records in order when they are at most sixteen, and the last sixteen otherwise. */
  lemma UnresolvedAreTheLatestUnfinished(h: seq<Event>)
    ensures forall e :: IsUnresolved(e) <==>
      || Says(e, PhaseKey, Prepared, "prepared") || Says(e, PhaseKey, Dispatched, "dispatched")
      || Says(e, ResultKey, Prepared, "prepared") || Says(e, ResultKey, Dispatched, "dispatched")
    ensures forall r :: r in UnresolvedIn(h) <==> r in h && IsUnresolved(r)
    ensures Subsequence(UnresolvedIn(h), h)
    ensures |UnresolvedIn(h)| <= 16 ==> Unresolved(h) == UnresolvedIn(h)
    ensures |UnresolvedIn(h)| > 16 ==> Unresolved(h) == UnresolvedIn(h)[|UnresolvedIn(h)| - 16..]
  {
    UnresolvedInMembers(h);
  }
}
