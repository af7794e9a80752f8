/**
 Which message a JSON document is, member by member, as a relation: no order of checks, no errors.
 */
module MessageGrammar {
  import opened JsonTree
  import opened Messages
  import opened Timestamp
  import opened Wrappers

  /** The i-th member is the first of this name. */
  predicate IsFirst(members: seq<(string, Json)>, key: string, value: Json, i: int) {
    && 0 <= i < |members| && members[i] == (key, value)
    && forall j :: 0 <= j < i ==> members[j].0 != key
  }

  /** The first member of this name has this value. */
  predicate Has(item: Json, key: string, value: Json) {
    item.Object? && exists i :: 0 <= i < |item.members| && IsFirst(item.members, key, value, i)
  }

  lemma {:induction false} FindIsFirst(members: seq<(string, Json)>, key: string, value: Json)
    ensures Find(members, key) == Some(value) <==> Has(Object(members), key, value)
  {
    if members != [] {
      FindIsFirst(members[1..], key, value);
      if members[0].0 == key {
        assert IsFirst(members, key, members[0].1, 0);
      } else if Has(Object(members), key, value) {
        var i :| 0 <= i < |members| && IsFirst(members, key, value, i);
        OneEarlier(members, key, value, i);
      } else if Has(Object(members[1..]), key, value) {
        var i :| 0 <= i < |members[1..]| && IsFirst(members[1..], key, value, i);
        OneLater(members, key, value, i);
      }
    }
  }

  lemma OneEarlier(members: seq<(string, Json)>, key: string, value: Json, i: int)
    requires i > 0 && IsFirst(members, key, value, i)
    ensures IsFirst(members[1..], key, value, i - 1)
  {
    assert forall j :: 0 <= j < i - 1 ==> members[1..][j] == members[j + 1];
  }

  lemma OneLater(members: seq<(string, Json)>, key: string, value: Json, i: int)
    requires members != [] && members[0].0 != key && IsFirst(members[1..], key, value, i)
    ensures IsFirst(members, key, value, i + 1)
  {
    forall j | 0 <= j < i + 1 ensures members[j].0 != key {
      if j > 0 {
        assert members[j] == members[1..][j - 1];
      }
    }
  }

  /** What the accessors look at is the first member of the name. */
  lemma MemberIsFirst(item: Json, key: string, value: Json)
    ensures Member(item, key) == Some(value) <==> Has(item, key, value)
  {
    if item.Object? {
      FindIsFirst(item.members, key, value);
    }
  }

  predicate HasText(item: Json, key: string, text: string) {
    Member(item, key) == Some(String(text))
  }

  /** A number as an `int`. */
  predicate HasInt(item: Json, key: string, n: int) {
    match Member(item, key)
    case Some(Number(x)) => n == ValueInt(x)
    case _ => false
  }

  predicate HasNumber(item: Json, key: string, x: real) {
    Member(item, key) == Some(Number(x))
  }

  predicate HasTime(item: Json, key: string, ms: int) {
    match Member(item, key)
    case Some(String(text)) => ParsedMs(text) == Some(ms)
    case _ => false
  }

  /** Anything but a number counts as missing. */
  predicate MayHaveNumber(item: Json, key: string, x: Option<real>) {
    match Member(item, key)
    case Some(Number(n)) => x == Some(n)
    case _ => x == None
  }

  predicate HasFlag(item: Json, key: string, flag: bool) {
    flag <==> Member(item, key) == Some(Bool(true))
  }

  /** Any value, as compact text; empty when missing. */
  predicate HasRaw(item: Json, key: string, text: string, printer: Printer) {
    match Member(item, key)
    case Some(value) => text == printer(value)
    case None => text == ""
  }

  predicate IsEnvelope(root: Json, e: Envelope) {
    && HasInt(root, "schema_version", e.schemaVersion) && HasText(root, "source", e.source)
    && HasText(root, "machine_id", e.machineId) && HasTime(root, "sent_at_utc", e.sentAtMs)
  }

  predicate IsHello(root: Json, m: BridgeMessage, printer: Printer) {
    && m.Hello? && HasText(root, "type", "hello") && IsEnvelope(root, m.envelope)
    && HasText(root, "bridge_version", m.bridgeVersion) && HasText(root, "hostname", m.hostname)
    && HasInt(root, "pid", m.pid) && HasInt(root, "sample_interval_ms", m.sampleIntervalMs)
    && HasRaw(root, "capabilities", m.capabilitiesJson, printer)
  }

  /** The uptime is truncated without the limits of an `int`. */
  predicate IsHeartbeat(root: Json, m: BridgeMessage) {
    && m.Heartbeat? && HasText(root, "type", "heartbeat") && IsEnvelope(root, m.envelope)
    && HasText(root, "status", m.status) && HasInt(root, "catalog_count", m.catalogCount)
    && match Member(root, "uptime_s")
       case Some(Number(x)) => m.uptimeSeconds == Truncate(x)
       case _ => false
  }

  predicate IsSensor(item: Json, s: CatalogSensor, printer: Printer) {
    && item.Object?
    && HasText(item, "sensor_uid", s.sensorUid) && HasText(item, "hardware_uid", s.hardwareUid)
    && HasText(item, "hardware_path", s.hardwarePath) && HasText(item, "hardware_name", s.hardwareName)
    && HasText(item, "hardware_type", s.hardwareType) && HasText(item, "sensor_path", s.sensorPath)
    && HasText(item, "sensor_name", s.sensorName) && HasText(item, "sensor_type", s.sensorType)
    && HasInt(item, "sensor_index", s.sensorIndex) && HasText(item, "unit", s.unit)
    && HasFlag(item, "is_default_hidden", s.isDefaultHidden)
    && HasRaw(item, "properties", s.propertiesJson, printer)
  }

  predicate IsSample(item: Json, s: SensorSample) {
    && item.Object?
    && HasText(item, "sensor_uid", s.sensorUid) && HasText(item, "quality", s.quality)
    && HasNumber(item, "value", s.value)
    && MayHaveNumber(item, "min", s.minValue) && MayHaveNumber(item, "max", s.maxValue)
  }

  predicate IsCatalog(root: Json, m: BridgeMessage, printer: Printer) {
    && m.CatalogSnapshot? && HasText(root, "type", "catalog_snapshot") && IsEnvelope(root, m.envelope)
    && match Member(root, "sensors")
       case Some(Array(items)) =>
         |items| == |m.sensors| && forall i :: 0 <= i < |items| ==> IsSensor(items[i], m.sensors[i], printer)
       case _ => false
  }

  predicate IsBatch(root: Json, m: BridgeMessage) {
    && m.SampleBatch? && HasText(root, "type", "sample_batch") && IsEnvelope(root, m.envelope)
    && HasTime(root, "sample_time_utc", m.sampleTimeMs)
    && match Member(root, "samples")
       case Some(Array(items)) =>
         |items| == |m.samples| && forall i :: 0 <= i < |items| ==> IsSample(items[i], m.samples[i])
       case _ => false
  }

  /** The document is this message. */
  predicate IsMessage(root: Json, m: BridgeMessage, printer: Printer) {
    IsHello(root, m, printer) || IsHeartbeat(root, m) || IsCatalog(root, m, printer) || IsBatch(root, m)
  }
}
