/**
 The bridge: two recursive walks of the hardware tree, the documents it sends, and the messages the
 agent reads them as.
 */
module Bridge {
  import opened JsonTree
  import opened MessageParser
  import opened Messages
  import opened Subsequence
  import opened Timestamp
  import opened Wrappers

  datatype Sensor = Sensor(
    identifier: string, name: string, sensorType: string, index: int, unit: string, isDefaultHidden: bool,
    value: Option<real>, min: Option<real>, max: Option<real>)

  datatype Hardware = Hardware(
    identifier: string, name: string, hardwareType: string, properties: seq<(string, string)>,
    sensors: seq<Sensor>, subHardware: seq<Hardware>)

  /** One entry of the catalog: a sensor with the hardware it belongs to. */
  datatype Entry = Entry(hardware: Hardware, sensor: Sensor)

  function SensorUid(sensor: Sensor): string {
    "librehw:" + sensor.identifier
  }

  // ---- The walks ----

  function EntriesOf(hardware: Hardware, sensors: seq<Sensor>): seq<Entry> {
    if sensors == [] then [] else [Entry(hardware, sensors[0])] + EntriesOf(hardware, sensors[1..])
  }

  function CatalogOfTree(hardware: Hardware): seq<Entry>
    decreases hardware, 1
  {
    EntriesOf(hardware, hardware.sensors) + CatalogOfTrees(hardware.subHardware)
  }

  function CatalogOfTrees(trees: seq<Hardware>): seq<Entry>
    decreases trees, 0
  {
    if trees == [] then [] else CatalogOfTree(trees[0]) + CatalogOfTrees(trees[1..])
  }

  /** A sensor without a value is skipped. */
  function SampleOfSensor(sensor: Sensor): seq<SensorSample> {
    if sensor.value.None? then []
    else [SensorSample(SensorUid(sensor), sensor.value.value, sensor.min, sensor.max, "ok")]
  }

  function SamplesOfSensors(sensors: seq<Sensor>): seq<SensorSample> {
    if sensors == [] then [] else SampleOfSensor(sensors[0]) + SamplesOfSensors(sensors[1..])
  }

  function SamplesOfTree(hardware: Hardware): seq<SensorSample>
    decreases hardware, 1
  {
    SamplesOfSensors(hardware.sensors) + SamplesOfTrees(hardware.subHardware)
  }

  function SamplesOfTrees(trees: seq<Hardware>): seq<SensorSample>
    decreases trees, 0
  {
    if trees == [] then [] else SamplesOfTree(trees[0]) + SamplesOfTrees(trees[1..])
  }

  lemma NextSensor(sensors: seq<Sensor>, i: nat, collected: seq<SensorSample>)
    requires i < |sensors|
    ensures collected + SamplesOfSensors(sensors[i..])
         == collected + SampleOfSensor(sensors[i]) + SamplesOfSensors(sensors[i + 1..])
    ensures collected + [] == collected
  {
    assert sensors[i..][1..] == sensors[i + 1..];
  }

  lemma NextTree(trees: seq<Hardware>, i: nat, collected: seq<SensorSample>)
    requires i < |trees|
    ensures collected + SamplesOfTrees(trees[i..])
         == collected + SamplesOfTree(trees[i]) + SamplesOfTrees(trees[i + 1..])
  {
    assert trees[i..][1..] == trees[i + 1..];
  }

  lemma NextCatalogTree(trees: seq<Hardware>, i: nat, collected: seq<Entry>)
    requires i < |trees|
    ensures collected + CatalogOfTrees(trees[i..])
         == collected + CatalogOfTree(trees[i]) + CatalogOfTrees(trees[i + 1..])
  {
    assert trees[i..][1..] == trees[i + 1..];
  }

  /** The list the recursive collectors append to. */
  class Collection<T> {
    var items: seq<T>

    constructor ()
      ensures items == []
    {
      items := [];
    }

    method Add(item: T)
      modifies this
      ensures items == old(items) + [item]
    {
      items := items + [item];
    }
  }

  method CollectCatalogRecursive(hardware: Hardware, catalog: Collection<Entry>)
    modifies catalog
    ensures catalog.items == old(catalog.items) + CatalogOfTree(hardware)
    decreases hardware
  {
    ghost var before := catalog.items;
    for i := 0 to |hardware.sensors|
      invariant catalog.items + EntriesOf(hardware, hardware.sensors[i..])
             == before + EntriesOf(hardware, hardware.sensors)
    {
      assert hardware.sensors[i..][1..] == hardware.sensors[i + 1..];
      catalog.Add(Entry(hardware, hardware.sensors[i]));
    }
    ghost var middle := catalog.items;
    assert middle == before + EntriesOf(hardware, hardware.sensors);
    assert before + CatalogOfTree(hardware) == middle + CatalogOfTrees(hardware.subHardware);
    for i := 0 to |hardware.subHardware|
      invariant catalog.items + CatalogOfTrees(hardware.subHardware[i..])
             == middle + CatalogOfTrees(hardware.subHardware)
    {
      NextCatalogTree(hardware.subHardware, i, catalog.items);
      CollectCatalogRecursive(hardware.subHardware[i], catalog);
    }
  }

  method CollectSamplesRecursive(hardware: Hardware, samples: Collection<SensorSample>)
    modifies samples
    ensures samples.items == old(samples.items) + SamplesOfTree(hardware)
    decreases hardware
  {
    ghost var before := samples.items;
    for i := 0 to |hardware.sensors|
      invariant samples.items + SamplesOfSensors(hardware.sensors[i..]) == before + SamplesOfSensors(hardware.sensors)
    {
      var sensor := hardware.sensors[i];
      NextSensor(hardware.sensors, i, samples.items);
      if sensor.value.None? {
        continue;
      }
      samples.Add(SensorSample(SensorUid(sensor), sensor.value.value, sensor.min, sensor.max, "ok"));
    }
    ghost var middle := samples.items;
    assert middle == before + SamplesOfSensors(hardware.sensors);
    assert before + SamplesOfTree(hardware) == middle + SamplesOfTrees(hardware.subHardware);
    for i := 0 to |hardware.subHardware|
      invariant samples.items + SamplesOfTrees(hardware.subHardware[i..])
             == middle + SamplesOfTrees(hardware.subHardware)
    {
      NextTree(hardware.subHardware, i, samples.items);
      CollectSamplesRecursive(hardware.subHardware[i], samples);
    }
  }

  method BuildCatalog(computer: seq<Hardware>) returns (entries: seq<Entry>)
    ensures entries == CatalogOfTrees(computer)
  {
    var catalog := new Collection<Entry>();
    for i := 0 to |computer|
      invariant catalog.items + CatalogOfTrees(computer[i..]) == CatalogOfTrees(computer)
    {
      NextCatalogTree(computer, i, catalog.items);
      CollectCatalogRecursive(computer[i], catalog);
    }
    entries := catalog.items;
  }

  method BuildSamples(computer: seq<Hardware>) returns (items: seq<SensorSample>)
    ensures items == SamplesOfTrees(computer)
  {
    var samples := new Collection<SensorSample>();
    for i := 0 to |computer|
      invariant samples.items + SamplesOfTrees(computer[i..]) == SamplesOfTrees(computer)
    {
      NextTree(computer, i, samples.items);
      CollectSamplesRecursive(computer[i], samples);
    }
    items := samples.items;
  }

  // ---- Sampled sensors are catalogued ----

  /** The same sensors in the same places; names, values and properties may differ. */
  predicate SameSensors(a: seq<Sensor>, b: seq<Sensor>) {
    |a| == |b| && forall i :: 0 <= i < |a| ==> a[i].identifier == b[i].identifier
  }

  predicate SameShape(a: Hardware, b: Hardware)
    decreases a, 1
  {
    SameSensors(a.sensors, b.sensors) && SameShapes(a.subHardware, b.subHardware)
  }

  predicate SameShapes(a: seq<Hardware>, b: seq<Hardware>)
    decreases a, 0
  {
    |a| == |b| && (a == [] || (SameShape(a[0], b[0]) && SameShapes(a[1..], b[1..])))
  }

  function EntryUids(entries: seq<Entry>): seq<string> {
    if entries == [] then [] else [SensorUid(entries[0].sensor)] + EntryUids(entries[1..])
  }

  function SampleUids(samples: seq<SensorSample>): seq<string> {
    if samples == [] then [] else [samples[0].sensorUid] + SampleUids(samples[1..])
  }

  lemma {:induction false} EntryUidsConcat(a: seq<Entry>, b: seq<Entry>)
    ensures EntryUids(a + b) == EntryUids(a) + EntryUids(b)
  {
    if a == [] {
      assert a + b == b;
    } else {
      assert (a + b)[1..] == a[1..] + b;
      EntryUidsConcat(a[1..], b);
    }
  }

  lemma {:induction false} SampleUidsConcat(a: seq<SensorSample>, b: seq<SensorSample>)
    ensures SampleUids(a + b) == SampleUids(a) + SampleUids(b)
  {
    if a == [] {
      assert a + b == b;
    } else {
      assert (a + b)[1..] == a[1..] + b;
      SampleUidsConcat(a[1..], b);
    }
  }

  lemma {:induction false} SensorsAreListed(hardware: Hardware, a: seq<Sensor>, b: seq<Sensor>)
    requires SameSensors(a, b)
    ensures Sub(SampleUids(SamplesOfSensors(b)), EntryUids(EntriesOf(hardware, a)))
    decreases |a|
  {
    if a != [] {
      SensorsAreListed(hardware, a[1..], b[1..]);
      var rest := SamplesOfSensors(b[1..]);
      SampleUidsConcat(SampleOfSensor(b[0]), rest);
      var uid := SensorUid(a[0]);
      assert EntryUids(EntriesOf(hardware, a)) == [uid] + EntryUids(EntriesOf(hardware, a[1..]));
      assert SampleUids(SampleOfSensor(b[0])) == if b[0].value.None? then [] else [uid];
      assert Sub([], [uid]) && [uid][1..] == [] && Sub([uid], [uid]);
      SubConcat(SampleUids(SampleOfSensor(b[0])), [uid], SampleUids(rest), EntryUids(EntriesOf(hardware, a[1..])));
    }
  }

  lemma {:induction false} TreeIsListed(a: Hardware, b: Hardware)
    requires SameShape(a, b)
    ensures Sub(SampleUids(SamplesOfTree(b)), EntryUids(CatalogOfTree(a)))
    decreases a, 1
  {
    SensorsAreListed(a, a.sensors, b.sensors);
    SampledIsCatalogued(a.subHardware, b.subHardware);
    SampleUidsConcat(SamplesOfSensors(b.sensors), SamplesOfTrees(b.subHardware));
    EntryUidsConcat(EntriesOf(a, a.sensors), CatalogOfTrees(a.subHardware));
    SubConcat(SampleUids(SamplesOfSensors(b.sensors)), EntryUids(EntriesOf(a, a.sensors)),
              SampleUids(SamplesOfTrees(b.subHardware)), EntryUids(CatalogOfTrees(a.subHardware)));
  }

  /** While the hardware keeps its shape, the uids of every batch are a subsequence of the catalog's. */
  lemma {:induction false} SampledIsCatalogued(a: seq<Hardware>, b: seq<Hardware>)
    requires SameShapes(a, b)
    ensures Sub(SampleUids(SamplesOfTrees(b)), EntryUids(CatalogOfTrees(a)))
    decreases a, 0
  {
    if a != [] {
      TreeIsListed(a[0], b[0]);
      SampledIsCatalogued(a[1..], b[1..]);
      SampleUidsConcat(SamplesOfTree(b[0]), SamplesOfTrees(b[1..]));
      EntryUidsConcat(CatalogOfTree(a[0]), CatalogOfTrees(a[1..]));
      SubConcat(SampleUids(SamplesOfTree(b[0])), EntryUids(CatalogOfTree(a[0])),
                SampleUids(SamplesOfTrees(b[1..])), EntryUids(CatalogOfTrees(a[1..])));
    }
  }

  // ---- The documents ----

  type Members = seq<(string, Json)>

  /** Who sends, and when. */
  datatype Sender = Sender(source: string, machineId: string)

  function Head(kind: string, sender: Sender, sentAt: string): Members {
    [("type", String(kind)), ("schema_version", Number(1.0)), ("source", String(sender.source)),
     ("machine_id", String(sender.machineId)), ("sent_at_utc", String(sentAt))]
  }

  function OptionalTree(x: Option<real>): Json {
    if x.Some? then Number(x.value) else Null
  }

  function SampleTree(s: SensorSample): Json {
    Object([("sensor_uid", String(s.sensorUid)), ("value", Number(s.value)), ("min", OptionalTree(s.minValue)),
            ("max", OptionalTree(s.maxValue)), ("quality", String(s.quality))])
  }

  function PropertiesTree(properties: seq<(string, string)>): Json {
    Object(seq(|properties|, i requires 0 <= i < |properties| => (properties[i].0, String(properties[i].1))))
  }

  function EntryTree(e: Entry): Json {
    Object([("sensor_uid", String(SensorUid(e.sensor))),
            ("hardware_uid", String("librehw:" + e.hardware.identifier)),
            ("hardware_path", String(e.hardware.identifier)),
            ("hardware_name", String(e.hardware.name)),
            ("hardware_type", String(e.hardware.hardwareType)),
            ("sensor_path", String(e.sensor.identifier)),
            ("sensor_name", String(e.sensor.name)),
            ("sensor_type", String(e.sensor.sensorType)),
            ("sensor_index", Number(e.sensor.index as real)),
            ("unit", String(e.sensor.unit)),
            ("is_default_hidden", Bool(e.sensor.isDefaultHidden)),
            ("properties", PropertiesTree(e.hardware.properties))])
  }

  function SampleTrees(samples: seq<SensorSample>): seq<Json> {
    if samples == [] then [] else SampleTrees(samples[..|samples| - 1]) + [SampleTree(samples[|samples| - 1])]
  }

  function EntryTrees(entries: seq<Entry>): seq<Json> {
    if entries == [] then [] else EntryTrees(entries[..|entries| - 1]) + [EntryTree(entries[|entries| - 1])]
  }

  function CatalogTree(sender: Sender, sentAt: string, entries: seq<Entry>): Json {
    Object(Head("catalog_snapshot", sender, sentAt) + [("sensors", Array(EntryTrees(entries)))])
  }

  function BatchTree(sender: Sender, sentAt: string, sampleTime: string, samples: seq<SensorSample>): Json {
    Object(Head("sample_batch", sender, sentAt)
           + [("sample_time_utc", String(sampleTime)), ("samples", Array(SampleTrees(samples)))])
  }

  function HelloTree(sender: Sender, sentAt: string, bridgeVersion: string, hostname: string, pid: int,
                     sampleIntervalMs: int, capabilities: Json): Json {
    Object(Head("hello", sender, sentAt)
           + [("bridge_version", String(bridgeVersion)), ("hostname", String(hostname)),
              ("pid", Number(pid as real)), ("sample_interval_ms", Number(sampleIntervalMs as real)),
              ("capabilities", capabilities)])
  }

  function HeartbeatTree(sender: Sender, sentAt: string, uptimeSeconds: int, catalogCount: int): Json {
    Object(Head("heartbeat", sender, sentAt)
           + [("status", String("ok")), ("uptime_s", Number(uptimeSeconds as real)),
              ("catalog_count", Number(catalogCount as real))])
  }

  // ---- What the agent reads ----

  predicate Int32(x: int) {
    -0x8000_0000 <= x < 0x8000_0000
  }

  lemma NumberIsRead(x: int)
    ensures Truncate(x as real) == x
    ensures Int32(x) ==> ValueInt(x as real) == x
  {
    if x < 0 {
      assert -(x as real) == (-x) as real;
    }
  }

  lemma {:induction false} FindAt(members: Members, i: nat, key: string)
    requires i < |members| && members[i].0 == key && forall j :: 0 <= j < i ==> members[j].0 != key
    ensures Find(members, key) == Some(members[i].1)
    decreases i
  {
    if i > 0 {
      FindAt(members[1..], i - 1, key);
    }
  }

  lemma {:induction false} FindInFront(front: Members, back: Members, key: string)
    requires Find(front, key).Some?
    ensures Find(front + back, key) == Find(front, key)
  {
    assert (front + back)[1..] == front[1..] + back;
    if front[0].0 != key {
      FindInFront(front[1..], back, key);
    }
  }

  lemma {:induction false} FindInBack(front: Members, back: Members, key: string)
    requires forall i :: 0 <= i < |front| ==> front[i].0 != key
    ensures Find(front + back, key) == Find(back, key)
  {
    if front == [] {
      assert front + back == back;
    } else {
      assert (front + back)[1..] == front[1..] + back;
      FindInBack(front[1..], back, key);
    }
  }

  function ReadEnvelope(sender: Sender, sentAtMs: int): Envelope {
    Envelope(1, sender.source, sender.machineId, sentAtMs)
  }

  lemma HeadLookups(kind: string, sender: Sender, sentAt: string)
    ensures var head := Head(kind, sender, sentAt);
            && Find(head, "type") == Some(String(kind))
            && Find(head, "schema_version") == Some(Number(1.0))
            && Find(head, "source") == Some(String(sender.source))
            && Find(head, "machine_id") == Some(String(sender.machineId))
            && Find(head, "sent_at_utc") == Some(String(sentAt))
  {
    var head := Head(kind, sender, sentAt);
    FindAt(head, 0, "type");
    FindAt(head, 1, "schema_version");
    FindAt(head, 2, "source");
    FindAt(head, 3, "machine_id");
    FindAt(head, 4, "sent_at_utc");
  }

  lemma HeadIsRead(kind: string, sender: Sender, sentAt: string, sentAtMs: int, rest: Members)
    requires ParsedMs(sentAt) == Some(sentAtMs)
    ensures var root := Object(Head(kind, sender, sentAt) + rest);
            && RequiredString(root, "type") == Ok(kind)
            && EnvelopeOf(root) == Ok(ReadEnvelope(sender, sentAtMs))
  {
    var head := Head(kind, sender, sentAt);
    HeadLookups(kind, sender, sentAt);
    FindInFront(head, rest, "type");
    FindInFront(head, rest, "schema_version");
    FindInFront(head, rest, "source");
    FindInFront(head, rest, "machine_id");
    FindInFront(head, rest, "sent_at_utc");
    NumberIsRead(1);
  }

  lemma SampleIsRead(s: SensorSample)
    ensures SampleOf(SampleTree(s)) == Ok(s)
  {
    var members := SampleTree(s).members;
    FindAt(members, 0, "sensor_uid");
    FindAt(members, 1, "value");
    FindAt(members, 2, "min");
    FindAt(members, 3, "max");
    FindAt(members, 4, "quality");
  }

  lemma {:induction false} SamplesAreRead(samples: seq<SensorSample>)
    ensures ReadAll(SampleTrees(samples), SAMPLE_READER) == Ok(samples)
  {
    if samples != [] {
      var front := samples[..|samples| - 1];
      SamplesAreRead(front);
      SampleIsRead(samples[|samples| - 1]);
      var trees := SampleTrees(samples);
      assert trees[..|trees| - 1] == SampleTrees(front);
      assert samples == front + [samples[|samples| - 1]];
    }
  }

  lemma BatchLookups(sender: Sender, sentAt: string, sampleTime: string, samples: seq<SensorSample>)
    ensures var root := BatchTree(sender, sentAt, sampleTime, samples);
            && RequiredString(root, "sample_time_utc") == Ok(sampleTime)
            && RequiredArray(root, "samples") == Ok(SampleTrees(samples))
  {
    var head := Head("sample_batch", sender, sentAt);
    var rest := [("sample_time_utc", String(sampleTime)), ("samples", Array(SampleTrees(samples)))];
    FindInBack(head, rest, "sample_time_utc");
    FindInBack(head, rest, "samples");
    FindAt(rest, 0, "sample_time_utc");
    FindAt(rest, 1, "samples");
  }

  /** A batch the bridge sends is read as the same samples, at the millisecond of its sample time. */
  lemma BatchIsRead(sender: Sender, sentAt: string, sentAtMs: int, sampleTime: string, sampleTimeMs: int,
                    samples: seq<SensorSample>, printer: Printer)
    requires ParsedMs(sentAt) == Some(sentAtMs) && ParsedMs(sampleTime) == Some(sampleTimeMs)
    ensures MessageOf(Some(BatchTree(sender, sentAt, sampleTime, samples)), printer)
         == Ok(SampleBatch(ReadEnvelope(sender, sentAtMs), sampleTimeMs, samples))
  {
    var rest := [("sample_time_utc", String(sampleTime)), ("samples", Array(SampleTrees(samples)))];
    HeadIsRead("sample_batch", sender, sentAt, sentAtMs, rest);
    BatchLookups(sender, sentAt, sampleTime, samples);
    SamplesAreRead(samples);
  }

  /** A catalog entry as the agent holds it. */
  function ReadSensor(e: Entry, printer: Printer): CatalogSensor {
    CatalogSensor(SensorUid(e.sensor), "librehw:" + e.hardware.identifier, e.hardware.identifier,
                  e.hardware.name, e.hardware.hardwareType, e.sensor.identifier, e.sensor.name,
                  e.sensor.sensorType, e.sensor.index, e.sensor.unit, e.sensor.isDefaultHidden,
                  printer(PropertiesTree(e.hardware.properties)))
  }

  function ReadSensors(entries: seq<Entry>, printer: Printer): seq<CatalogSensor> {
    if entries == [] then []
    else ReadSensors(entries[..|entries| - 1], printer) + [ReadSensor(entries[|entries| - 1], printer)]
  }

  lemma EntryUidLookups(e: Entry)
    ensures var root := EntryTree(e);
            && RequiredString(root, "sensor_uid") == Ok(SensorUid(e.sensor))
            && RequiredString(root, "hardware_uid") == Ok("librehw:" + e.hardware.identifier)
            && RequiredString(root, "hardware_path") == Ok(e.hardware.identifier)
  {
    var members := EntryTree(e).members;
    FindAt(members, 0, "sensor_uid");
    FindAt(members, 1, "hardware_uid");
    FindAt(members, 2, "hardware_path");
  }

  lemma EntryHardwareLookups(e: Entry)
    ensures var root := EntryTree(e);
            && RequiredString(root, "hardware_name") == Ok(e.hardware.name)
            && RequiredString(root, "hardware_type") == Ok(e.hardware.hardwareType)
            && RequiredString(root, "sensor_path") == Ok(e.sensor.identifier)
  {
    var members := EntryTree(e).members;
    FindAt(members, 3, "hardware_name");
    FindAt(members, 4, "hardware_type");
    FindAt(members, 5, "sensor_path");
  }

  lemma EntrySensorLookups(e: Entry)
    ensures var root := EntryTree(e);
            && RequiredString(root, "sensor_name") == Ok(e.sensor.name)
            && RequiredString(root, "sensor_type") == Ok(e.sensor.sensorType)
            && RequiredNumber(root, "sensor_index") == Ok(e.sensor.index as real)
  {
    var members := EntryTree(e).members;
    FindAt(members, 6, "sensor_name");
    FindAt(members, 7, "sensor_type");
    FindAt(members, 8, "sensor_index");
  }

  lemma EntryOtherLookups(e: Entry)
    ensures var root := EntryTree(e);
            && RequiredString(root, "unit") == Ok(e.sensor.unit)
            && Member(root, "is_default_hidden") == Some(Bool(e.sensor.isDefaultHidden))
            && Member(root, "properties") == Some(PropertiesTree(e.hardware.properties))
  {
    var members := EntryTree(e).members;
    FindAt(members, 9, "unit");
    FindAt(members, 10, "is_default_hidden");
    FindAt(members, 11, "properties");
  }

  lemma EntryIsRead(e: Entry, printer: Printer)
    requires Int32(e.sensor.index)
    ensures SensorOf(EntryTree(e), printer) == Ok(ReadSensor(e, printer))
  {
    EntryUidLookups(e);
    EntryHardwareLookups(e);
    EntrySensorLookups(e);
    EntryOtherLookups(e);
    NumberIsRead(e.sensor.index);
  }

  lemma {:induction false} EntriesAreRead(entries: seq<Entry>, printer: Printer)
    requires forall i :: 0 <= i < |entries| ==> Int32(entries[i].sensor.index)
    ensures ReadAll(EntryTrees(entries), SensorReader(printer)) == Ok(ReadSensors(entries, printer))
  {
    if entries != [] {
      var front := entries[..|entries| - 1];
      EntriesAreRead(front, printer);
      EntryIsRead(entries[|entries| - 1], printer);
      var trees := EntryTrees(entries);
      assert trees[..|trees| - 1] == EntryTrees(front);
    }
  }

  lemma CatalogLookups(sender: Sender, sentAt: string, entries: seq<Entry>)
    ensures RequiredArray(CatalogTree(sender, sentAt, entries), "sensors") == Ok(EntryTrees(entries))
  {
    var rest := [("sensors", Array(EntryTrees(entries)))];
    FindInBack(Head("catalog_snapshot", sender, sentAt), rest, "sensors");
    FindAt(rest, 0, "sensors");
  }

  lemma CatalogOfParts(root: Json, envelope: Envelope, items: seq<Json>, sensors: seq<CatalogSensor>, printer: Printer)
    requires RequiredString(root, "type") == Ok("catalog_snapshot") && EnvelopeOf(root) == Ok(envelope)
    requires RequiredArray(root, "sensors") == Ok(items) && ReadAll(items, SensorReader(printer)) == Ok(sensors)
    ensures MessageOf(Some(root), printer) == Ok(CatalogSnapshot(envelope, sensors))
  {
  }

  /** A catalog the bridge sends is read as the same sensors, in order. */
  lemma CatalogIsRead(sender: Sender, sentAt: string, sentAtMs: int, entries: seq<Entry>, printer: Printer)
    requires ParsedMs(sentAt) == Some(sentAtMs)
    requires forall i :: 0 <= i < |entries| ==> Int32(entries[i].sensor.index)
    ensures MessageOf(Some(CatalogTree(sender, sentAt, entries)), printer)
         == Ok(CatalogSnapshot(ReadEnvelope(sender, sentAtMs), ReadSensors(entries, printer)))
  {
    HeadIsRead("catalog_snapshot", sender, sentAt, sentAtMs, [("sensors", Array(EntryTrees(entries)))]);
    CatalogLookups(sender, sentAt, entries);
    EntriesAreRead(entries, printer);
    CatalogOfParts(CatalogTree(sender, sentAt, entries), ReadEnvelope(sender, sentAtMs), EntryTrees(entries),
                   ReadSensors(entries, printer), printer);
  }

  lemma HelloLookups(sender: Sender, sentAt: string, bridgeVersion: string, hostname: string, pid: int,
                     sampleIntervalMs: int, capabilities: Json)
    ensures var root := HelloTree(sender, sentAt, bridgeVersion, hostname, pid, sampleIntervalMs, capabilities);
            && RequiredString(root, "bridge_version") == Ok(bridgeVersion)
            && RequiredString(root, "hostname") == Ok(hostname)
            && RequiredNumber(root, "pid") == Ok(pid as real)
            && RequiredNumber(root, "sample_interval_ms") == Ok(sampleIntervalMs as real)
            && Member(root, "capabilities") == Some(capabilities)
  {
    var head := Head("hello", sender, sentAt);
    var rest := [("bridge_version", String(bridgeVersion)), ("hostname", String(hostname)),
                 ("pid", Number(pid as real)), ("sample_interval_ms", Number(sampleIntervalMs as real)),
                 ("capabilities", capabilities)];
    FindInBack(head, rest, "bridge_version");
    FindInBack(head, rest, "hostname");
    FindInBack(head, rest, "pid");
    FindInBack(head, rest, "sample_interval_ms");
    FindInBack(head, rest, "capabilities");
    FindAt(rest, 0, "bridge_version");
    FindAt(rest, 1, "hostname");
    FindAt(rest, 2, "pid");
    FindAt(rest, 3, "sample_interval_ms");
    FindAt(rest, 4, "capabilities");
  }

  lemma HelloIsRead(sender: Sender, sentAt: string, sentAtMs: int, bridgeVersion: string, hostname: string,
                    pid: int, sampleIntervalMs: int, capabilities: Json, printer: Printer)
    requires ParsedMs(sentAt) == Some(sentAtMs) && Int32(pid) && Int32(sampleIntervalMs)
    ensures MessageOf(Some(HelloTree(sender, sentAt, bridgeVersion, hostname, pid, sampleIntervalMs, capabilities)),
                      printer)
         == Ok(Hello(ReadEnvelope(sender, sentAtMs), bridgeVersion, hostname, pid, sampleIntervalMs,
                     printer(capabilities)))
  {
    var rest := [("bridge_version", String(bridgeVersion)), ("hostname", String(hostname)),
                 ("pid", Number(pid as real)), ("sample_interval_ms", Number(sampleIntervalMs as real)),
                 ("capabilities", capabilities)];
    HeadIsRead("hello", sender, sentAt, sentAtMs, rest);
    HelloLookups(sender, sentAt, bridgeVersion, hostname, pid, sampleIntervalMs, capabilities);
    NumberIsRead(pid);
    NumberIsRead(sampleIntervalMs);
  }

  lemma HeartbeatLookups(sender: Sender, sentAt: string, uptimeSeconds: int, catalogCount: int)
    ensures var root := HeartbeatTree(sender, sentAt, uptimeSeconds, catalogCount);
            && RequiredString(root, "status") == Ok("ok")
            && RequiredNumber(root, "uptime_s") == Ok(uptimeSeconds as real)
            && RequiredNumber(root, "catalog_count") == Ok(catalogCount as real)
  {
    var head := Head("heartbeat", sender, sentAt);
    var rest := [("status", String("ok")), ("uptime_s", Number(uptimeSeconds as real)),
                 ("catalog_count", Number(catalogCount as real))];
    FindInBack(head, rest, "status");
    FindInBack(head, rest, "uptime_s");
    FindInBack(head, rest, "catalog_count");
    FindAt(rest, 0, "status");
    FindAt(rest, 1, "uptime_s");
    FindAt(rest, 2, "catalog_count");
  }

  lemma HeartbeatIsRead(sender: Sender, sentAt: string, sentAtMs: int, uptimeSeconds: int, catalogCount: int,
                        printer: Printer)
    requires ParsedMs(sentAt) == Some(sentAtMs) && Int32(catalogCount)
    ensures MessageOf(Some(HeartbeatTree(sender, sentAt, uptimeSeconds, catalogCount)), printer)
         == Ok(Heartbeat(ReadEnvelope(sender, sentAtMs), "ok", uptimeSeconds, catalogCount))
  {
    var rest := [("status", String("ok")), ("uptime_s", Number(uptimeSeconds as real)),
                 ("catalog_count", Number(catalogCount as real))];
    HeadIsRead("heartbeat", sender, sentAt, sentAtMs, rest);
    HeartbeatLookups(sender, sentAt, uptimeSeconds, catalogCount);
    NumberIsRead(uptimeSeconds);
    NumberIsRead(catalogCount);
  }
}
