/**
 From a JSON tree to a bridge message. `MessageOf` says which message a tree is; the methods are the
 parser's loops over arrays and its dispatch.
 */
module MessageParser {
  import opened JsonTree
  import opened MessageGrammar
  import opened Messages
  import opened Timestamp
  import opened Wrappers

  function RequiredTime(root: Json, key: string): Result<int> {
    var text :- RequiredString(root, key);
    match ParsedMs(text)
    case Some(ms) => Ok(ms)
    case None => Err("Invalid " + key + " timestamp")
  }

  function EnvelopeOf(root: Json): Result<Envelope> {
    var schemaVersion :- RequiredInt(root, "schema_version");
    var source :- RequiredString(root, "source");
    var machineId :- RequiredString(root, "machine_id");
    var sentAtMs :- RequiredTime(root, "sent_at_utc");
    Ok(Envelope(schemaVersion, source, machineId, sentAtMs))
  }

  function HelloOf(root: Json, printer: Printer): Result<BridgeMessage> {
    var envelope :- EnvelopeOf(root);
    var bridgeVersion :- RequiredString(root, "bridge_version");
    var hostname :- RequiredString(root, "hostname");
    var pid :- RequiredInt(root, "pid");
    var sampleIntervalMs :- RequiredInt(root, "sample_interval_ms");
    var capabilitiesJson := Compact(Member(root, "capabilities"), printer);
    Ok(Hello(envelope, bridgeVersion, hostname, pid, sampleIntervalMs, capabilitiesJson))
  }

  function HeartbeatOf(root: Json): Result<BridgeMessage> {
    var envelope :- EnvelopeOf(root);
    var status :- RequiredString(root, "status");
    var uptime :- RequiredNumber(root, "uptime_s");
    var catalogCount :- RequiredInt(root, "catalog_count");
    Ok(Heartbeat(envelope, status, Truncate(uptime), catalogCount))
  }

  function SensorOf(item: Json, printer: Printer): Result<CatalogSensor> {
    if !item.Object? then Err("Invalid sensor entry in catalog_snapshot")
    else
      var sensorUid :- RequiredString(item, "sensor_uid");
      var hardwareUid :- RequiredString(item, "hardware_uid");
      var hardwarePath :- RequiredString(item, "hardware_path");
      var hardwareName :- RequiredString(item, "hardware_name");
      var hardwareType :- RequiredString(item, "hardware_type");
      var sensorPath :- RequiredString(item, "sensor_path");
      var sensorName :- RequiredString(item, "sensor_name");
      var sensorType :- RequiredString(item, "sensor_type");
      var sensorIndex :- RequiredInt(item, "sensor_index");
      var unit :- RequiredString(item, "unit");
      Ok(CatalogSensor(sensorUid, hardwareUid, hardwarePath, hardwareName, hardwareType, sensorPath,
                       sensorName, sensorType, sensorIndex, unit,
                       Member(item, "is_default_hidden") == Some(Bool(true)),
                       Compact(Member(item, "properties"), printer)))
  }

  function SampleOf(item: Json): Result<SensorSample> {
    if !item.Object? then Err("Invalid sample entry in sample_batch")
    else
      var sensorUid :- RequiredString(item, "sensor_uid");
      var quality :- RequiredString(item, "quality");
      var value :- RequiredNumber(item, "value");
      Ok(SensorSample(sensorUid, value, OptionalNumber(item, "min"), OptionalNumber(item, "max"),
                      quality))
  }

  /** Reads every item, or reports the error of the first one that cannot be read. */
  function ReadAll<T>(items: seq<Json>, read: Json -> Result<T>): Result<seq<T>> {
    if items == [] then Ok([])
    else
      var front :- ReadAll(items[..|items| - 1], read);
      var last :- read(items[|items| - 1]);
      Ok(front + [last])
  }

  function SensorReader(printer: Printer): Json -> Result<CatalogSensor> {
    item => SensorOf(item, printer)
  }

  const SAMPLE_READER: Json -> Result<SensorSample> := item => SampleOf(item)

  function CatalogOf(root: Json, printer: Printer): Result<BridgeMessage> {
    var envelope :- EnvelopeOf(root);
    var items :- RequiredArray(root, "sensors");
    var sensors :- ReadAll(items, SensorReader(printer));
    Ok(CatalogSnapshot(envelope, sensors))
  }

  function BatchOf(root: Json): Result<BridgeMessage> {
    var envelope :- EnvelopeOf(root);
    var sampleTimeMs :- RequiredTime(root, "sample_time_utc");
    var items :- RequiredArray(root, "samples");
    var samples :- ReadAll(items, SAMPLE_READER);
    Ok(SampleBatch(envelope, sampleTimeMs, samples))
  }

  /** The message a document is; `None` stands for text that is not JSON. */
  function MessageOf(root: Option<Json>, printer: Printer): Result<BridgeMessage> {
    if root.None? then Err("Invalid JSON payload")
    else
      var kind :- RequiredString(root.value, "type");
      if kind == "hello" then HelloOf(root.value, printer)
      else if kind == "catalog_snapshot" then CatalogOf(root.value, printer)
      else if kind == "sample_batch" then BatchOf(root.value)
      else if kind == "heartbeat" then HeartbeatOf(root.value)
      else Err("Unsupported message type: " + kind)
  }

  // ---- What reading an array means ----

  /** All items are read, in order and in full, exactly when each of them can be. */
  lemma {:induction false} ReadAllSucceeds<T>(items: seq<Json>, read: Json -> Result<T>)
    ensures ReadAll(items, read).Ok? <==> forall i :: 0 <= i < |items| ==> read(items[i]).Ok?
    ensures ReadAll(items, read).Ok? ==>
              && |ReadAll(items, read).value| == |items|
              && forall i :: 0 <= i < |items| ==> read(items[i]) == Ok(ReadAll(items, read).value[i])
  {
    if items != [] {
      var front := items[..|items| - 1];
      ReadAllSucceeds(front, read);
      assert forall i :: 0 <= i < |front| ==> front[i] == items[i];
    }
  }

  /** Otherwise the error is that of the first item that cannot be read. */
  lemma {:induction false} ReadAllReportsFirstError<T>(items: seq<Json>, read: Json -> Result<T>, bad: nat)
    requires bad < |items| && read(items[bad]).Err?
    requires forall i :: 0 <= i < bad ==> read(items[i]).Ok?
    ensures ReadAll(items, read) == Err(read(items[bad]).error)
    decreases |items|
  {
    var front := items[..|items| - 1];
    if bad == |items| - 1 {
      ReadAllSucceeds(front, read);
    } else {
      ReadAllReportsFirstError(front, read, bad);
    }
  }

  /** A catalog or batch that parses keeps the length and the order of its array. */
  lemma ParsedArraysKeepOrder(root: Json, printer: Printer)
    ensures CatalogOf(root, printer).Ok? ==>
              var items, sensors := RequiredArray(root, "sensors").value, CatalogOf(root, printer).value.sensors;
              && |sensors| == |items|
              && forall i :: 0 <= i < |items| ==> SensorOf(items[i], printer) == Ok(sensors[i])
    ensures BatchOf(root).Ok? ==>
              var items, samples := RequiredArray(root, "samples").value, BatchOf(root).value.samples;
              && |samples| == |items|
              && forall i :: 0 <= i < |items| ==> SampleOf(items[i]) == Ok(samples[i])
  {
    if CatalogOf(root, printer).Ok? {
      ReadAllSucceeds(RequiredArray(root, "sensors").value, SensorReader(printer));
    }
    if BatchOf(root).Ok? {
      ReadAllSucceeds(RequiredArray(root, "samples").value, SAMPLE_READER);
    }
  }

  // ---- What is read is what the document says ----

  lemma EnvelopeIff(root: Json, e: Envelope)
    ensures EnvelopeOf(root) == Ok(e) <==> IsEnvelope(root, e)
  {
  }

  lemma HelloIff(root: Json, m: BridgeMessage, printer: Printer)
    ensures HasText(root, "type", "hello") ==> (HelloOf(root, printer) == Ok(m) <==> IsHello(root, m, printer))
  {
    if m.Hello? {
      EnvelopeIff(root, m.envelope);
    }
  }

  lemma HeartbeatIff(root: Json, m: BridgeMessage)
    ensures HasText(root, "type", "heartbeat") ==> (HeartbeatOf(root) == Ok(m) <==> IsHeartbeat(root, m))
  {
    if m.Heartbeat? {
      EnvelopeIff(root, m.envelope);
    }
  }

  lemma SensorIff(item: Json, s: CatalogSensor, printer: Printer)
    ensures SensorOf(item, printer) == Ok(s) <==> IsSensor(item, s, printer)
  {
  }

  lemma SampleIff(item: Json, s: SensorSample)
    ensures SampleOf(item) == Ok(s) <==> IsSample(item, s)
  {
  }

  lemma ReadAllIff<T>(items: seq<Json>, read: Json -> Result<T>, values: seq<T>)
    ensures ReadAll(items, read) == Ok(values) <==>
              |items| == |values| && forall i :: 0 <= i < |items| ==> read(items[i]) == Ok(values[i])
  {
    ReadAllSucceeds(items, read);
    if |items| == |values| && forall i :: 0 <= i < |items| ==> read(items[i]) == Ok(values[i]) {
      assert ReadAll(items, read).value == values;
    }
  }

  lemma SensorsIff(items: seq<Json>, sensors: seq<CatalogSensor>, printer: Printer)
    ensures ReadAll(items, SensorReader(printer)) == Ok(sensors) <==>
              |items| == |sensors| && forall i :: 0 <= i < |items| ==> IsSensor(items[i], sensors[i], printer)
  {
    ReadAllIff(items, SensorReader(printer), sensors);
    forall i | 0 <= i < |items| && i < |sensors|
      ensures SensorReader(printer)(items[i]) == Ok(sensors[i]) <==> IsSensor(items[i], sensors[i], printer)
    {
      SensorIff(items[i], sensors[i], printer);
    }
  }

  lemma SamplesIff(items: seq<Json>, samples: seq<SensorSample>)
    ensures ReadAll(items, SAMPLE_READER) == Ok(samples) <==>
              |items| == |samples| && forall i :: 0 <= i < |items| ==> IsSample(items[i], samples[i])
  {
    ReadAllIff(items, SAMPLE_READER, samples);
    forall i | 0 <= i < |items| && i < |samples|
      ensures SAMPLE_READER(items[i]) == Ok(samples[i]) <==> IsSample(items[i], samples[i])
    {
      SampleIff(items[i], samples[i]);
    }
  }

  lemma CatalogIff(root: Json, m: BridgeMessage, printer: Printer)
    ensures HasText(root, "type", "catalog_snapshot") ==>
              (CatalogOf(root, printer) == Ok(m) <==> IsCatalog(root, m, printer))
  {
    if m.CatalogSnapshot? {
      EnvelopeIff(root, m.envelope);
      if RequiredArray(root, "sensors").Ok? {
        SensorsIff(RequiredArray(root, "sensors").value, m.sensors, printer);
      }
    }
  }

  lemma BatchIff(root: Json, m: BridgeMessage)
    ensures HasText(root, "type", "sample_batch") ==> (BatchOf(root) == Ok(m) <==> IsBatch(root, m))
  {
    if m.SampleBatch? {
      EnvelopeIff(root, m.envelope);
      if RequiredArray(root, "samples").Ok? {
        SamplesIff(RequiredArray(root, "samples").value, m.samples);
      }
    }
  }

  /** A document is read as a message exactly when it is that message; text that is not JSON is none. */
  lemma MessageIff(root: Option<Json>, printer: Printer, m: BridgeMessage)
    ensures MessageOf(root, printer) == Ok(m) <==> root.Some? && IsMessage(root.value, m, printer)
  {
    if root.Some? {
      HelloIff(root.value, m, printer);
      HeartbeatIff(root.value, m);
      CatalogIff(root.value, m, printer);
      BatchIff(root.value, m);
    }
  }

  // ---- The parser's loops and dispatch ----

  /** One step of a loop over an array: the next item extends what was read or is the first unreadable one. */
  lemma ReadAllNext<T>(items: seq<Json>, read: Json -> Result<T>, i: nat, done: seq<T>)
    requires i < |items| && ReadAll(items[..i], read) == Ok(done)
    ensures read(items[i]).Ok? ==> ReadAll(items[..i + 1], read) == Ok(done + [read(items[i]).value])
    ensures read(items[i]).Err? ==> ReadAll(items, read) == Err(read(items[i]).error)
  {
    assert items[..i + 1][..i] == items[..i];
    if read(items[i]).Err? {
      ReadAllSucceeds(items[..i], read);
      assert forall j :: 0 <= j < i ==> items[..i][j] == items[j];
      ReadAllReportsFirstError(items, read, i);
    }
  }

  method ParseCatalogSnapshot(root: Json, printer: Printer) returns (r: Result<BridgeMessage>)
    ensures r == CatalogOf(root, printer)
  {
    var envelope :- EnvelopeOf(root);
    var items :- RequiredArray(root, "sensors");
    var sensors := [];
    for i := 0 to |items|
      invariant ReadAll(items[..i], SensorReader(printer)) == Ok(sensors)
    {
      ReadAllNext(items, SensorReader(printer), i, sensors);
      var sensor := SensorOf(items[i], printer);
      if sensor.Err? {
        return Err(sensor.error);
      }
      sensors := sensors + [sensor.value];
    }
    assert items[..|items|] == items;
    return Ok(CatalogSnapshot(envelope, sensors));
  }

  method ParseSampleBatch(root: Json) returns (r: Result<BridgeMessage>)
    ensures r == BatchOf(root)
  {
    var envelope :- EnvelopeOf(root);
    var sampleTimeMs :- RequiredTime(root, "sample_time_utc");
    var items :- RequiredArray(root, "samples");
    var samples := [];
    for i := 0 to |items|
      invariant ReadAll(items[..i], SAMPLE_READER) == Ok(samples)
    {
      ReadAllNext(items, SAMPLE_READER, i, samples);
      var sample := SampleOf(items[i]);
      if sample.Err? {
        return Err(sample.error);
      }
      samples := samples + [sample.value];
    }
    assert items[..|items|] == items;
    return Ok(SampleBatch(envelope, sampleTimeMs, samples));
  }

  /** A failing parse leaves the caller's message as it was; `before` is its value on entry. */
  method ParseBridgeMessage(root: Option<Json>, printer: Printer, before: BridgeMessage)
    returns (ok: bool, message: BridgeMessage, error: string)
    ensures ok <==> MessageOf(root, printer).Ok?
    ensures ok ==> message == MessageOf(root, printer).value
    ensures !ok ==> message == before && error == MessageOf(root, printer).error
    ensures ok ==> root.Some? && IsMessage(root.value, message, printer)
    ensures !ok && root.Some? ==> forall m :: !IsMessage(root.value, m, printer)
  {
    forall m ensures MessageOf(root, printer) == Ok(m) <==> root.Some? && IsMessage(root.value, m, printer) {
      MessageIff(root, printer, m);
    }
    ok, message, error := false, before, "";
    if root.None? {
      error := "Invalid JSON payload";
      return;
    }
    var kind := RequiredString(root.value, "type");
    var parsed: Result<BridgeMessage>;
    if kind.Err? {
      parsed := Err(kind.error);
    } else if kind.value == "hello" {
      parsed := HelloOf(root.value, printer);
    } else if kind.value == "catalog_snapshot" {
      parsed := ParseCatalogSnapshot(root.value, printer);
    } else if kind.value == "sample_batch" {
      parsed := ParseSampleBatch(root.value);
    } else if kind.value == "heartbeat" {
      parsed := HeartbeatOf(root.value);
    } else {
      parsed := Err("Unsupported message type: " + kind.value);
    }
    if parsed.Ok? {
      ok, message := true, parsed.value;
    } else {
      error := parsed.error;
    }
  }
}
