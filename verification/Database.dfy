/**
 The tables the agent writes, and the effect of each SQL statement on them. A table is a map from its
 primary key to the other columns.
 */
module Database {
  import opened Messages
  import opened Wrappers

  datatype MachineRow = MachineRow(
    hostname: Option<string>, displayName: Option<string>, firstSeenMs: int, lastSeenMs: int,
    extraJson: Option<string>)

  datatype CollectorRow = CollectorRow(
    machineId: string, source: string, collectorType: string, status: string,
    lastHelloMs: Option<int>, lastSampleMs: Option<int>, lastError: Option<string>, updatedMs: int,
    extraJson: Option<string>)

  /** `sensor` holds the columns copied from the message; its properties have a column of their own. */
  datatype CatalogRow = CatalogRow(
    machineId: string, source: string, sensor: CatalogSensor, firstSeenMs: int, lastSeenMs: int,
    propertiesJson: Option<string>)

  datatype SampleRow = SampleRow(
    value: real, minValue: Option<real>, maxValue: Option<real>, quality: string, source: string)

  datatype GpuRow = GpuRow(
    gpuIndex: int, gpuName: Option<string>, backend: string, coreC: Option<real>,
    hotspotC: Option<real>, memJunctionC: Option<real>, utilGpuPct: Option<real>,
    utilMemPct: Option<real>, powerW: Option<real>, vramUsedBytes: Option<int>,
    vramTotalBytes: Option<int>, clockGraphicsMhz: Option<int>, clockMemoryMhz: Option<int>,
    fan0Rpm: Option<int>, fan0Pct: Option<real>)

  datatype OllamaRow = OllamaRow(
    baseUrl: string, activeRequests: Option<int>, queuedRequests: Option<int>,
    loadedModels: Option<int>, residentVramBytes: Option<int>, residentRamBytes: Option<int>)

  datatype SampleKey = SampleKey(sensorUid: string, tsMs: int)
  datatype GpuKey = GpuKey(machineId: string, gpuUid: string, tsMs: int)
  datatype OllamaKey = OllamaKey(machineId: string, tsMs: int)

  datatype Db = Db(
    machines: map<string, MachineRow>,
    collectors: map<string, CollectorRow>,
    catalog: map<string, CatalogRow>,
    samples: map<SampleKey, SampleRow>,
    gpus: map<GpuKey, GpuRow>,
    ollama: map<OllamaKey, OllamaRow>)

  const EMPTY_DB: Db := Db(map[], map[], map[], map[], map[], map[])

  function CollectorId(machineId: string, source: string): string {
    machineId + ":" + source
  }

  /** The parameters bound to one prepared statement. Every caller binds `CollectorId` of the machine
      and source as the collector's key. */
  datatype Stmt =
    | UpsertMachine(machineId: string, hostname: Option<string>, displayName: Option<string>,
                    seenMs: int, extraJson: Option<string>)
    | UpsertCollector(machineId: string, source: string, collectorType: string, status: string,
                      helloMs: Option<int>, sampleMs: Option<int>, lastError: Option<string>,
                      updatedMs: int, extraJson: Option<string>)
    | UpsertSensor(machineId: string, source: string, seenMs: int, sensor: CatalogSensor)
    | InsertSample(source: string, tsMs: int, sample: SensorSample)
    | InsertGpu(machineId: string, gpuUid: string, tsMs: int, gpu: GpuRow)
    | InsertOllama(machineId: string, tsMs: int, ollama: OllamaRow)

  function Coalesce<T>(incoming: Option<T>, stored: Option<T>): Option<T> {
    if incoming.Some? then incoming else stored
  }

  /** The CASE of the collector upsert: NULL loses, the stored value wins ties. */
  function LaterTime(incoming: Option<int>, stored: Option<int>): Option<int> {
    if incoming.None? then stored
    else if stored.None? then incoming
    else if incoming.value > stored.value then incoming
    else stored
  }

  function MachineAfter(s: Stmt, db: Db): MachineRow
    requires s.UpsertMachine?
  {
    if s.machineId !in db.machines then
      MachineRow(s.hostname, s.displayName, s.seenMs, s.seenMs, s.extraJson)
    else
      var row := db.machines[s.machineId];
      MachineRow(Coalesce(s.hostname, row.hostname), Coalesce(s.displayName, row.displayName),
                 row.firstSeenMs, if s.seenMs > row.lastSeenMs then s.seenMs else row.lastSeenMs,
                 Coalesce(s.extraJson, row.extraJson))
  }

  function CollectorAfter(s: Stmt, db: Db): CollectorRow
    requires s.UpsertCollector?
  {
    var key := CollectorId(s.machineId, s.source);
    if key !in db.collectors then
      CollectorRow(s.machineId, s.source, s.collectorType, s.status, s.helloMs, s.sampleMs,
                   s.lastError, s.updatedMs, s.extraJson)
    else
      var row := db.collectors[key];
      CollectorRow(s.machineId, s.source, s.collectorType, s.status,
                   LaterTime(s.helloMs, row.lastHelloMs), LaterTime(s.sampleMs, row.lastSampleMs),
                   s.lastError, s.updatedMs, Coalesce(s.extraJson, row.extraJson))
  }

  function SensorAfter(s: Stmt, db: Db): CatalogRow
    requires s.UpsertSensor?
  {
    var uid := s.sensor.sensorUid;
    var properties := if s.sensor.propertiesJson == "" then None else Some(s.sensor.propertiesJson);
    if uid !in db.catalog then
      CatalogRow(s.machineId, s.source, s.sensor, s.seenMs, s.seenMs, properties)
    else
      CatalogRow(s.machineId, s.source, s.sensor, db.catalog[uid].firstSeenMs, s.seenMs,
                 Coalesce(properties, db.catalog[uid].propertiesJson))
  }

  function SampleRowOf(source: string, sample: SensorSample): SampleRow {
    SampleRow(sample.value, sample.minValue, sample.maxValue, sample.quality, source)
  }

  /** What a statement that succeeds does. */
  function Apply(s: Stmt, db: Db): Db {
    match s
    case UpsertMachine(machineId, _, _, _, _) =>
      db.(machines := db.machines[machineId := MachineAfter(s, db)])
    case UpsertCollector(machineId, source, _, _, _, _, _, _, _) =>
      db.(collectors := db.collectors[CollectorId(machineId, source) := CollectorAfter(s, db)])
    case UpsertSensor(_, _, _, sensor) =>
      db.(catalog := db.catalog[sensor.sensorUid := SensorAfter(s, db)])
    case InsertSample(source, tsMs, sample) =>
      if sample.sensorUid in db.catalog then
        db.(samples := db.samples[SampleKey(sample.sensorUid, tsMs) := SampleRowOf(source, sample)])
      else db
    case InsertGpu(machineId, gpuUid, tsMs, gpu) =>
      db.(gpus := db.gpus[GpuKey(machineId, gpuUid, tsMs) := gpu])
    case InsertOllama(machineId, tsMs, row) =>
      db.(ollama := db.ollama[OllamaKey(machineId, tsMs) := row])
  }

  function ApplyAll(statements: seq<Stmt>, db: Db): Db {
    if statements == [] then db
    else Apply(statements[|statements| - 1], ApplyAll(statements[..|statements| - 1], db))
  }

  lemma {:induction false} ApplyConcat(a: seq<Stmt>, b: seq<Stmt>, db: Db)
    ensures ApplyAll(a + b, db) == ApplyAll(b, ApplyAll(a, db))
    decreases |b|
  {
    if b == [] {
      assert a + b == a;
    } else {
      assert (a + b)[..|a + b| - 1] == a + b[..|b| - 1];
      ApplyConcat(a, b[..|b| - 1], db);
    }
  }

  lemma ApplyOne(statements: seq<Stmt>, s: Stmt, db: Db)
    ensures ApplyAll(statements + [s], db) == Apply(s, ApplyAll(statements, db))
  {
    assert (statements + [s])[..|statements|] == statements;
  }

  // ---- What every statement keeps ----

  /** Samples refer to catalogued sensors, collector rows sit under the key their own columns spell,
      catalog rows under their own uid, and no machine was first seen after it was last seen. */
  predicate Valid(db: Db) {
    && (forall k :: k in db.samples ==> k.sensorUid in db.catalog)
    && (forall k :: k in db.collectors ==>
          k == CollectorId(db.collectors[k].machineId, db.collectors[k].source))
    && (forall k :: k in db.catalog ==> db.catalog[k].sensor.sensorUid == k)
    && (forall k :: k in db.machines ==> db.machines[k].firstSeenMs <= db.machines[k].lastSeenMs)
  }

  predicate NotBefore(earlier: Option<int>, later: Option<int>) {
    earlier.Some? ==> later.Some? && earlier.value <= later.value
  }

  predicate MachineGrows(a: MachineRow, b: MachineRow) {
    a.firstSeenMs == b.firstSeenMs && a.lastSeenMs <= b.lastSeenMs
  }

  predicate CollectorGrows(a: CollectorRow, b: CollectorRow) {
    NotBefore(a.lastHelloMs, b.lastHelloMs) && NotBefore(a.lastSampleMs, b.lastSampleMs)
  }

  /** `b` has everything `a` has; first-seen times are kept and the merged times have not decreased. */
  predicate Grows(a: Db, b: Db) {
    && a.machines.Keys <= b.machines.Keys && a.collectors.Keys <= b.collectors.Keys
    && a.catalog.Keys <= b.catalog.Keys && a.samples.Keys <= b.samples.Keys
    && a.gpus.Keys <= b.gpus.Keys && a.ollama.Keys <= b.ollama.Keys
    && (forall k :: k in a.machines ==> MachineGrows(a.machines[k], b.machines[k]))
    && (forall k :: k in a.collectors ==> CollectorGrows(a.collectors[k], b.collectors[k]))
  }

  lemma ApplyKeepsValid(s: Stmt, db: Db)
    requires Valid(db)
    ensures Valid(Apply(s, db))
  {
  }

  lemma ApplyGrows(s: Stmt, db: Db)
    ensures Grows(db, Apply(s, db))
  {
  }

  lemma GrowsTransitive(a: Db, b: Db, c: Db)
    requires Grows(a, b) && Grows(b, c)
    ensures Grows(a, c)
  {
  }
}
