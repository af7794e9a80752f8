/**
 What storing a message promises about each table, row by row and column by column, said without the SQL
 statements that do it.
 */
module Effects {
  import opened Database
  import opened JsonText
  import opened Messages
  import opened Wrappers

  function Stored<T>(table: map<string, T>, key: string): Option<T> {
    if key in table then Some(table[key]) else None
  }

  /** The table gains or changes one row. */
  predicate OnlyRowChanged<T(==)>(before: map<string, T>, after: map<string, T>, key: string) {
    && after.Keys == before.Keys + {key}
    && forall k :: k in before && k != key ==> after[k] == before[k]
  }

  /** The later of two times, where no time is earlier than any. */
  predicate IsLaterOf(after: Option<int>, stored: Option<int>, given: Option<int>) {
    && (after == stored || after == given)
    && NotBefore(stored, after) && NotBefore(given, after)
  }

  /** A NULL keeps what is stored. */
  predicate IsGivenOrKept<T(==)>(after: Option<T>, stored: Option<T>, given: Option<T>) {
    if given.Some? then after == given else after == stored
  }

  /** A machine seen at `ms`; `hostname` becomes both of its names. */
  predicate MachineMerged(before: map<string, MachineRow>, after: map<string, MachineRow>, machineId: string,
                          hostname: Option<string>, ms: int, extraJson: Option<string>) {
    && OnlyRowChanged(before, after, machineId)
    && var row := after[machineId];
       match Stored(before, machineId)
       case None =>
         && row.hostname == hostname && row.displayName == hostname && row.extraJson == extraJson
         && row.firstSeenMs == ms && row.lastSeenMs == ms
       case Some(old_) =>
         && IsGivenOrKept(row.hostname, old_.hostname, hostname)
         && IsGivenOrKept(row.displayName, old_.displayName, hostname)
         && IsGivenOrKept(row.extraJson, old_.extraJson, extraJson)
         && row.firstSeenMs == old_.firstSeenMs
         && IsLaterOf(Some(row.lastSeenMs), Some(old_.lastSeenMs), Some(ms))
  }

  /** What a writer reports of a collector. */
  datatype Report = Report(
    collectorType: string, status: string, helloMs: Option<int>, sampleMs: Option<int>,
    lastError: Option<string>, updatedMs: int, extraJson: Option<string>)

  predicate CollectorMerged(before: map<string, CollectorRow>, after: map<string, CollectorRow>, machineId: string,
                            source: string, report: Report) {
    var key := machineId + ":" + source;
    && OnlyRowChanged(before, after, key)
    && var row := after[key];
       && row.machineId == machineId && row.source == source
       && row.collectorType == report.collectorType && row.status == report.status
       && row.lastError == report.lastError && row.updatedMs == report.updatedMs
       && match Stored(before, key)
          case None =>
            && row.lastHelloMs == report.helloMs && row.lastSampleMs == report.sampleMs
            && row.extraJson == report.extraJson
          case Some(old_) =>
            && IsLaterOf(row.lastHelloMs, old_.lastHelloMs, report.helloMs)
            && IsLaterOf(row.lastSampleMs, old_.lastSampleMs, report.sampleMs)
            && IsGivenOrKept(row.extraJson, old_.extraJson, report.extraJson)
  }

  /** The i-th sensor is the last of its uid. */
  predicate IsLastSensor(sensors: seq<CatalogSensor>, i: int) {
    && 0 <= i < |sensors|
    && forall j :: i < j < |sensors| ==> sensors[j].sensorUid != sensors[i].sensorUid
  }

  predicate ListsSensor(sensors: seq<CatalogSensor>, uid: string) {
    exists i :: 0 <= i < |sensors| && sensors[i].sensorUid == uid
  }

  /** The i-th sensor is the last of this uid that has properties. */
  predicate IsLastWithProperties(sensors: seq<CatalogSensor>, uid: string, i: int) {
    && 0 <= i < |sensors| && sensors[i].sensorUid == uid && sensors[i].propertiesJson != ""
    && forall j :: i < j < |sensors| && sensors[j].sensorUid == uid ==> sensors[j].propertiesJson == ""
  }

  predicate NoProperties(sensors: seq<CatalogSensor>, uid: string) {
    forall i :: 0 <= i < |sensors| && sensors[i].sensorUid == uid ==> sensors[i].propertiesJson == ""
  }

  /** A listed sensor's row holds its last entry, the owner and time of the snapshot, the time it was first
      listed, and the last properties that were not empty. */
  ghost predicate SensorMerged(stored: Option<CatalogRow>, row: CatalogRow, e: Envelope, sensors: seq<CatalogSensor>,
                         uid: string) {
    && row.machineId == e.machineId && row.source == e.source && row.lastSeenMs == e.sentAtMs
    && (forall i :: IsLastSensor(sensors, i) && sensors[i].sensorUid == uid ==> row.sensor == sensors[i])
    && row.firstSeenMs == (if stored.Some? then stored.value.firstSeenMs else e.sentAtMs)
    && (forall i :: IsLastWithProperties(sensors, uid, i) ==> row.propertiesJson == Some(sensors[i].propertiesJson))
    && (NoProperties(sensors, uid) ==>
          row.propertiesJson == if stored.Some? then stored.value.propertiesJson else None)
  }

  ghost predicate CatalogMerged(before: map<string, CatalogRow>, after: map<string, CatalogRow>, e: Envelope,
                          sensors: seq<CatalogSensor>) {
    && (forall uid :: uid in after <==> uid in before || ListsSensor(sensors, uid))
    && (forall uid :: uid in before && !ListsSensor(sensors, uid) ==> after[uid] == before[uid])
    && (forall uid {:trigger ListsSensor(sensors, uid)} :: ListsSensor(sensors, uid) ==>
          SensorMerged(Stored(before, uid), after[uid], e, sensors, uid))
  }

  predicate IsLastSample(samples: seq<SensorSample>, i: int) {
    && 0 <= i < |samples|
    && forall j :: i < j < |samples| ==> samples[j].sensorUid != samples[i].sensorUid
  }

  predicate HasSample(samples: seq<SensorSample>, uid: string) {
    exists i :: 0 <= i < |samples| && samples[i].sensorUid == uid
  }

  /** The row of a key written by the batch. */
  predicate IsWritten(k: SampleKey, known: set<string>, ms: int, samples: seq<SensorSample>) {
    k.tsMs == ms && k.sensorUid in known && HasSample(samples, k.sensorUid)
  }

  /** The batch's samples of known sensors, the last of each sensor, and nothing else. */
  ghost predicate SamplesMerged(before: map<SampleKey, SampleRow>, after: map<SampleKey, SampleRow>, known: set<string>,
                          source: string, ms: int, samples: seq<SensorSample>) {
    && (forall k :: k in after <==> k in before || IsWritten(k, known, ms, samples))
    && (forall k :: k in before && !IsWritten(k, known, ms, samples) ==> after[k] == before[k])
    && (forall i :: IsLastSample(samples, i) && samples[i].sensorUid in known ==>
          var s, key := samples[i], SampleKey(samples[i].sensorUid, ms);
          key in after && after[key] == SampleRow(s.value, s.minValue, s.maxValue, s.quality, source))
  }

  // ---- By kind of message ----

  predicate HelloEffect(m: BridgeMessage, before: Db, after: Db)
    requires m.Hello?
  {
    var e := m.envelope;
    && MachineMerged(before.machines, after.machines, e.machineId, Some(m.hostname), e.sentAtMs,
                     Some(BuildMachineExtraJson(e.source, m.bridgeVersion)))
    && CollectorMerged(before.collectors, after.collectors, e.machineId, e.source,
         Report("bridge", "ok", Some(e.sentAtMs), None, None, e.sentAtMs,
                Some(BuildHelloExtraJson(m.hostname, m.bridgeVersion, m.pid, m.sampleIntervalMs,
                                         m.capabilitiesJson))))
    && after.catalog == before.catalog && after.samples == before.samples
  }

  predicate HeartbeatEffect(m: BridgeMessage, before: Db, after: Db)
    requires m.Heartbeat?
  {
    var e := m.envelope;
    && MachineMerged(before.machines, after.machines, e.machineId, None, e.sentAtMs, None)
    && CollectorMerged(before.collectors, after.collectors, e.machineId, e.source,
         Report("bridge", m.status, None, None, None, e.sentAtMs,
                Some(BuildHeartbeatExtraJson(m.uptimeSeconds, m.catalogCount))))
    && after.catalog == before.catalog && after.samples == before.samples
  }

  ghost predicate CatalogEffect(m: BridgeMessage, before: Db, after: Db)
    requires m.CatalogSnapshot?
  {
    var e := m.envelope;
    && MachineMerged(before.machines, after.machines, e.machineId, None, e.sentAtMs, None)
    && CollectorMerged(before.collectors, after.collectors, e.machineId, e.source,
         Report("sensor_stream", "ok", None, None, None, e.sentAtMs, Some(BuildCatalogExtraJson(|m.sensors|))))
    && CatalogMerged(before.catalog, after.catalog, e, m.sensors) && after.samples == before.samples
  }

  ghost predicate BatchEffect(m: BridgeMessage, before: Db, after: Db)
    requires m.SampleBatch?
  {
    var e := m.envelope;
    && MachineMerged(before.machines, after.machines, e.machineId, None, m.sampleTimeMs, None)
    && CollectorMerged(before.collectors, after.collectors, e.machineId, e.source,
         Report("sensor_stream", "ok", None, Some(m.sampleTimeMs), None, e.sentAtMs,
                Some(BuildSampleExtraJson(|m.samples|))))
    && after.catalog == before.catalog
    && SamplesMerged(before.samples, after.samples, before.catalog.Keys, e.source, m.sampleTimeMs, m.samples)
  }

  ghost predicate Effect(m: BridgeMessage, before: Db, after: Db) {
    && after.gpus == before.gpus && after.ollama == before.ollama
    && match m
       case Hello(_, _, _, _, _, _) => HelloEffect(m, before, after)
       case Heartbeat(_, _, _, _) => HeartbeatEffect(m, before, after)
       case CatalogSnapshot(_, _) => CatalogEffect(m, before, after)
       case SampleBatch(_, _, _) => BatchEffect(m, before, after)
  }

  // ---- Single statements ----

  lemma MachineStatement(s: Stmt, db: Db)
    requires s.UpsertMachine? && s.hostname == s.displayName
    ensures var after := Apply(s, db);
            && MachineMerged(db.machines, after.machines, s.machineId, s.hostname, s.seenMs, s.extraJson)
            && after == db.(machines := after.machines)
  {
  }

  lemma CollectorStatement(s: Stmt, db: Db)
    requires s.UpsertCollector?
    ensures var after := Apply(s, db);
            && CollectorMerged(db.collectors, after.collectors, s.machineId, s.source,
                 Report(s.collectorType, s.status, s.helloMs, s.sampleMs, s.lastError, s.updatedMs, s.extraJson))
            && after == db.(collectors := after.collectors)
  {
  }

  // ---- The entries of a snapshot, one by one ----

  lemma NoSensors(table: map<string, CatalogRow>, e: Envelope)
    ensures CatalogMerged(table, table, e, [])
  {
  }

  lemma ListsAppend(sensors: seq<CatalogSensor>, last: CatalogSensor, uid: string)
    ensures ListsSensor(sensors + [last], uid) <==> ListsSensor(sensors, uid) || uid == last.sensorUid
  {
    var n := |sensors|;
    assert (sensors + [last])[n] == last;
    assert forall i :: 0 <= i < n ==> (sensors + [last])[i] == sensors[i];
  }

  lemma LastSensorAppend(sensors: seq<CatalogSensor>, last: CatalogSensor, i: int)
    ensures IsLastSensor(sensors + [last], i) <==>
              i == |sensors| || (IsLastSensor(sensors, i) && sensors[i].sensorUid != last.sensorUid)
  {
    assert (sensors + [last])[|sensors|] == last;
    assert forall j :: 0 <= j < |sensors| ==> (sensors + [last])[j] == sensors[j];
  }

  lemma PropertiesAppend(sensors: seq<CatalogSensor>, last: CatalogSensor, uid: string)
    ensures NoProperties(sensors + [last], uid) <==>
              NoProperties(sensors, uid) && (last.sensorUid == uid ==> last.propertiesJson == "")
  {
    assert (sensors + [last])[|sensors|] == last;
    assert forall j :: 0 <= j < |sensors| ==> (sensors + [last])[j] == sensors[j];
  }

  lemma LastWithPropertiesAppend(sensors: seq<CatalogSensor>, last: CatalogSensor, uid: string, i: int)
    ensures IsLastWithProperties(sensors + [last], uid, i) <==>
              if last.sensorUid == uid && last.propertiesJson != "" then i == |sensors|
              else IsLastWithProperties(sensors, uid, i)
  {
    assert (sensors + [last])[|sensors|] == last;
    assert forall j :: 0 <= j < |sensors| ==> (sensors + [last])[j] == sensors[j];
  }

  /** What one more entry does to the rows. */
  predicate SensorStep(mid: map<string, CatalogRow>, after: map<string, CatalogRow>, e: Envelope, last: CatalogSensor) {
    var uid := last.sensorUid;
    && OnlyRowChanged(mid, after, uid)
    && var row := after[uid];
       && row.machineId == e.machineId && row.source == e.source && row.lastSeenMs == e.sentAtMs
       && row.sensor == last
       && row.firstSeenMs == (if uid in mid then mid[uid].firstSeenMs else e.sentAtMs)
       && (last.propertiesJson != "" ==> row.propertiesJson == Some(last.propertiesJson))
       && (last.propertiesJson == "" ==> row.propertiesJson == if uid in mid then mid[uid].propertiesJson else None)
  }

  lemma SensorStatement(s: Stmt, db: Db, e: Envelope)
    requires s.UpsertSensor? && s.machineId == e.machineId && s.source == e.source && s.seenMs == e.sentAtMs
    ensures var after := Apply(s, db);
            SensorStep(db.catalog, after.catalog, e, s.sensor) && after == db.(catalog := after.catalog)
  {
  }

  /** The row of the entry's own sensor. */
  lemma SameSensorMerged(stored: Option<CatalogRow>, mid: Option<CatalogRow>, row: CatalogRow, e: Envelope,
                         sensors: seq<CatalogSensor>, last: CatalogSensor)
    requires row.machineId == e.machineId && row.source == e.source && row.lastSeenMs == e.sentAtMs
    requires row.sensor == last
    requires row.firstSeenMs == if mid.Some? then mid.value.firstSeenMs else e.sentAtMs
    requires last.propertiesJson != "" ==> row.propertiesJson == Some(last.propertiesJson)
    requires last.propertiesJson == "" ==>
               row.propertiesJson == if mid.Some? then mid.value.propertiesJson else None
    requires if ListsSensor(sensors, last.sensorUid)
             then mid.Some? && SensorMerged(stored, mid.value, e, sensors, last.sensorUid)
             else mid == stored
    ensures SensorMerged(stored, row, e, sensors + [last], last.sensorUid)
  {
    var uid, all := last.sensorUid, sensors + [last];
    PropertiesAppend(sensors, last, uid);
    forall i | IsLastSensor(all, i) && all[i].sensorUid == uid
      ensures row.sensor == all[i]
    {
      LastSensorAppend(sensors, last, i);
    }
    forall i | IsLastWithProperties(all, uid, i)
      ensures row.propertiesJson == Some(all[i].propertiesJson)
    {
      LastWithPropertiesAppend(sensors, last, uid, i);
    }
  }

  /** The rows of the other sensors. */
  lemma OtherSensorMerged(stored: Option<CatalogRow>, row: CatalogRow, e: Envelope, sensors: seq<CatalogSensor>,
                          last: CatalogSensor, uid: string)
    requires SensorMerged(stored, row, e, sensors, uid) && uid != last.sensorUid
    ensures SensorMerged(stored, row, e, sensors + [last], uid)
  {
    var all := sensors + [last];
    PropertiesAppend(sensors, last, uid);
    forall i | IsLastSensor(all, i) && all[i].sensorUid == uid
      ensures row.sensor == all[i]
    {
      LastSensorAppend(sensors, last, i);
    }
    forall i | IsLastWithProperties(all, uid, i)
      ensures row.propertiesJson == Some(all[i].propertiesJson)
    {
      LastWithPropertiesAppend(sensors, last, uid, i);
    }
  }

  lemma OneMoreSensor(before: map<string, CatalogRow>, mid: map<string, CatalogRow>, after: map<string, CatalogRow>,
                      e: Envelope, sensors: seq<CatalogSensor>, last: CatalogSensor)
    requires CatalogMerged(before, mid, e, sensors) && SensorStep(mid, after, e, last)
    ensures CatalogMerged(before, after, e, sensors + [last])
  {
    forall uid
      ensures ListsSensor(sensors + [last], uid) <==> ListsSensor(sensors, uid) || uid == last.sensorUid
    {
      ListsAppend(sensors, last, uid);
    }
    forall uid {:trigger ListsSensor(sensors + [last], uid)} | ListsSensor(sensors + [last], uid)
      ensures SensorMerged(Stored(before, uid), after[uid], e, sensors + [last], uid)
    {
      if uid == last.sensorUid {
        SameSensorMerged(Stored(before, uid), Stored(mid, uid), after[uid], e, sensors, last);
      } else {
        OtherSensorMerged(Stored(before, uid), after[uid], e, sensors, last, uid);
      }
    }
  }

  // ---- The samples of a batch, one by one ----

  lemma NoSamples(table: map<SampleKey, SampleRow>, known: set<string>, source: string, ms: int)
    ensures SamplesMerged(table, table, known, source, ms, [])
  {
  }

  /** What one more sample does to the rows. */
  predicate SampleStep(mid: map<SampleKey, SampleRow>, after: map<SampleKey, SampleRow>, known: set<string>,
                       source: string, ms: int, s: SensorSample) {
    if s.sensorUid in known then
      after == mid[SampleKey(s.sensorUid, ms) := SampleRow(s.value, s.minValue, s.maxValue, s.quality, source)]
    else after == mid
  }

  lemma SampleStatement(s: Stmt, db: Db)
    requires s.InsertSample?
    ensures var after := Apply(s, db);
            && SampleStep(db.samples, after.samples, db.catalog.Keys, s.source, s.tsMs, s.sample)
            && after == db.(samples := after.samples)
  {
  }

  lemma HasSampleAppend(samples: seq<SensorSample>, last: SensorSample, uid: string)
    ensures HasSample(samples + [last], uid) <==> HasSample(samples, uid) || uid == last.sensorUid
  {
    assert (samples + [last])[|samples|] == last;
    assert forall i :: 0 <= i < |samples| ==> (samples + [last])[i] == samples[i];
  }

  lemma LastSampleAppend(samples: seq<SensorSample>, last: SensorSample, i: int)
    ensures IsLastSample(samples + [last], i) <==>
              i == |samples| || (IsLastSample(samples, i) && samples[i].sensorUid != last.sensorUid)
  {
    assert (samples + [last])[|samples|] == last;
    assert forall j :: 0 <= j < |samples| ==> (samples + [last])[j] == samples[j];
  }

  lemma OneMoreSample(before: map<SampleKey, SampleRow>, mid: map<SampleKey, SampleRow>,
                      after: map<SampleKey, SampleRow>, known: set<string>, source: string, ms: int,
                      samples: seq<SensorSample>, last: SensorSample)
    requires SamplesMerged(before, mid, known, source, ms, samples)
    requires SampleStep(mid, after, known, source, ms, last)
    ensures SamplesMerged(before, after, known, source, ms, samples + [last])
  {
    var all := samples + [last];
    forall uid ensures HasSample(all, uid) <==> HasSample(samples, uid) || uid == last.sensorUid {
      HasSampleAppend(samples, last, uid);
    }
    forall i | IsLastSample(all, i) && all[i].sensorUid in known
      ensures var s, key := all[i], SampleKey(all[i].sensorUid, ms);
              key in after && after[key] == SampleRow(s.value, s.minValue, s.maxValue, s.quality, source)
    {
      LastSampleAppend(samples, last, i);
      if i < |samples| {
        assert all[i] == samples[i];
      }
    }
  }
}
