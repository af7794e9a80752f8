/**
 End-to-end delivery: a session of the bridge, framed, parsed and stored, leaves every sample it sent
 under its sensor and time.
 */
module Delivery {
  import opened Bridge
  import opened Database
  import opened Engine
  import opened Framing
  import opened JsonTree
  import opened MessageParser
  import opened Messages
  import opened Service
  import opened Session
  import opened Store
  import opened Subsequence
  import opened TimestampLaws
  import opened Wrappers

  // ---- Every message of the bridge is read as what it says ----

  /** The numbers that the parser reads as 32-bit integers fit. */
  predicate Fits(m: Message) {
    match m
    case HelloMessage(_, _, _, _, pid, interval, _) => Int32(pid) && Int32(interval)
    case CatalogSnapshotMessage(_, _, sensors) =>
      forall i :: 0 <= i < |sensors| ==> Int32(sensors[i].sensor.index)
    case SampleBatchMessage(_, _, _, _) => true
    case HeartbeatMessage(_, _, _, catalogCount) => Int32(catalogCount)
  }

  function ReadBack(m: Message, printer: Printer): BridgeMessage {
    var envelope := ReadEnvelope(m.sender, m.sentAt / 10_000);
    match m
    case HelloMessage(_, _, bridgeVersion, hostname, pid, interval, capabilities) =>
      Hello(envelope, bridgeVersion, hostname, pid, interval, printer(capabilities))
    case CatalogSnapshotMessage(_, _, sensors) => CatalogSnapshot(envelope, ReadSensors(sensors, printer))
    case SampleBatchMessage(_, _, sampleTime, samples) => SampleBatch(envelope, sampleTime / 10_000, samples)
    case HeartbeatMessage(_, _, uptimeSeconds, catalogCount) =>
      Heartbeat(envelope, "ok", uptimeSeconds, catalogCount)
  }

  /** The protocol round trip: what the agent parses from a message is that message, with its times
      rounded down to the millisecond. */
  lemma MessageIsRead(m: Message, printer: Printer)
    requires Fits(m)
    ensures MessageOf(Some(Tree(m)), printer) == Ok(ReadBack(m, printer))
  {
    PrintThenParse(m.sentAt);
    var sentAt, sentAtMs := PrintUtc(m.sentAt), m.sentAt / 10_000;
    match m
    case HelloMessage(sender, _, bridgeVersion, hostname, pid, interval, capabilities) =>
      HelloIsRead(sender, sentAt, sentAtMs, bridgeVersion, hostname, pid, interval, capabilities, printer);
    case CatalogSnapshotMessage(sender, _, sensors) =>
      CatalogIsRead(sender, sentAt, sentAtMs, sensors, printer);
    case SampleBatchMessage(sender, _, sampleTime, samples) =>
      PrintThenParse(sampleTime);
      BatchIsRead(sender, sentAt, sentAtMs, PrintUtc(sampleTime), sampleTime / 10_000, samples, printer);
    case HeartbeatMessage(sender, _, uptimeSeconds, catalogCount) =>
      HeartbeatIsRead(sender, sentAt, sentAtMs, uptimeSeconds, catalogCount, printer);
  }

  /** The JSON library carries this message: one line of text that decodes to the same tree. */
  predicate Carries(m: Message, encode: Encoder, decode: Decoder) {
    var text := encode(Tree(m));
    OneLine(text) && decode(text) == Some(Tree(m))
  }

  predicate Sendable(messages: seq<Message>, encode: Encoder, decode: Decoder) {
    forall i :: 0 <= i < |messages| ==> Fits(messages[i]) && Carries(messages[i], encode, decode)
  }

  type Reader = Message -> BridgeMessage

  function ReaderWith(printer: Printer): Reader {
    m => ReadBack(m, printer)
  }

  function ReadAllBack(messages: seq<Message>, read: Reader): seq<BridgeMessage> {
    if messages == [] then [] else [read(messages[0])] + ReadAllBack(messages[1..], read)
  }

  lemma CarriedIsParsed(m: Message, encode: Encoder, decode: Decoder, printer: Printer)
    requires Carries(m, encode, decode) && Fits(m)
    ensures LineParser(decode, printer)(encode(Tree(m))) == Ok(ReaderWith(printer)(m))
  {
    MessageIsRead(m, printer);
  }

  lemma {:induction false} TextsAreParsed(messages: seq<Message>, encode: Encoder, parse: Parser, read: Reader)
    requires forall i :: 0 <= i < |messages| ==> parse(encode(Tree(messages[i]))) == Ok(read(messages[i]))
    ensures ParsedMessages(Texts(messages, encode), parse) == ReadAllBack(messages, read)
    decreases |messages|
  {
    if messages != [] {
      var others := messages[1..];
      TextsAreParsed(others, encode, parse, read);
      NextIsParsed(encode(Tree(messages[0])), Texts(others, encode), parse, read(messages[0]));
    }
  }

  lemma NextIsParsed(text: string, texts: seq<string>, parse: Parser, m: BridgeMessage)
    requires parse(text) == Ok(m)
    ensures ParsedMessages([text] + texts, parse) == [m] + ParsedMessages(texts, parse)
  {
    assert ([text] + texts)[1..] == texts;
  }

  lemma {:induction false} TextsAreLines(messages: seq<Message>, encode: Encoder)
    requires forall i :: 0 <= i < |messages| ==> OneLine(encode(Tree(messages[i])))
    ensures forall i :: 0 <= i < |Texts(messages, encode)| ==> OneLine(Texts(messages, encode)[i])
    decreases |messages|
  {
    if messages != [] {
      TextsAreLines(messages[1..], encode);
    }
  }

  lemma TextsAreRead(messages: seq<Message>, encode: Encoder, decode: Decoder, printer: Printer)
    requires Sendable(messages, encode, decode)
    ensures ParsedMessages(Texts(messages, encode), LineParser(decode, printer))
         == ReadAllBack(messages, ReaderWith(printer))
    ensures forall i :: 0 <= i < |Texts(messages, encode)| ==> OneLine(Texts(messages, encode)[i])
  {
    forall i | 0 <= i < |messages|
      ensures LineParser(decode, printer)(encode(Tree(messages[i]))) == Ok(ReaderWith(printer)(messages[i]))
      ensures OneLine(encode(Tree(messages[i])))
    {
      assert Carries(messages[i], encode, decode) && Fits(messages[i]);
      CarriedIsParsed(messages[i], encode, decode, printer);
    }
    TextsAreParsed(messages, encode, LineParser(decode, printer), ReaderWith(printer));
    TextsAreLines(messages, encode);
  }

  // ---- What each message does to catalog and samples ----

  type Write = (SampleKey, SampleRow)

  /** A table after a list of writes: the last write of a key wins. */
  function LastWins(table: map<SampleKey, SampleRow>, writes: seq<Write>): map<SampleKey, SampleRow> {
    if writes == [] then table
    else
      var last := writes[|writes| - 1];
      LastWins(table, writes[..|writes| - 1])[last.0 := last.1]
  }

  lemma {:induction false} LastWinsConcat(table: map<SampleKey, SampleRow>, a: seq<Write>, b: seq<Write>)
    ensures LastWins(table, a + b) == LastWins(LastWins(table, a), b)
    decreases |b|
  {
    if b == [] {
      assert a + b == a;
    } else {
      assert (a + b)[..|a + b| - 1] == a + b[..|b| - 1];
      LastWinsConcat(table, a, b[..|b| - 1]);
    }
  }

  predicate IsLastWrite(writes: seq<Write>, i: nat) {
    i < |writes| && forall j :: i < j < |writes| ==> writes[j].0 != writes[i].0
  }

  predicate NeverWritten(writes: seq<Write>, key: SampleKey) {
    forall i :: 0 <= i < |writes| ==> writes[i].0 != key
  }

  /** Every key that is written has a last write. */
  lemma {:induction false} LastWriteExists(writes: seq<Write>, w: Write)
    requires w in writes
    ensures exists i: nat :: IsLastWrite(writes, i) && writes[i].0 == w.0
  {
    var n := |writes| - 1;
    if writes[n].0 == w.0 {
      assert IsLastWrite(writes, n);
    } else {
      LastWriteExists(writes[..n], w);
      var i: nat :| IsLastWrite(writes[..n], i) && writes[..n][i].0 == w.0;
      assert forall j :: i < j < n ==> writes[j] == writes[..n][j];
      assert IsLastWrite(writes, i);
    }
  }

  /** The writes to these sensors. */
  function Within(writes: seq<Write>, uids: set<string>): seq<Write> {
    if writes == [] then []
    else
      var n := |writes| - 1;
      Within(writes[..n], uids) + if writes[n].0.sensorUid in uids then [writes[n]] else []
  }

  lemma {:induction false} WithinConcat(a: seq<Write>, b: seq<Write>, uids: set<string>)
    ensures Within(a + b, uids) == Within(a, uids) + Within(b, uids)
    decreases |b|
  {
    if b == [] {
      assert a + b == a;
    } else {
      var n := |b| - 1;
      assert (a + b)[..|a + b| - 1] == a + b[..n] && (a + b)[|a + b| - 1] == b[n];
      WithinConcat(a, b[..n], uids);
    }
  }

  lemma {:induction false} WithinAll(writes: seq<Write>, uids: set<string>)
    requires forall w :: w in writes ==> w.0.sensorUid in uids
    ensures Within(writes, uids) == writes
  {
    if writes != [] {
      var n := |writes| - 1;
      WithinAll(writes[..n], uids);
      assert writes[n] in writes;
    }
  }

  /** The rows a list of samples is to have. */
  function Writes(source: string, ms: int, samples: seq<SensorSample>): seq<Write> {
    if samples == [] then []
    else
      var last := samples[|samples| - 1];
      Writes(source, ms, samples[..|samples| - 1])
      + [(SampleKey(last.sensorUid, ms), SampleRowOf(source, last))]
  }

  predicate Leaves(s: Stmt) {
    s.UpsertMachine? || s.UpsertCollector?
  }

  lemma LeavesSensorTables(s: Stmt, db: Db)
    requires Leaves(s)
    ensures Apply(s, db).catalog == db.catalog && Apply(s, db).samples == db.samples
  {
  }

  /** The tables after the statements on machine and collector that every message starts with. */
  function AfterHead(m: BridgeMessage, db: Db): (after: Db)
    ensures after.catalog == db.catalog && after.samples == db.samples
  {
    LeavesSensorTables(MachineStmt(m), db);
    LeavesSensorTables(CollectorStmt(m), Apply(MachineStmt(m), db));
    Apply(CollectorStmt(m), Apply(MachineStmt(m), db))
  }

  lemma StoreIsHeadThenDetail(m: BridgeMessage, db: Db)
    ensures Store.Store(m, db) == ApplyAll(DetailStmts(m), AfterHead(m, db))
  {
    ApplyConcat([MachineStmt(m), CollectorStmt(m)], DetailStmts(m), db);
    assert [MachineStmt(m), CollectorStmt(m)] == [] + [MachineStmt(m)] + [CollectorStmt(m)];
    ApplyOne([MachineStmt(m)], CollectorStmt(m), db);
    ApplyOne([], MachineStmt(m), db);
    assert [] + [MachineStmt(m)] == [MachineStmt(m)];
    assert [MachineStmt(m)] + [CollectorStmt(m)] == [MachineStmt(m), CollectorStmt(m)];
  }

  lemma SensorIsCatalogued(machineId: string, source: string, ms: int, sensor: CatalogSensor, db: Db)
    ensures var after := Apply(UpsertSensor(machineId, source, ms, sensor), db);
            after.samples == db.samples && after.catalog.Keys == db.catalog.Keys + {sensor.sensorUid}
  {
  }

  function SensorUids(sensors: seq<CatalogSensor>): set<string> {
    if sensors == [] then {} else SensorUids(sensors[..|sensors| - 1]) + {sensors[|sensors| - 1].sensorUid}
  }

  lemma {:induction false} SensorsAreCatalogued(envelope: Envelope, sensors: seq<CatalogSensor>, db: Db)
    ensures var after := ApplyAll(SensorStmts(envelope, sensors), db);
            after.samples == db.samples && after.catalog.Keys == db.catalog.Keys + SensorUids(sensors)
  {
    if sensors != [] {
      var front, last := sensors[..|sensors| - 1], sensors[|sensors| - 1];
      SensorsAreCatalogued(envelope, front, db);
      var s := UpsertSensor(envelope.machineId, envelope.source, envelope.sentAtMs, last);
      ApplyOne(SensorStmts(envelope, front), s, db);
      SensorIsCatalogued(envelope.machineId, envelope.source, envelope.sentAtMs, last,
                         ApplyAll(SensorStmts(envelope, front), db));
    }
  }

  /** The guard of the insert: the row of an unknown sensor is not written. */
  lemma SampleIsStored(source: string, ms: int, sample: SensorSample, db: Db)
    ensures var after := Apply(InsertSample(source, ms, sample), db);
            && after.catalog == db.catalog
            && after.samples == if sample.sensorUid in db.catalog
                                then db.samples[SampleKey(sample.sensorUid, ms) := SampleRowOf(source, sample)]
                                else db.samples
  {
  }

  lemma {:induction false} SamplesAreStored(source: string, ms: int, samples: seq<SensorSample>, db: Db)
    ensures var after := ApplyAll(SampleStmts(source, ms, samples), db);
            && after.catalog == db.catalog
            && after.samples == LastWins(db.samples, Within(Writes(source, ms, samples), db.catalog.Keys))
  {
    if samples != [] {
      var front, last := samples[..|samples| - 1], samples[|samples| - 1];
      SamplesAreStored(source, ms, front, db);
      ApplyOne(SampleStmts(source, ms, front), InsertSample(source, ms, last), db);
      SampleIsStored(source, ms, last, ApplyAll(SampleStmts(source, ms, front), db));
      NextWrite(db.samples, Writes(source, ms, front), (SampleKey(last.sensorUid, ms), SampleRowOf(source, last)),
                db.catalog.Keys);
    }
  }

  lemma NextWrite(table: map<SampleKey, SampleRow>, writes: seq<Write>, w: Write, uids: set<string>)
    ensures LastWins(table, Within(writes + [w], uids))
         == if w.0.sensorUid in uids then LastWins(table, Within(writes, uids))[w.0 := w.1]
            else LastWins(table, Within(writes, uids))
  {
    assert (writes + [w])[..|writes|] == writes;
    var front := Within(writes, uids);
    assert front + [] == front && (front + [w])[..|front|] == front;
  }

  // ---- Any messages ----

  /** The sensors known after these messages. */
  function KnownAfter(messages: seq<BridgeMessage>, known: set<string>): set<string> {
    if messages == [] then known
    else
      var last := messages[|messages| - 1];
      KnownAfter(messages[..|messages| - 1], known) + if last.CatalogSnapshot? then SensorUids(last.sensors) else {}
  }

  function BatchWrites(m: BridgeMessage, known: set<string>): seq<Write> {
    if m.SampleBatch? then Within(Writes(m.envelope.source, m.sampleTimeMs, m.samples), known) else []
  }

  /** The samples of these messages whose sensors are known when their batch comes, in order. */
  function DeliveredWrites(messages: seq<BridgeMessage>, known: set<string>): seq<Write> {
    if messages == [] then []
    else
      var front := messages[..|messages| - 1];
      DeliveredWrites(front, known) + BatchWrites(messages[|messages| - 1], KnownAfter(front, known))
  }

  lemma MessageIsStored(m: BridgeMessage, db: Db)
    ensures Store.Store(m, db).samples == LastWins(db.samples, BatchWrites(m, db.catalog.Keys))
    ensures Store.Store(m, db).catalog.Keys
         == db.catalog.Keys + if m.CatalogSnapshot? then SensorUids(m.sensors) else {}
  {
    match m
    case Hello(_, _, _, _, _, _) => HeartbeatLeaves(m, db);
    case Heartbeat(_, _, _, _) => HeartbeatLeaves(m, db);
    case SampleBatch(_, _, _) => BatchIsStored(m, db);
    case CatalogSnapshot(_, _) => CatalogIsStored(m, db);
  }

  lemma KnownLast(front: seq<BridgeMessage>, last: BridgeMessage, known: set<string>)
    ensures KnownAfter(front + [last], known)
         == KnownAfter(front, known) + if last.CatalogSnapshot? then SensorUids(last.sensors) else {}
  {
    assert (front + [last])[..|front|] == front;
  }

  lemma NextKnown(front: seq<BridgeMessage>, last: BridgeMessage, db: Db, mid: Db)
    requires mid == StoreAll(front, db) && mid.catalog.Keys == KnownAfter(front, db.catalog.Keys)
    ensures StoreAll(front + [last], db).catalog.Keys == KnownAfter(front + [last], db.catalog.Keys)
  {
    StoreLast(front, last, db);
    MessageIsStored(last, mid);
    KnownLast(front, last, db.catalog.Keys);
  }

  lemma {:induction false} KnownOfMessages(messages: seq<BridgeMessage>, db: Db)
    ensures StoreAll(messages, db).catalog.Keys == KnownAfter(messages, db.catalog.Keys)
    decreases |messages|
  {
    if messages != [] {
      var front, last := SplitLast(messages);
      KnownOfMessages(front, db);
      NextKnown(front, last, db, StoreAll(front, db));
    }
  }

  lemma DeliveredLast(front: seq<BridgeMessage>, last: BridgeMessage, known: set<string>)
    ensures DeliveredWrites(front + [last], known)
         == DeliveredWrites(front, known) + BatchWrites(last, KnownAfter(front, known))
  {
    assert (front + [last])[..|front|] == front;
  }

  lemma NextTable(front: seq<BridgeMessage>, last: BridgeMessage, db: Db, mid: Db)
    requires mid == StoreAll(front, db) && mid.catalog.Keys == KnownAfter(front, db.catalog.Keys)
    requires mid.samples == LastWins(db.samples, DeliveredWrites(front, db.catalog.Keys))
    ensures StoreAll(front + [last], db).samples
         == LastWins(db.samples, DeliveredWrites(front + [last], db.catalog.Keys))
  {
    StoreLast(front, last, db);
    MessageIsStored(last, mid);
    DeliveredLast(front, last, db.catalog.Keys);
    LastWinsConcat(db.samples, DeliveredWrites(front, db.catalog.Keys), BatchWrites(last, mid.catalog.Keys));
  }

  /** The sample table after any messages. */
  lemma {:induction false} TableOfMessages(messages: seq<BridgeMessage>, db: Db)
    ensures StoreAll(messages, db).samples == LastWins(db.samples, DeliveredWrites(messages, db.catalog.Keys))
    decreases |messages|
  {
    if messages != [] {
      var front, last := SplitLast(messages);
      TableOfMessages(front, db);
      KnownOfMessages(front, db);
      NextTable(front, last, db, StoreAll(front, db));
    }
  }

  lemma StoreLast(messages: seq<BridgeMessage>, m: BridgeMessage, db: Db)
    ensures StoreAll(messages + [m], db) == Store.Store(m, StoreAll(messages, db))
  {
    StoreAllConcat(messages, [m], db);
    StoreFirst(m, [], StoreAll(messages, db));
    assert [m] + [] == [m];
  }

  predicate Writing(writes: seq<Write>, key: SampleKey) {
    exists w :: w in writes && w.0 == key
  }

  lemma {:induction false} KeyInLastWins(table: map<SampleKey, SampleRow>, writes: seq<Write>, key: SampleKey)
    ensures key in LastWins(table, writes) <==> key in table || Writing(writes, key)
  {
    if writes != [] {
      var front, last := writes[..|writes| - 1], writes[|writes| - 1];
      KeyInLastWins(table, front, key);
      assert forall w :: w in writes <==> w in front || w == last;
    }
  }

  predicate CarriesKey(m: BridgeMessage, key: SampleKey) {
    && m.SampleBatch? && m.sampleTimeMs == key.tsMs
    && exists x :: x in m.samples && x.sensorUid == key.sensorUid
  }

  lemma {:induction false} KeyInBatch(source: string, ms: int, samples: seq<SensorSample>, known: set<string>,
                                      key: SampleKey)
    ensures Writing(Within(Writes(source, ms, samples), known), key) <==>
              && key.tsMs == ms && key.sensorUid in known
              && exists x :: x in samples && x.sensorUid == key.sensorUid
  {
    if samples != [] {
      var front, last := samples[..|samples| - 1], samples[|samples| - 1];
      var w := (SampleKey(last.sensorUid, ms), SampleRowOf(source, last));
      KeyInBatch(source, ms, front, known, key);
      WithinLast(Writes(source, ms, front), w, known);
      assert forall x :: x in samples <==> x in front || x == last;
      WritingLast(Within(Writes(source, ms, front), known), w, key);
    }
  }

  lemma WithinLast(writes: seq<Write>, w: Write, uids: set<string>)
    ensures Within(writes + [w], uids) == Within(writes, uids) + if w.0.sensorUid in uids then [w] else []
  {
    assert (writes + [w])[..|writes|] == writes;
  }

  lemma WritingLast(writes: seq<Write>, w: Write, key: SampleKey)
    ensures Writing(writes + [w], key) <==> Writing(writes, key) || w.0 == key
    ensures writes + [] == writes
  {
    assert forall v :: v in writes + [w] <==> v in writes || v == w;
    assert w in writes + [w];
  }

  lemma WritingConcat(a: seq<Write>, b: seq<Write>, key: SampleKey)
    ensures Writing(a + b, key) <==> Writing(a, key) || Writing(b, key)
  {
    assert forall w :: w in a + b <==> w in a || w in b;
  }

  /** Some batch carries a sample for this key, and the sensor is known when the batch comes. */
  predicate StoresKey(messages: seq<BridgeMessage>, known: set<string>, key: SampleKey) {
    exists k :: 0 <= k < |messages| && StoresKeyAt(messages, known, key, k)
  }

  predicate StoresKeyAt(messages: seq<BridgeMessage>, known: set<string>, key: SampleKey, k: nat)
    requires k < |messages|
  {
    CarriesKey(messages[k], key) && key.sensorUid in KnownAfter(messages[..k], known)
  }

  lemma StoresKeyLast(front: seq<BridgeMessage>, last: BridgeMessage, known: set<string>, key: SampleKey)
    ensures StoresKey(front + [last], known, key) <==>
              StoresKey(front, known, key) || (CarriesKey(last, key) && key.sensorUid in KnownAfter(front, known))
  {
    var messages := front + [last];
    forall k | 0 <= k < |front| ensures StoresKeyAt(messages, known, key, k) == StoresKeyAt(front, known, key, k) {
      assert messages[..k] == front[..k];
    }
    assert messages[..|front|] == front;
    assert StoresKeyAt(messages, known, key, |front|)
        == (CarriesKey(last, key) && key.sensorUid in KnownAfter(front, known));
  }

  lemma {:induction false} KeyInDelivered(messages: seq<BridgeMessage>, known: set<string>, key: SampleKey)
    ensures Writing(DeliveredWrites(messages, known), key) <==> StoresKey(messages, known, key)
    decreases |messages|
  {
    if messages != [] {
      var front, last := SplitLast(messages);
      KeyInDelivered(front, known, key);
      StoresKeyLast(front, last, known, key);
      DeliveredLast(front, last, known);
      WritingConcat(DeliveredWrites(front, known), BatchWrites(last, KnownAfter(front, known)), key);
      KeyInBatchWrites(last, KnownAfter(front, known), key);
    }
  }

  lemma KeyInBatchWrites(m: BridgeMessage, known: set<string>, key: SampleKey)
    ensures Writing(BatchWrites(m, known), key) <==> CarriesKey(m, key) && key.sensorUid in known
  {
    if m.SampleBatch? {
      KeyInBatch(m.envelope.source, m.sampleTimeMs, m.samples, known, key);
    }
  }

  /** A sample key is in the table exactly when it was before, or some batch carries it for a sensor that was
      catalogued before that batch. */
  lemma KeyIsStoredIff(messages: seq<BridgeMessage>, db: Db, key: SampleKey)
    ensures key in StoreAll(messages, db).samples <==>
              key in db.samples || StoresKey(messages, db.catalog.Keys, key)
  {
    TableOfMessages(messages, db);
    KeyInLastWins(db.samples, DeliveredWrites(messages, db.catalog.Keys), key);
    KeyInDelivered(messages, db.catalog.Keys, key);
  }

  // ---- A whole session ----

  function RoundWrites(o: Options, round: Round): seq<Write> {
    Writes(o.sender.source, round.now / 10_000, SamplesOfTrees(round.computer))
  }

  /** Every sample the session sends, in order, with the key and row it is to have. */
  function SentWrites(o: Options, rounds: seq<Round>): seq<Write> {
    if rounds == [] then [] else RoundWrites(o, rounds[0]) + SentWrites(o, rounds[1..])
  }

  lemma HeartbeatLeaves(m: BridgeMessage, db: Db)
    requires m.Hello? || m.Heartbeat?
    ensures Store.Store(m, db).catalog == db.catalog && Store.Store(m, db).samples == db.samples
  {
    StoreIsHeadThenDetail(m, db);
  }

  lemma BatchIsStored(m: BridgeMessage, db: Db)
    requires m.SampleBatch?
    ensures Store.Store(m, db).catalog == db.catalog
    ensures Store.Store(m, db).samples
         == LastWins(db.samples, Within(Writes(m.envelope.source, m.sampleTimeMs, m.samples), db.catalog.Keys))
  {
    StoreIsHeadThenDetail(m, db);
    SamplesAreStored(m.envelope.source, m.sampleTimeMs, m.samples, AfterHead(m, db));
  }

  lemma CatalogIsStored(m: BridgeMessage, db: Db)
    requires m.CatalogSnapshot?
    ensures Store.Store(m, db).samples == db.samples
    ensures Store.Store(m, db).catalog.Keys == db.catalog.Keys + SensorUids(m.sensors)
  {
    StoreIsHeadThenDetail(m, db);
    SensorsAreCatalogued(m.envelope, m.sensors, AfterHead(m, db));
  }

  lemma {:induction false} StoreAllConcat(a: seq<BridgeMessage>, b: seq<BridgeMessage>, db: Db)
    ensures StoreAll(a + b, db) == StoreAll(b, StoreAll(a, db))
    decreases |a|
  {
    if a == [] {
      assert a + b == b;
    } else {
      assert (a + b)[1..] == a[1..] + b;
      StoreAllConcat(a[1..], b, Store.Store(a[0], db));
    }
  }

  lemma {:induction false} ReadBackConcat(a: seq<Message>, b: seq<Message>, read: Reader)
    ensures ReadAllBack(a + b, read) == ReadAllBack(a, read) + ReadAllBack(b, read)
    decreases |a|
  {
    if a == [] {
      assert a + b == b;
    } else {
      assert (a + b)[1..] == a[1..] + b;
      ReadBackConcat(a[1..], b, read);
    }
  }

  /** The store after these messages of the bridge. */
  function AfterMessages(messages: seq<Message>, printer: Printer, db: Db): Db {
    StoreAll(ReadAllBack(messages, ReaderWith(printer)), db)
  }

  lemma AfterConcat(a: seq<Message>, b: seq<Message>, printer: Printer, db: Db)
    ensures AfterMessages(a + b, printer, db) == AfterMessages(b, printer, AfterMessages(a, printer, db))
  {
    ReadBackConcat(a, b, ReaderWith(printer));
    StoreAllConcat(ReadAllBack(a, ReaderWith(printer)), ReadAllBack(b, ReaderWith(printer)), db);
  }

  lemma AfterOne(m: Message, printer: Printer, db: Db)
    ensures AfterMessages([m], printer, db) == Store.Store(ReadBack(m, printer), db)
  {
    var r := ReadBack(m, printer);
    assert [m][1..] == [] && [r][1..] == [];
    assert ReadAllBack([m], ReaderWith(printer)) == [r] + [];
    assert StoreAll([r], db) == StoreAll([r][1..], Store.Store(r, db));
  }

  lemma BatchIsDelivered(o: Options, round: Round, batch: Message, printer: Printer, db: Db)
    requires batch == SampleBatchMessage(o.sender, round.batchSentAt, round.now, SamplesOfTrees(round.computer))
    ensures var after := AfterMessages([batch], printer, db);
            && after.catalog == db.catalog
            && after.samples == LastWins(db.samples, Within(RoundWrites(o, round), db.catalog.Keys))
  {
    AfterOne(batch, printer, db);
    BatchIsStored(ReadBack(batch, printer), db);
  }

  lemma RoundIsDelivered(o: Options, catalogCount: int, deadline: int, round: Round, printer: Printer, db: Db)
    ensures var after := AfterMessages(RoundMessages(o, catalogCount, deadline, round), printer, db);
            && after.catalog == db.catalog
            && after.samples == LastWins(db.samples, Within(RoundWrites(o, round), db.catalog.Keys))
  {
    var batch := SampleBatchMessage(o.sender, round.batchSentAt, round.now, SamplesOfTrees(round.computer));
    var heartbeat := HeartbeatMessage(o.sender, round.heartbeatSentAt, round.uptimeSeconds, catalogCount);
    BatchIsDelivered(o, round, batch, printer, db);
    var next := AfterMessages([batch], printer, db);
    if round.now >= deadline {
      AfterConcat([batch], [heartbeat], printer, db);
      AfterOne(heartbeat, printer, next);
      HeartbeatLeaves(ReadBack(heartbeat, printer), next);
    } else {
      assert [batch] + [] == [batch];
    }
  }

  lemma {:induction false} RoundsAreDelivered(o: Options, catalogCount: int, deadline: int, rounds: seq<Round>,
                                              printer: Printer, db: Db)
    ensures var after := AfterMessages(RoundsMessages(o, catalogCount, deadline, rounds), printer, db);
            && after.catalog == db.catalog
            && after.samples == LastWins(db.samples, Within(SentWrites(o, rounds), db.catalog.Keys))
    decreases |rounds|
  {
    if rounds != [] {
      var first, next := RoundMessages(o, catalogCount, deadline, rounds[0]), DeadlineAfter(deadline, rounds[0].now);
      RoundIsDelivered(o, catalogCount, deadline, rounds[0], printer, db);
      RoundsAreDelivered(o, catalogCount, next, rounds[1..], printer, AfterMessages(first, printer, db));
      AfterConcat(first, RoundsMessages(o, catalogCount, next, rounds[1..]), printer, db);
      var uids, writes, others := db.catalog.Keys, RoundWrites(o, rounds[0]), SentWrites(o, rounds[1..]);
      WithinConcat(writes, others, uids);
      LastWinsConcat(db.samples, Within(writes, uids), Within(others, uids));
    }
  }

  /** The sensors of a catalog. */
  function CatalogUids(entries: seq<Entry>): set<string> {
    set uid | uid in EntryUids(entries)
  }

  lemma {:induction false} UidsAreRead(entries: seq<Entry>, printer: Printer)
    ensures SensorUids(ReadSensors(entries, printer)) == CatalogUids(entries)
  {
    if entries != [] {
      var front, last := entries[..|entries| - 1], entries[|entries| - 1];
      UidsAreRead(front, printer);
      assert entries == front + [last] && [last][1..] == [];
      EntryUidsConcat(front, [last]);
      assert EntryUids([last]) == [SensorUid(last.sensor)];
    }
  }

  lemma OpeningIsDelivered(o: Options, opening: Opening, printer: Printer, db: Db)
    ensures var after := AfterMessages(OpeningMessages(o, opening), printer, db);
            && after.samples == db.samples
            && after.catalog.Keys == db.catalog.Keys + CatalogUids(CatalogOfTrees(opening.computer))
  {
    var hello := BuildHello(o, opening);
    var snapshot := CatalogSnapshotMessage(o.sender, opening.catalogSentAt, CatalogOfTrees(opening.computer));
    assert [hello, snapshot] == [hello] + [snapshot];
    AfterConcat([hello], [snapshot], printer, db);
    AfterOne(hello, printer, db);
    HeartbeatLeaves(ReadBack(hello, printer), db);
    var next := AfterMessages([hello], printer, db);
    AfterOne(snapshot, printer, next);
    CatalogIsStored(ReadBack(snapshot, printer), next);
    UidsAreRead(CatalogOfTrees(opening.computer), printer);
  }

  /** The sensors known once the opening of a session is stored. */
  function KnownUids(opening: Opening, db: Db): set<string> {
    db.catalog.Keys + CatalogUids(CatalogOfTrees(opening.computer))
  }

  lemma ThenRounds(o: Options, start: seq<Message>, catalogCount: int, deadline: int, rounds: seq<Round>,
                   printer: Printer, db: Db, uids: set<string>)
    requires AfterMessages(start, printer, db).samples == db.samples
    requires AfterMessages(start, printer, db).catalog.Keys == uids
    ensures AfterMessages(start + RoundsMessages(o, catalogCount, deadline, rounds), printer, db).samples
         == LastWins(db.samples, Within(SentWrites(o, rounds), uids))
  {
    RoundsAreDelivered(o, catalogCount, deadline, rounds, printer, AfterMessages(start, printer, db));
    AfterConcat(start, RoundsMessages(o, catalogCount, deadline, rounds), printer, db);
  }

  lemma SessionIsStored(o: Options, opening: Opening, rounds: seq<Round>, printer: Printer, db: Db)
    ensures AfterMessages(SessionMessages(o, opening, rounds), printer, db).samples
         == LastWins(db.samples, Within(SentWrites(o, rounds), KnownUids(opening, db)))
  {
    OpeningIsDelivered(o, opening, printer, db);
    ThenRounds(o, OpeningMessages(o, opening), |CatalogOfTrees(opening.computer)|,
               opening.connectedAt + HEARTBEAT_TICKS, rounds, printer, db, KnownUids(opening, db));
  }

  /** The JSON libraries of the two processes, and the newline of the bridge's platform. */
  datatype Link = Link(encode: Encoder, decode: Decoder, printer: Printer, newline: string)

  /** What the bridge writes to the pipe in this session. */
  function SessionStream(o: Options, opening: Opening, rounds: seq<Round>, link: Link): string {
    Stream(Texts(SessionMessages(o, opening, rounds), link.encode), link.newline)
  }

  /** The store after the lines of a stream, when no engine call fails. */
  function AfterStream(stream: string, link: Link, db: Db): Db {
    StoreAll(ParsedMessages(Lines(stream), LineParser(link.decode, link.printer)), db)
  }

  predicate Carried(o: Options, opening: Opening, rounds: seq<Round>, link: Link) {
    IsNewline(link.newline) && Sendable(SessionMessages(o, opening, rounds), link.encode, link.decode)
  }

  function AfterSession(o: Options, opening: Opening, rounds: seq<Round>, link: Link, db: Db): Db {
    AfterStream(SessionStream(o, opening, rounds, link), link, db)
  }

  /**
   Delivery. When the JSON library carries the messages, the sample table after a session's stream has
   been framed, parsed and stored is the table from before, overwritten in order with every sample the
   session sent for a sensor known after its opening. Whatever the hardware does meanwhile.
   */
  lemma SessionIsDelivered(o: Options, opening: Opening, rounds: seq<Round>, link: Link, db: Db)
    requires Carried(o, opening, rounds, link)
    ensures AfterSession(o, opening, rounds, link, db).samples
         == LastWins(db.samples, Within(SentWrites(o, rounds), KnownUids(opening, db)))
  {
    var messages := SessionMessages(o, opening, rounds);
    TextsAreRead(messages, link.encode, link.decode, link.printer);
    StreamIsFramed(Texts(messages, link.encode), link.newline);
    SessionIsStored(o, opening, rounds, link.printer, db);
  }

  // ---- What that says of each sample ----

  /** The table holds the last write of every key of these sensors. */
  predicate HoldsLast(table: map<SampleKey, SampleRow>, writes: seq<Write>, uids: set<string>) {
    forall i :: 0 <= i < |writes| && IsLastWrite(writes, i) && writes[i].0.sensorUid in uids ==>
      writes[i].0 in table && table[writes[i].0] == writes[i].1
  }

  lemma {:induction false} KnownWriteIsKept(table: map<SampleKey, SampleRow>, writes: seq<Write>, uids: set<string>,
                                            i: nat)
    requires IsLastWrite(writes, i) && writes[i].0.sensorUid in uids
    ensures var after := LastWins(table, Within(writes, uids));
            writes[i].0 in after && after[writes[i].0] == writes[i].1
    decreases |writes|
  {
    var front, last := writes[..|writes| - 1], writes[|writes| - 1];
    assert writes == front + [last];
    NextWrite(table, front, last, uids);
    if i < |front| {
      assert last.0 != writes[i].0;
      KnownWriteIsKept(table, front, uids, i);
    }
  }

  lemma {:induction false} OtherKeyIsKept(table: map<SampleKey, SampleRow>, writes: seq<Write>, uids: set<string>,
                                          key: SampleKey)
    requires key.sensorUid !in uids || NeverWritten(writes, key)
    ensures var after := LastWins(table, Within(writes, uids));
            (key in after <==> key in table) && (key in table ==> after[key] == table[key])
    decreases |writes|
  {
    if writes != [] {
      var front, last := writes[..|writes| - 1], writes[|writes| - 1];
      assert writes == front + [last];
      NextWrite(table, front, last, uids);
      OtherKeyIsKept(table, front, uids, key);
    }
  }

  lemma LastWinsHoldsLast(table: map<SampleKey, SampleRow>, writes: seq<Write>, uids: set<string>)
    ensures HoldsLast(LastWins(table, Within(writes, uids)), writes, uids)
  {
    forall i | 0 <= i < |writes| && IsLastWrite(writes, i) && writes[i].0.sensorUid in uids
      ensures var after := LastWins(table, Within(writes, uids));
              writes[i].0 in after && after[writes[i].0] == writes[i].1
    {
      KnownWriteIsKept(table, writes, uids, i);
    }
  }

  /** Every sample that was sent for a known sensor has a stored row at its sensor and time, and the row is
      the last one sent for that key. */
  lemma EverySampleIsDelivered(o: Options, opening: Opening, rounds: seq<Round>, link: Link, db: Db,
                               i: nat, x: SensorSample)
    requires Carried(o, opening, rounds, link)
    requires i < |rounds| && x in SamplesOfTrees(rounds[i].computer) && x.sensorUid in KnownUids(opening, db)
    ensures var key := SampleKey(x.sensorUid, rounds[i].now / 10_000);
            var sent, after := SentWrites(o, rounds), AfterSession(o, opening, rounds, link, db).samples;
            key in after && exists k: nat :: IsLastWrite(sent, k) && sent[k] == (key, after[key])
  {
    var sent, uids := SentWrites(o, rounds), KnownUids(opening, db);
    var key := SampleKey(x.sensorUid, rounds[i].now / 10_000);
    SessionIsDelivered(o, opening, rounds, link, db);
    EverySampleIsSent(o, rounds, i, x);
    LastWriteExists(sent, (key, SampleRowOf(o.sender.source, x)));
    var k: nat :| IsLastWrite(sent, k) && sent[k].0 == key;
    KnownWriteIsKept(db.samples, sent, uids, k);
    assert sent[k] == (key, LastWins(db.samples, Within(sent, uids))[key]);
  }

  /** Rows of other keys are as they were. */
  lemma OtherSamplesAreKept(o: Options, opening: Opening, rounds: seq<Round>, link: Link, db: Db, key: SampleKey)
    requires Carried(o, opening, rounds, link)
    requires key.sensorUid !in KnownUids(opening, db) || NeverWritten(SentWrites(o, rounds), key)
    ensures var after := AfterSession(o, opening, rounds, link, db).samples;
            (key in after <==> key in db.samples) && (key in db.samples ==> after[key] == db.samples[key])
  {
    SessionIsDelivered(o, opening, rounds, link, db);
    OtherKeyIsKept(db.samples, SentWrites(o, rounds), KnownUids(opening, db), key);
  }

  // ---- When nothing is lost ----

  /** The progress after a session's stream has been handled, for any outcomes of the engine calls. */
  function AfterRun(o: Options, opening: Opening, rounds: seq<Round>, link: Link, fate: nat -> Fate,
                    at: Progress): Progress {
    HandleLines(Lines(SessionStream(o, opening, rounds, link)), LineParser(link.decode, link.printer), fate, at)
  }

  /** The messages of the session whose calls all succeed. */
  function StoredOfSession(o: Options, opening: Opening, rounds: seq<Round>, link: Link, fate: nat -> Fate,
                           at: Progress): seq<BridgeMessage> {
    StoredOnly(ReadAllBack(SessionMessages(o, opening, rounds), ReaderWith(link.printer)), fate, at)
  }

  /** Whatever calls fail: the sample table after a session is the one before, overwritten in order with the
      samples of its stored batches, each for the sensors that were known by then. */
  lemma SessionUnderFailures(o: Options, opening: Opening, rounds: seq<Round>, link: Link, fate: nat -> Fate,
                             at: Progress)
    requires Carried(o, opening, rounds, link)
    ensures AfterRun(o, opening, rounds, link, fate, at).db
         == StoreAll(StoredOfSession(o, opening, rounds, link, fate, at), at.db)
    ensures AfterRun(o, opening, rounds, link, fate, at).db.samples
         == LastWins(at.db.samples,
                     DeliveredWrites(StoredOfSession(o, opening, rounds, link, fate, at), at.db.catalog.Keys))
  {
    var messages, stored := SessionMessages(o, opening, rounds), StoredOfSession(o, opening, rounds, link, fate, at);
    var lines, parse := Texts(messages, link.encode), LineParser(link.decode, link.printer);
    TextsAreRead(messages, link.encode, link.decode, link.printer);
    StreamIsFramed(lines, link.newline);
    StoreIsFoldOfParsed(lines, parse, fate, at);
    OnlyStoredCount(ReadAllBack(messages, ReaderWith(link.printer)), fate, at);
    TableOfMessages(stored, at.db);
  }

  /** Whatever calls fail: a key is in the table after a session exactly when it was before, or a batch of the
      session that was stored carries it for a sensor that was known by then. */
  lemma SampleIsDeliveredIff(o: Options, opening: Opening, rounds: seq<Round>, link: Link, fate: nat -> Fate,
                             at: Progress, key: SampleKey)
    requires Carried(o, opening, rounds, link)
    ensures key in AfterRun(o, opening, rounds, link, fate, at).db.samples <==>
              || key in at.db.samples
              || StoresKey(StoredOfSession(o, opening, rounds, link, fate, at), at.db.catalog.Keys, key)
  {
    SessionUnderFailures(o, opening, rounds, link, fate, at);
    KeyIsStoredIff(StoredOfSession(o, opening, rounds, link, fate, at), at.db, key);
  }

  /** Whatever calls fail: every sample sent has a row exactly when each one's key had a row before, or is
      carried by a stored batch for a sensor known by then. */
  lemma NothingIsLostIff(o: Options, opening: Opening, rounds: seq<Round>, link: Link, fate: nat -> Fate,
                         at: Progress)
    requires Carried(o, opening, rounds, link)
    ensures (forall w :: w in SentWrites(o, rounds) ==> w.0 in AfterRun(o, opening, rounds, link, fate, at).db.samples)
       <==> (forall w :: w in SentWrites(o, rounds) ==>
               || w.0 in at.db.samples
               || StoresKey(StoredOfSession(o, opening, rounds, link, fate, at), at.db.catalog.Keys, w.0))
  {
    forall w | w in SentWrites(o, rounds)
      ensures w.0 in AfterRun(o, opening, rounds, link, fate, at).db.samples <==>
                || w.0 in at.db.samples
                || StoresKey(StoredOfSession(o, opening, rounds, link, fate, at), at.db.catalog.Keys, w.0)
    {
      SampleIsDeliveredIff(o, opening, rounds, link, fate, at, w.0);
    }
  }

  /** When every call fails nothing of a session is stored, known sensors or not; the bridge is not told. */
  lemma FailingStoreLosesSession(o: Options, opening: Opening, rounds: seq<Round>, link: Link, fate: nat -> Fate,
                                 at: Progress)
    requires Carried(o, opening, rounds, link) && forall i :: !fate(i).Succeeds?
    ensures AfterRun(o, opening, rounds, link, fate, at).db == at.db
  {
    SessionUnderFailures(o, opening, rounds, link, fate, at);
    AllOrNoneStored(ReadAllBack(SessionMessages(o, opening, rounds), ReaderWith(link.printer)), fate, at);
  }

  lemma NoFailureIsSession(o: Options, opening: Opening, rounds: seq<Round>, link: Link, fate: nat -> Fate,
                           at: Progress)
    requires Carried(o, opening, rounds, link) && forall i :: fate(i).Succeeds?
    ensures AfterRun(o, opening, rounds, link, fate, at).db == AfterSession(o, opening, rounds, link, at.db)
  {
    var lines := Lines(SessionStream(o, opening, rounds, link));
    var parse := LineParser(link.decode, link.printer);
    StoreIsFoldOfParsed(lines, parse, fate, at);
    OnlyStoredCount(ParsedMessages(lines, parse), fate, at);
    AllOrNoneStored(ParsedMessages(lines, parse), fate, at);
  }

  /** When no call fails: a sample that was sent has a row exactly when its sensor was known after the
      opening. */
  lemma KnownSampleIsDeliveredIff(o: Options, opening: Opening, rounds: seq<Round>, link: Link, fate: nat -> Fate,
                                  at: Progress, w: Write)
    requires Carried(o, opening, rounds, link) && Valid(at.db) && w in SentWrites(o, rounds)
    requires forall i :: fate(i).Succeeds?
    ensures w.0 in AfterRun(o, opening, rounds, link, fate, at).db.samples <==>
              w.0.sensorUid in KnownUids(opening, at.db)
  {
    var sent, uids := SentWrites(o, rounds), KnownUids(opening, at.db);
    NoFailureIsSession(o, opening, rounds, link, fate, at);
    SessionIsDelivered(o, opening, rounds, link, at.db);
    if w.0.sensorUid in uids {
      LastWriteExists(sent, w);
      var k: nat :| IsLastWrite(sent, k) && sent[k].0 == w.0;
      KnownWriteIsKept(at.db.samples, sent, uids, k);
    } else {
      OtherKeyIsKept(at.db.samples, sent, uids, w.0);
    }
  }

  /** When no call fails: a session loses nothing exactly when every sensor it sampled was known after the
      opening. */
  lemma KnownSessionLosesNothingIff(o: Options, opening: Opening, rounds: seq<Round>, link: Link, fate: nat -> Fate,
                                    at: Progress)
    requires Carried(o, opening, rounds, link) && Valid(at.db)
    requires forall i :: fate(i).Succeeds?
    ensures (forall w :: w in SentWrites(o, rounds) ==> w.0 in AfterRun(o, opening, rounds, link, fate, at).db.samples)
       <==> (forall w :: w in SentWrites(o, rounds) ==> w.0.sensorUid in KnownUids(opening, at.db))
  {
    forall w | w in SentWrites(o, rounds)
      ensures w.0 in AfterRun(o, opening, rounds, link, fate, at).db.samples <==>
                w.0.sensorUid in KnownUids(opening, at.db)
    {
      KnownSampleIsDeliveredIff(o, opening, rounds, link, fate, at, w);
    }
  }

  /** A board with one sensor. */
  function Board(sensor: Sensor): Hardware {
    Hardware("/board", "board", "Motherboard", [], [sensor], [])
  }

  lemma BoardIsSampled(sensor: Sensor)
    requires sensor.value.Some?
    ensures SampleOfSensor(sensor)[0] in SamplesOfTrees([Board(sensor)])
  {
    var sample := SampleOfSensor(sensor)[0];
    assert [sensor][1..] == [] && SamplesOfSensors([sensor]) == [sample] + [];
    assert SamplesOfTree(Board(sensor)) == [sample] + [];
    assert SamplesOfTrees([Board(sensor)]) == [sample] + SamplesOfTrees([Board(sensor)][1..]);
  }

  lemma NoSensorKnown(writes: seq<Write>)
    ensures LastWins(map[], Within(writes, {})) == map[]
  {
    forall key ensures key !in LastWins(map[], Within(writes, {})) {
      OtherKeyIsKept(map[], writes, {}, key);
    }
  }

  /** How a sample is lost: the session opens without hardware, and then a board appears. Its sample is
      sent, and no row is stored. */
  lemma LateSensorIsLost(o: Options, opening: Opening, round: Round, sensor: Sensor, link: Link)
    requires opening.computer == [] && round.computer == [Board(sensor)] && sensor.value.Some?
    requires Carried(o, opening, [round], link)
    ensures exists w :: w in SentWrites(o, [round]) && w.0.sensorUid == SensorUid(sensor)
    ensures AfterSession(o, opening, [round], link, EMPTY_DB).samples == map[]
  {
    BoardIsSampled(sensor);
    EverySampleIsSent(o, [round], 0, SampleOfSensor(sensor)[0]);
    SessionIsDelivered(o, opening, [round], link, EMPTY_DB);
    assert KnownUids(opening, EMPTY_DB) == {};
    NoSensorKnown(SentWrites(o, [round]));
  }

  // ---- Nothing is lost while the hardware keeps its shape ----

  lemma {:induction false} SampleUidIsListed(samples: seq<SensorSample>, x: SensorSample)
    requires x in samples
    ensures x.sensorUid in SampleUids(samples)
    decreases |samples|
  {
    if x != samples[0] {
      SampleUidIsListed(samples[1..], x);
    }
  }

  lemma {:induction false} WritesAreOfSamples(source: string, ms: int, samples: seq<SensorSample>, w: Write)
    requires w in Writes(source, ms, samples)
    ensures w.0.sensorUid in SampleUids(samples)
  {
    var last := samples[|samples| - 1];
    if w == (SampleKey(last.sensorUid, ms), SampleRowOf(source, last)) {
      SampleUidIsListed(samples, last);
    } else {
      var front := samples[..|samples| - 1];
      WritesAreOfSamples(source, ms, front, w);
      assert samples == front + [last];
      SampleUidsConcat(front, [last]);
    }
  }

  lemma {:induction false} SentIsCatalogued(o: Options, computer: seq<Hardware>, rounds: seq<Round>, w: Write)
    requires forall i :: 0 <= i < |rounds| ==> SameShapes(computer, rounds[i].computer)
    requires w in SentWrites(o, rounds)
    ensures w.0.sensorUid in CatalogUids(CatalogOfTrees(computer))
    decreases |rounds|
  {
    if w in RoundWrites(o, rounds[0]) {
      var samples := SamplesOfTrees(rounds[0].computer);
      WritesAreOfSamples(o.sender.source, rounds[0].now / 10_000, samples, w);
      SampledIsCatalogued(computer, rounds[0].computer);
      SubMembers(SampleUids(samples), EntryUids(CatalogOfTrees(computer)), w.0.sensorUid);
    } else {
      SentIsCatalogued(o, computer, rounds[1..], w);
    }
  }

  /** While the hardware keeps its shape during a session, every sample it sent is delivered. */
  lemma FixedHardwareLosesNothing(o: Options, opening: Opening, rounds: seq<Round>, db: Db)
    requires forall i :: 0 <= i < |rounds| ==> SameShapes(opening.computer, rounds[i].computer)
    ensures Within(SentWrites(o, rounds), KnownUids(opening, db)) == SentWrites(o, rounds)
  {
    forall w | w in SentWrites(o, rounds) ensures w.0.sensorUid in KnownUids(opening, db) {
      SentIsCatalogued(o, opening.computer, rounds, w);
    }
    WithinAll(SentWrites(o, rounds), KnownUids(opening, db));
  }

  lemma {:induction false} WritesListEverySample(source: string, ms: int, samples: seq<SensorSample>, x: SensorSample)
    requires x in samples
    ensures (SampleKey(x.sensorUid, ms), SampleRowOf(source, x)) in Writes(source, ms, samples)
  {
    if x != samples[|samples| - 1] {
      WritesListEverySample(source, ms, samples[..|samples| - 1], x);
    }
  }

  /** Every sample of every turn is among the writes of `SessionIsDelivered`. */
  lemma {:induction false} EverySampleIsSent(o: Options, rounds: seq<Round>, i: nat, x: SensorSample)
    requires i < |rounds| && x in SamplesOfTrees(rounds[i].computer)
    ensures (SampleKey(x.sensorUid, rounds[i].now / 10_000), SampleRowOf(o.sender.source, x)) in SentWrites(o, rounds)
    decreases i
  {
    if i == 0 {
      WritesListEverySample(o.sender.source, rounds[0].now / 10_000, SamplesOfTrees(rounds[0].computer), x);
    } else {
      EverySampleIsSent(o, rounds[1..], i - 1, x);
    }
  }

  function LinkOf(writer: PipeWriter, service: Service): Link {
    Link(writer.encode, service.decode, service.printer, writer.newline)
  }

  /** The bridge's process, the pipe cutting its bytes as it likes, and the agent's process. */
  method Deliver(writer: PipeWriter, o: Options, opening: Opening, rounds: seq<Round>, chunks: seq<string>,
                 service: Service)
    requires writer.Valid() && writer.sent == [] && service.store.db.state.Idle()
    requires Carried(o, opening, rounds, LinkOf(writer, service))
    requires forall i :: 0 <= i < |chunks| ==> chunks[i] != ""
    requires Concat(chunks) == SessionStream(o, opening, rounds, LinkOf(writer, service))
    modifies writer, service.store.db
    ensures writer.written == Concat(chunks)
    ensures service.At() == AfterRun(o, opening, rounds, LinkOf(writer, service), service.store.db.fate,
                                     old(service.At()))
    ensures service.store.db.NeverFails() ==>
              service.store.db.state.committed.samples ==
              LastWins(old(service.store.db.state.committed.samples),
                       Within(SentWrites(o, rounds), KnownUids(opening, old(service.store.db.state.committed))))
    ensures service.store.db.NeverFails() ==>
              HoldsLast(service.store.db.state.committed.samples, SentWrites(o, rounds),
                        KnownUids(opening, old(service.store.db.state.committed)))
  {
    ghost var link, before, at := LinkOf(writer, service), service.store.db.state.committed, service.At();
    writer.Serve(o, opening, rounds);
    EveryChunkingIsReceived(chunks);
    service.ServeConnection(Reads(chunks));
    if service.store.db.NeverFails() {
      NoFailureIsSession(o, opening, rounds, link, service.store.db.fate, at);
      SessionIsDelivered(o, opening, rounds, link, before);
      LastWinsHoldsLast(before.samples, SentWrites(o, rounds), KnownUids(opening, before));
    }
  }
}
