/** Delivery, stated of the sensors of the hardware rather than of the bridge's lists. */
module SensorDelivery {
  import opened Bridge
  import opened Database
  import opened Delivery
  import opened Messages
  import opened SensorPaths
  import opened Session

  /** The row that a sensor with a value has at its turn. */
  predicate IsRowOf(w: Write, s: Sensor, now: Instant, source: string) {
    && s.value.Some?
    && w == (SampleKey("librehw:" + s.identifier, now / 10_000),
             SampleRow(s.value.value, s.min, s.max, "ok", source))
  }

  predicate IsSentBy(o: Options, rounds: seq<Round>, i: nat, p: Place, w: Write) {
    && i < |rounds| && IsPlace(rounds[i].computer, p)
    && IsRowOf(w, SensorAt(rounds[i].computer, p), rounds[i].now, o.sender.source)
  }

  /** Every sensor that has a value at a turn, however deep in the hardware, is sent with that value at the
      turn's millisecond. */
  lemma EverySensorIsSent(o: Options, rounds: seq<Round>, i: nat, p: Place, w: Write)
    requires IsSentBy(o, rounds, i, p, w)
    ensures w in SentWrites(o, rounds)
  {
    var s := SensorAt(rounds[i].computer, p);
    var x := SensorSample("librehw:" + s.identifier, s.value.value, s.min, s.max, "ok");
    assert IsSampleOf(x, s);
    SampledIff(rounds[i].computer, x);
    EverySampleIsSent(o, rounds, i, x);
  }

  predicate IsRowOfSample(w: Write, x: SensorSample, ms: int, source: string) {
    w == (SampleKey(x.sensorUid, ms), SampleRow(x.value, x.minValue, x.maxValue, x.quality, source))
  }

  lemma {:induction false} WritesAreSamples(source: string, ms: int, samples: seq<SensorSample>, w: Write)
    requires w in Writes(source, ms, samples)
    ensures exists x :: x in samples && IsRowOfSample(w, x, ms, source)
  {
    var last := samples[|samples| - 1];
    if w == (SampleKey(last.sensorUid, ms), SampleRowOf(source, last)) {
      assert last in samples && IsRowOfSample(w, last, ms, source);
    } else {
      WritesAreSamples(source, ms, samples[..|samples| - 1], w);
    }
  }

  /** And nothing else is sent. */
  lemma {:induction false} EveryWriteIsOfASensor(o: Options, rounds: seq<Round>, w: Write)
    requires w in SentWrites(o, rounds)
    ensures exists i: nat, p :: IsSentBy(o, rounds, i, p, w)
    decreases |rounds|
  {
    if w in RoundWrites(o, rounds[0]) {
      var trees, ms := rounds[0].computer, rounds[0].now / 10_000;
      WritesAreSamples(o.sender.source, ms, SamplesOfTrees(trees), w);
      var x :| x in SamplesOfTrees(trees) && IsRowOfSample(w, x, ms, o.sender.source);
      SampledIff(trees, x);
      var p :| IsPlace(trees, p) && IsSampleOf(x, SensorAt(trees, p));
      assert IsSentBy(o, rounds, 0, p, w);
    } else {
      EveryWriteIsOfASensor(o, rounds[1..], w);
      var i: nat, p :| IsSentBy(o, rounds[1..], i, p, w);
      assert IsSentBy(o, rounds, i + 1, p, w);
    }
  }

  /** The hardware has a sensor with this identifier. */
  ghost predicate HasSensor(trees: seq<Hardware>, identifier: string) {
    exists p :: IsPlace(trees, p) && SensorAt(trees, p).identifier == identifier
  }

  lemma {:induction false} UidInEntries(entries: seq<Entry>, uid: string)
    ensures uid in EntryUids(entries) <==> exists e :: e in entries && uid == "librehw:" + e.sensor.identifier
    decreases |entries|
  {
    if entries != [] {
      UidInEntries(entries[1..], uid);
      assert forall e :: e in entries <==> e == entries[0] || e in entries[1..];
    }
  }

  /** The sensors known after the opening: those catalogued before, and every sensor of the hardware, with a
      value or not. */
  lemma KnownIff(opening: Opening, db: Db, identifier: string)
    ensures "librehw:" + identifier in KnownUids(opening, db) <==>
              "librehw:" + identifier in db.catalog || HasSensor(opening.computer, identifier)
  {
    var trees, uid := opening.computer, "librehw:" + identifier;
    UidInEntries(CatalogOfTrees(trees), uid);
    if e :| e in CatalogOfTrees(trees) && uid == "librehw:" + e.sensor.identifier {
      CataloguedIff(trees, e);
      var p :| IsPlace(trees, p) && e == EntryAt(trees, p);
      assert uid[8..] == identifier == e.sensor.identifier;
      assert SensorAt(trees, p).identifier == identifier;
    }
    if p :| IsPlace(trees, p) && SensorAt(trees, p).identifier == identifier {
      CataloguedIff(trees, EntryAt(trees, p));
      assert EntryAt(trees, p) in CatalogOfTrees(trees);
    }
  }

  /**
   Delivery of every sensor, when no engine call fails. A sensor that has a value at a turn, however deep in
   the hardware, and that was catalogued before or was there when the session opened, has a row at the
   turn's millisecond; the row is the last one sent for that key.
   */
  lemma EverySensorIsDelivered(o: Options, opening: Opening, rounds: seq<Round>, link: Link, db: Db, i: nat, p: Place)
    requires Carried(o, opening, rounds, link)
    requires i < |rounds| && IsPlace(rounds[i].computer, p) && SensorAt(rounds[i].computer, p).value.Some?
    requires var identifier := SensorAt(rounds[i].computer, p).identifier;
             "librehw:" + identifier in db.catalog || HasSensor(opening.computer, identifier)
    ensures var s, sent := SensorAt(rounds[i].computer, p), SentWrites(o, rounds);
            var key := SampleKey("librehw:" + s.identifier, rounds[i].now / 10_000);
            var after := AfterSession(o, opening, rounds, link, db).samples;
            key in after && exists k: nat :: IsLastWrite(sent, k) && sent[k] == (key, after[key])
  {
    var s := SensorAt(rounds[i].computer, p);
    var x := SensorSample("librehw:" + s.identifier, s.value.value, s.min, s.max, "ok");
    assert IsSampleOf(x, s);
    SampledIff(rounds[i].computer, x);
    KnownIff(opening, db, s.identifier);
    EverySampleIsDelivered(o, opening, rounds, link, db, i, x);
  }

  /** No other turn falls in the same millisecond, and no other sensor of the turn has the identifier. */
  ghost predicate IsAlone(rounds: seq<Round>, i: nat, p: Place)
    requires i < |rounds| && IsPlace(rounds[i].computer, p)
  {
    var trees := rounds[i].computer;
    && (forall j :: 0 <= j < |rounds| && rounds[j].now / 10_000 == rounds[i].now / 10_000 ==> j == i)
    && (forall q :: IsPlace(trees, q) && SensorAt(trees, q).identifier == SensorAt(trees, p).identifier ==> q == p)
  }

  /** When no other turn falls in the same millisecond and no other sensor has the identifier, the row is the
      sensor's own value, bounds and source. */
  lemma OwnValueIsDelivered(o: Options, opening: Opening, rounds: seq<Round>, link: Link, db: Db, i: nat, p: Place)
    requires Carried(o, opening, rounds, link)
    requires i < |rounds| && IsPlace(rounds[i].computer, p) && SensorAt(rounds[i].computer, p).value.Some?
    requires var identifier := SensorAt(rounds[i].computer, p).identifier;
             "librehw:" + identifier in db.catalog || HasSensor(opening.computer, identifier)
    requires IsAlone(rounds, i, p)
    ensures var s := SensorAt(rounds[i].computer, p);
            var key := SampleKey("librehw:" + s.identifier, rounds[i].now / 10_000);
            var after := AfterSession(o, opening, rounds, link, db).samples;
            key in after && after[key] == SampleRow(s.value.value, s.min, s.max, "ok", o.sender.source)
  {
    var s, sent := SensorAt(rounds[i].computer, p), SentWrites(o, rounds);
    var key := SampleKey("librehw:" + s.identifier, rounds[i].now / 10_000);
    var after := AfterSession(o, opening, rounds, link, db).samples;
    EverySensorIsDelivered(o, opening, rounds, link, db, i, p);
    var k: nat :| IsLastWrite(sent, k) && sent[k] == (key, after[key]);
    EveryWriteIsOfASensor(o, rounds, sent[k]);
    var j: nat, q :| IsSentBy(o, rounds, j, q, sent[k]);
    var t := SensorAt(rounds[j].computer, q);
    assert ("librehw:" + t.identifier)[8..] == t.identifier && ("librehw:" + s.identifier)[8..] == s.identifier;
  }
}
