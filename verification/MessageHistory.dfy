/**
 The times stored for machines and collectors, as maxima over the messages that were stored.
 */
module MessageHistory {
  import opened Database
  import opened Effects
  import opened Engine
  import opened History
  import opened Messages
  import opened Readiness
  import opened Service
  import opened Staleness
  import opened Store
  import opened Wrappers

  /** Which time, if any, a message contributes to a column. */
  type TimeOf = BridgeMessage -> Option<int>

  predicate From(m: BridgeMessage, key: string) {
    m.envelope.machineId + ":" + m.envelope.source == key
  }

  function HelloTime(key: string): TimeOf {
    (m: BridgeMessage) => if m.Hello? && From(m, key) then Some(m.envelope.sentAtMs) else None
  }

  function BatchTime(key: string): TimeOf {
    (m: BridgeMessage) => if m.SampleBatch? && From(m, key) then Some(m.sampleTimeMs) else None
  }

  /** A batch counts with the time of its samples, any other message with the time it was sent. */
  function SeenTime(machineId: string): TimeOf {
    (m: BridgeMessage) =>
      if m.envelope.machineId != machineId then None
      else Some(if m.SampleBatch? then m.sampleTimeMs else m.envelope.sentAtMs)
  }

  /** The greatest of a stored time and the times of these messages, and nothing when there are none. */
  predicate IsGreatest(time: Option<int>, stored: Option<int>, messages: seq<BridgeMessage>, timeOf: TimeOf) {
    && NotBefore(stored, time)
    && (forall m :: m in messages ==> NotBefore(timeOf(m), time))
    && (time == stored || exists m :: m in messages && timeOf(m) == time)
  }

  type Column = Db -> Option<int>

  function HelloColumn(key: string): Column {
    (db: Db) => if key in db.collectors then db.collectors[key].lastHelloMs else None
  }

  function SampleColumn(key: string): Column {
    (db: Db) => if key in db.collectors then db.collectors[key].lastSampleMs else None
  }

  function SeenColumn(machineId: string): Column {
    (db: Db) => if machineId in db.machines then Some(db.machines[machineId].lastSeenMs) else None
  }

  lemma CollectorTimes(m: BridgeMessage, before: Db, after: Db, key: string)
    requires Effect(m, before, after)
    ensures IsLaterOf(HelloColumn(key)(after), HelloColumn(key)(before), HelloTime(key)(m))
    ensures IsLaterOf(SampleColumn(key)(after), SampleColumn(key)(before), BatchTime(key)(m))
  {
  }

  lemma MachineTime(m: BridgeMessage, before: Db, after: Db, machineId: string)
    requires Effect(m, before, after)
    ensures IsLaterOf(SeenColumn(machineId)(after), SeenColumn(machineId)(before), SeenTime(machineId)(m))
  {
  }

  lemma FirstThenRest(first: BridgeMessage, rest: seq<BridgeMessage>, timeOf: TimeOf, stored: Option<int>,
                      mid: Option<int>, time: Option<int>)
    requires IsLaterOf(mid, stored, timeOf(first)) && IsGreatest(time, mid, rest, timeOf)
    ensures IsGreatest(time, stored, [first] + rest, timeOf)
  {
    assert forall m :: m in [first] + rest <==> m == first || m in rest;
  }

  lemma {:induction false} ColumnIsGreatest(messages: seq<BridgeMessage>, db: Db, column: Column, timeOf: TimeOf)
    requires forall m, before :: IsLaterOf(column(Store.Store(m, before)), column(before), timeOf(m))
    ensures IsGreatest(column(StoreAll(messages, db)), column(db), messages, timeOf)
    decreases |messages|
  {
    if messages != [] {
      var first, rest := messages[0], messages[1..];
      ColumnIsGreatest(rest, Store.Store(first, db), column, timeOf);
      FirstThenRest(first, rest, timeOf, column(db), column(Store.Store(first, db)), column(StoreAll(messages, db)));
      assert messages == [first] + rest;
    }
  }

  /** After any messages, the three merged times of a collector row and a machine are the greatest of what
      was stored before and what the messages give: hellos the hello time, batches the sample time, every
      message of a machine its last-seen time. Catalogs and heartbeats move neither of the first two. */
  lemma TimesOfMessages(messages: seq<BridgeMessage>, db: Db, key: string, machineId: string)
    ensures var after := StoreAll(messages, db);
            && IsGreatest(HelloColumn(key)(after), HelloColumn(key)(db), messages, HelloTime(key))
            && IsGreatest(SampleColumn(key)(after), SampleColumn(key)(db), messages, BatchTime(key))
            && IsGreatest(SeenColumn(machineId)(after), SeenColumn(machineId)(db), messages, SeenTime(machineId))
  {
    forall m, before
      ensures IsLaterOf(HelloColumn(key)(Store.Store(m, before)), HelloColumn(key)(before), HelloTime(key)(m))
      ensures IsLaterOf(SampleColumn(key)(Store.Store(m, before)), SampleColumn(key)(before), BatchTime(key)(m))
      ensures IsLaterOf(SeenColumn(machineId)(Store.Store(m, before)), SeenColumn(machineId)(before),
                        SeenTime(machineId)(m))
    {
      MessageHasEffect(m, before);
      CollectorTimes(m, before, Store.Store(m, before), key);
      MachineTime(m, before, Store.Store(m, before), machineId);
    }
    ColumnIsGreatest(messages, db, HelloColumn(key), HelloTime(key));
    ColumnIsGreatest(messages, db, SampleColumn(key), BatchTime(key));
    ColumnIsGreatest(messages, db, SeenColumn(machineId), SeenTime(machineId));
  }

  /** The same whatever engine calls fail, over the messages whose calls all succeed. */
  lemma TimesUnderFailures(messages: seq<BridgeMessage>, fate: nat -> Fate, at: Progress, key: string,
                           machineId: string)
    ensures var after, stored := StoreMessages(messages, fate, at).db, StoredOnly(messages, fate, at);
            && IsGreatest(HelloColumn(key)(after), HelloColumn(key)(at.db), stored, HelloTime(key))
            && IsGreatest(SampleColumn(key)(after), SampleColumn(key)(at.db), stored, BatchTime(key))
            && IsGreatest(SeenColumn(machineId)(after), SeenColumn(machineId)(at.db), stored, SeenTime(machineId))
  {
    OnlyStoredCount(messages, fate, at);
    TimesOfMessages(StoredOnly(messages, fate, at), at.db, key, machineId);
  }

  /** For colon-free ids, the messages under the key are those of this machine and source. */
  lemma KeyIsOfOnePair(m: BridgeMessage, machineId: string, source: string)
    requires !Colon(machineId) && !Colon(source)
    ensures From(m, machineId + ":" + source) <==> m.envelope.machineId == machineId && m.envelope.source == source
  {
    if From(m, machineId + ":" + source) {
      UnsharedKey(m.envelope.machineId, m.envelope.source, machineId, source);
    }
  }

  lemma {:induction false} StoreAllKeepsValid(messages: seq<BridgeMessage>, db: Db)
    requires Valid(db)
    ensures Valid(StoreAll(messages, db))
    decreases |messages|
  {
    if messages != [] {
      StatementsKeepValid(StatementsOf(messages[0]), db);
      StoreAllKeepsValid(messages[1..], Store.Store(messages[0], db));
    }
  }

  lemma {:induction false} StatementsKeepValid(statements: seq<Stmt>, db: Db)
    requires Valid(db)
    ensures Valid(ApplyAll(statements, db))
  {
    if statements != [] {
      var n := |statements| - 1;
      StatementsKeepValid(statements[..n], db);
      ApplyKeepsValid(statements[n], ApplyAll(statements[..n], db));
    }
  }

  /** A stored batch of this machine's bridge with samples at most 30 s old. */
  predicate HasRecentBatch(messages: seq<BridgeMessage>, machineId: string, now: int) {
    exists m :: && m in messages && m.SampleBatch? && m.envelope.machineId == machineId
                && m.envelope.source == "librehw_bridge" && now - m.sampleTimeMs <= 30_000
  }

  /** From messages to the verdict: without GPU rows a machine is stale exactly when none of its bridge's
      stored batches is recent. Hellos, heartbeats and catalogs do not count. */
  lemma BridgeVerdictOfMessages(messages: seq<BridgeMessage>, machineId: string, rows: seq<HealthRow>, now: int,
                                requiredVram: int)
    requires !Colon(machineId)
    requires IsHealthListing(StoreAll(messages, EMPTY_DB), machineId, rows)
    ensures VerdictOf([], rows, now, requiredVram)
         == if HasRecentBatch(messages, machineId, now) then Unknown else Stale
  {
    var source := "librehw_bridge";
    var after, key := StoreAll(messages, EMPTY_DB), CollectorId(machineId, source);
    assert !Colon(source);
    StoreAllKeepsValid(messages, EMPTY_DB);
    TimesOfMessages(messages, EMPTY_DB, key, machineId);
    FirstMatchIsTheOnlyMatch(after, machineId, source, rows);
    if key in after.collectors {
      UnsharedKey(after.collectors[key].machineId, after.collectors[key].source, machineId, source);
    }
    forall m ensures From(m, key) <==> m.envelope.machineId == machineId && m.envelope.source == source {
      KeyIsOfOnePair(m, machineId, source);
    }
    RecentBatchIff(messages, key, machineId, now, SampleColumn(key)(after));
  }

  lemma RecentBatchIff(messages: seq<BridgeMessage>, key: string, machineId: string, now: int, time: Option<int>)
    requires IsGreatest(time, None, messages, BatchTime(key))
    requires forall m :: From(m, key) <==> m.envelope.machineId == machineId && m.envelope.source == "librehw_bridge"
    ensures HasRecentBatch(messages, machineId, now) <==> time.Some? && now - time.value <= 30_000
  {
    if time.Some? {
      var m :| m in messages && BatchTime(key)(m) == time;
      assert From(m, key);
    }
    if HasRecentBatch(messages, machineId, now) {
      var m :| && m in messages && m.SampleBatch? && m.envelope.machineId == machineId
               && m.envelope.source == "librehw_bridge" && now - m.sampleTimeMs <= 30_000;
      assert From(m, key) && BatchTime(key)(m) == Some(m.sampleTimeMs);
    }
  }
}
