/**
 The store's message writers: one transaction per message, all or nothing, whatever engine calls fail.
 */
module Store {
  import opened Database
  import opened Effects
  import opened Engine
  import opened JsonText
  import opened Messages
  import opened Wrappers

  // ---- The statements of a message ----

  function MachineStmt(m: BridgeMessage): Stmt {
    match m
    case Hello(envelope, bridgeVersion, hostname, _, _, _) =>
      UpsertMachine(envelope.machineId, Some(hostname), Some(hostname), envelope.sentAtMs,
                    Some(BuildMachineExtraJson(envelope.source, bridgeVersion)))
    case CatalogSnapshot(envelope, _) =>
      UpsertMachine(envelope.machineId, None, None, envelope.sentAtMs, None)
    case SampleBatch(envelope, sampleTimeMs, _) =>
      UpsertMachine(envelope.machineId, None, None, sampleTimeMs, None)
    case Heartbeat(envelope, _, _, _) =>
      UpsertMachine(envelope.machineId, None, None, envelope.sentAtMs, None)
  }

  function CollectorStmt(m: BridgeMessage): Stmt {
    var e := m.envelope;
    match m
    case Hello(_, bridgeVersion, hostname, pid, interval, capabilities) =>
      UpsertCollector(e.machineId, e.source, "bridge", "ok", Some(e.sentAtMs), None, None, e.sentAtMs,
                      Some(BuildHelloExtraJson(hostname, bridgeVersion, pid, interval, capabilities)))
    case CatalogSnapshot(_, sensors) =>
      UpsertCollector(e.machineId, e.source, "sensor_stream", "ok", None, None, None, e.sentAtMs,
                      Some(BuildCatalogExtraJson(|sensors|)))
    case SampleBatch(_, sampleTimeMs, samples) =>
      UpsertCollector(e.machineId, e.source, "sensor_stream", "ok", None, Some(sampleTimeMs), None,
                      e.sentAtMs, Some(BuildSampleExtraJson(|samples|)))
    case Heartbeat(_, status, uptime, catalogCount) =>
      UpsertCollector(e.machineId, e.source, "bridge", status, None, None, None, e.sentAtMs,
                      Some(BuildHeartbeatExtraJson(uptime, catalogCount)))
  }

  function SensorStmts(envelope: Envelope, sensors: seq<CatalogSensor>): seq<Stmt> {
    if sensors == [] then []
    else SensorStmts(envelope, sensors[..|sensors| - 1])
         + [UpsertSensor(envelope.machineId, envelope.source, envelope.sentAtMs, sensors[|sensors| - 1])]
  }

  function SampleStmts(source: string, tsMs: int, samples: seq<SensorSample>): seq<Stmt> {
    if samples == [] then []
    else SampleStmts(source, tsMs, samples[..|samples| - 1])
         + [InsertSample(source, tsMs, samples[|samples| - 1])]
  }

  function DetailStmts(m: BridgeMessage): seq<Stmt> {
    match m
    case CatalogSnapshot(envelope, sensors) => SensorStmts(envelope, sensors)
    case SampleBatch(envelope, sampleTimeMs, samples) => SampleStmts(envelope.source, sampleTimeMs, samples)
    case _ => []
  }

  /** Everything a message executes between BEGIN and COMMIT. */
  function StatementsOf(m: BridgeMessage): seq<Stmt> {
    [MachineStmt(m), CollectorStmt(m)] + DetailStmts(m)
  }

  /** The effect of a message that is stored. */
  function Store(m: BridgeMessage, db: Db): Db {
    ApplyAll(StatementsOf(m), db)
  }

  // ---- The statements have the promised effect ----

  lemma {:induction false} SensorsHaveEffect(e: Envelope, sensors: seq<CatalogSensor>, db: Db)
    ensures var after := ApplyAll(SensorStmts(e, sensors), db);
            CatalogMerged(db.catalog, after.catalog, e, sensors) && after == db.(catalog := after.catalog)
  {
    if sensors == [] {
      NoSensors(db.catalog, e);
    } else {
      var front, last := sensors[..|sensors| - 1], sensors[|sensors| - 1];
      var s := UpsertSensor(e.machineId, e.source, e.sentAtMs, last);
      var mid := ApplyAll(SensorStmts(e, front), db);
      SensorsHaveEffect(e, front, db);
      ApplyOne(SensorStmts(e, front), s, db);
      SensorStatement(s, mid, e);
      OneMoreSensor(db.catalog, mid.catalog, Apply(s, mid).catalog, e, front, last);
      assert sensors == front + [last];
    }
  }

  lemma {:induction false} SamplesHaveEffect(source: string, ms: int, samples: seq<SensorSample>, db: Db)
    ensures var after := ApplyAll(SampleStmts(source, ms, samples), db);
            && SamplesMerged(db.samples, after.samples, db.catalog.Keys, source, ms, samples)
            && after == db.(samples := after.samples)
  {
    if samples == [] {
      NoSamples(db.samples, db.catalog.Keys, source, ms);
    } else {
      var front, last := samples[..|samples| - 1], samples[|samples| - 1];
      var s := InsertSample(source, ms, last);
      var mid := ApplyAll(SampleStmts(source, ms, front), db);
      SamplesHaveEffect(source, ms, front, db);
      ApplyOne(SampleStmts(source, ms, front), s, db);
      SampleStatement(s, mid);
      OneMoreSample(db.samples, mid.samples, Apply(s, mid).samples, db.catalog.Keys, source, ms, front, last);
      assert samples == front + [last];
    }
  }

  /** Storing a message changes the tables as promised for its kind. */
  lemma MessageHasEffect(m: BridgeMessage, db: Db)
    ensures Effect(m, db, Store(m, db))
  {
    var machine, collector := MachineStmt(m), CollectorStmt(m);
    var seen := Apply(machine, db);
    var head := Apply(collector, seen);
    MachineStatement(machine, db);
    CollectorStatement(collector, seen);
    HeadApplied(machine, collector, DetailStmts(m), db);
    match m {
      case CatalogSnapshot(e, sensors) => SensorsHaveEffect(e, sensors, head);
      case SampleBatch(e, ms, samples) => SamplesHaveEffect(e.source, ms, samples, head);
      case _ =>
    }
  }

  lemma HeadApplied(a: Stmt, b: Stmt, details: seq<Stmt>, db: Db)
    ensures ApplyAll([a, b] + details, db) == ApplyAll(details, Apply(b, Apply(a, db)))
  {
    ApplyConcat([a, b], details, db);
    ApplyOne([a], b, db);
    ApplyOne([], a, db);
    assert [a] + [b] == [a, b] && [] + [a] == [a];
  }

  // ---- The connection and its transactions ----

  /** `fate(i)` is the outcome of the i-th engine call. */
  class Connection {
    const fate: nat -> Fate
    var calls: nat
    var state: Conn

    constructor (db: Db, fate: nat -> Fate)
      ensures this.fate == fate && calls == 0 && state == Conn(db, db, false)
    {
      this.fate := fate;
      calls, state := 0, Conn(db, db, false);
    }

    method Begin() returns (ok: bool)
      modifies this
      ensures calls == old(calls) + 1 && (state, ok) == old(state).Begin(fate(old(calls)))
    {
      var result := state.Begin(fate(calls));
      state, ok, calls := result.0, result.1, calls + 1;
    }

    method Execute(s: Stmt) returns (ok: bool)
      modifies this
      ensures calls == old(calls) + 1 && (state, ok) == old(state).Execute(s, fate(old(calls)))
      ensures ok == fate(old(calls)).Succeeds?
    {
      var result := state.Execute(s, fate(calls));
      state, ok, calls := result.0, result.1, calls + 1;
    }

    method Commit() returns (ok: bool)
      modifies this
      ensures calls == old(calls) + 1 && (state, ok) == old(state).Commit(fate(old(calls)))
    {
      var result := state.Commit(fate(calls));
      state, ok, calls := result.0, result.1, calls + 1;
    }

    /** The result code of ROLLBACK is ignored, so this is not counted as a call that can fail. */
    method Rollback()
      modifies this`state
      ensures state == old(state).Rollback()
    {
      state := state.Rollback();
    }

    ghost predicate NeverFails() {
      forall i :: fate(i).Succeeds?
    }

    predicate AllSucceed(from: nat, count: nat) {
      CallsSucceed(fate, from, count)
    }

    /** The latest of at most `count` calls is the first that failed. */
    ghost predicate FailedWithin(first: nat, count: nat)
      reads this
    {
      first < calls <= first + count && AllSucceed(first, calls - 1 - first) && !fate(calls - 1).Succeeds?
    }
  }

  class Transaction {
    const db: Connection
    var active: bool

    constructor (db: Connection)
      ensures this.db == db && !active
    {
      this.db := db;
      active := false;
    }

    method Begin() returns (ok: bool)
      modifies this, db
      ensures active == ok
      ensures db.calls == old(db.calls) + 1
      ensures (db.state, ok) == old(db.state).Begin(db.fate(old(db.calls)))
    {
      active := db.Begin();
      ok := active;
    }

    method Commit() returns (ok: bool)
      modifies this, db
      ensures !old(active) ==> !ok && !active && db.calls == old(db.calls) && db.state == old(db.state)
      ensures old(active) ==>
                && active == !ok
                && db.calls == old(db.calls) + 1
                && (db.state, ok) == old(db.state).Commit(db.fate(old(db.calls)))
    {
      if !active {
        return false;
      }
      ok := db.Commit();
      if ok {
        active := false;
      }
    }

    /** The destructor. */
    method End()
      modifies db`state
      ensures db.state == if active then old(db.state).Rollback() else old(db.state)
    {
      if active {
        db.Rollback();
      }
    }
  }

  lemma ExecuteInTransaction(committed: Db, done: seq<Stmt>, s: Stmt, fate: Fate)
    ensures var conn := Conn(committed, ApplyAll(done, committed), true);
            conn.Execute(s, fate) ==
              if fate.Succeeds? then (Conn(committed, ApplyAll(done + [s], committed), true), true)
              else (conn.AfterFailure(fate), false)
  {
    ApplyOne(done, s, committed);
  }

  class SqliteStore {
    const db: Connection

    constructor (db: Connection)
      ensures this.db == db
    {
      this.db := db;
    }

    /** Inside the transaction of a message, after the statements `done`. */
    ghost predicate Executed(start: Conn, first: nat, done: seq<Stmt>)
      reads db
    {
      && start.Idle()
      && db.state == Conn(start.committed, ApplyAll(done, start.committed), true)
      && db.calls == first + 1 + |done|
      && db.AllSucceed(first, 1 + |done|)
    }

    /** How every message writer ends: all of the message is committed when no engine call failed; when
        one did it was the last call, and the database is exactly as before. */
    ghost predicate Ended(start: Conn, first: nat, statements: seq<Stmt>, ok: bool)
      reads db
    {
      && db.state.Idle()
      && (ok <==> db.AllSucceed(first, |statements| + 2))
      && (if ok then db.calls == first + |statements| + 2 else db.FailedWithin(first, |statements| + 2))
      && db.state.committed == if ok then ApplyAll(statements, start.committed) else start.committed
    }

    method ExecuteNext(tx: Transaction, s: Stmt, ghost start: Conn, ghost first: nat, ghost done: seq<Stmt>)
      returns (ok: bool)
      requires tx.db == db && tx.active && Executed(start, first, done)
      modifies db
      ensures ok ==> Executed(start, first, done + [s])
      ensures !ok ==> db.state.Idle() && db.state.committed == start.committed
      ensures !ok ==> db.FailedWithin(first, 2 + |done|)
    {
      ExecuteInTransaction(start.committed, done, s, db.fate(db.calls));
      ok := db.Execute(s);
      if !ok {
        tx.End();
      }
    }

    method BeginMessage(m: BridgeMessage) returns (ok: bool, tx: Transaction)
      requires db.state.Idle()
      modifies db
      ensures tx.db == db && fresh(tx) && (ok ==> tx.active)
      ensures ok ==> Executed(old(db.state), old(db.calls), [MachineStmt(m), CollectorStmt(m)])
      ensures !ok ==> db.state.Idle() && db.state.committed == old(db.state).committed
      ensures !ok ==> db.FailedWithin(old(db.calls), 3)
    {
      ghost var start, first := db.state, db.calls;
      tx := new Transaction(db);
      ok := tx.Begin();
      if !ok {
        return;
      }
      ok := ExecuteNext(tx, MachineStmt(m), start, first, []);
      if !ok {
        return;
      }
      ok := ExecuteNext(tx, CollectorStmt(m), start, first, [MachineStmt(m)]);
      assert [MachineStmt(m)] + [CollectorStmt(m)] == [MachineStmt(m), CollectorStmt(m)];
    }

    method CommitStatements(tx: Transaction, ghost start: Conn, ghost first: nat, ghost done: seq<Stmt>)
      returns (ok: bool)
      requires tx.db == db && tx.active && Executed(start, first, done)
      modifies db, tx
      ensures Ended(start, first, done, ok)
    {
      ok := tx.Commit();
      tx.End();
    }

    method CommitMessage(tx: Transaction, ghost m: BridgeMessage, ghost start: Conn, ghost first: nat)
      returns (ok: bool)
      requires tx.db == db && tx.active && Executed(start, first, StatementsOf(m))
      modifies db, tx
      ensures Ended(start, first, StatementsOf(m), ok)
      ensures ok ==> Effect(m, start.committed, db.state.committed)
    {
      ok := CommitStatements(tx, start, first, StatementsOf(m));
      MessageHasEffect(m, start.committed);
    }

    method UpsertHello(m: BridgeMessage) returns (ok: bool)
      requires m.Hello? && db.state.Idle()
      modifies db
      ensures Ended(old(db.state), old(db.calls), StatementsOf(m), ok)
      ensures ok ==> Effect(m, old(db.state.committed), db.state.committed)
    {
      var tx;
      ok, tx := BeginMessage(m);
      if ok {
        assert StatementsOf(m) == [MachineStmt(m), CollectorStmt(m)];
        ok := CommitMessage(tx, m, old(db.state), old(db.calls));
      }
    }

    method UpsertHeartbeat(m: BridgeMessage) returns (ok: bool)
      requires m.Heartbeat? && db.state.Idle()
      modifies db
      ensures Ended(old(db.state), old(db.calls), StatementsOf(m), ok)
      ensures ok ==> Effect(m, old(db.state.committed), db.state.committed)
    {
      var tx;
      ok, tx := BeginMessage(m);
      if ok {
        assert StatementsOf(m) == [MachineStmt(m), CollectorStmt(m)];
        ok := CommitMessage(tx, m, old(db.state), old(db.calls));
      }
    }

    /** The i-th sensor of a snapshot, inside its transaction. */
    method UpsertCatalogSensor(tx: Transaction, e: Envelope, sensors: seq<CatalogSensor>, i: nat,
                               ghost start: Conn, ghost first: nat, ghost head: seq<Stmt>) returns (ok: bool)
      requires i < |sensors| && tx.db == db && tx.active
      requires Executed(start, first, head + SensorStmts(e, sensors[..i]))
      modifies db
      ensures ok ==> Executed(start, first, head + SensorStmts(e, sensors[..i + 1]))
      ensures !ok ==> db.state.Idle() && db.state.committed == start.committed
      ensures !ok ==> db.FailedWithin(first, |head| + |sensors| + 2)
    {
      NextSensor(head, e, sensors, i);
      ok := ExecuteNext(tx, UpsertSensor(e.machineId, e.source, e.sentAtMs, sensors[i]), start, first,
                        head + SensorStmts(e, sensors[..i]));
    }

    /** The i-th sample of a batch, inside its transaction. */
    method InsertSensorSample(tx: Transaction, source: string, ts: int, samples: seq<SensorSample>, i: nat,
                              ghost start: Conn, ghost first: nat, ghost head: seq<Stmt>) returns (ok: bool)
      requires i < |samples| && tx.db == db && tx.active
      requires Executed(start, first, head + SampleStmts(source, ts, samples[..i]))
      modifies db
      ensures ok ==> Executed(start, first, head + SampleStmts(source, ts, samples[..i + 1]))
      ensures !ok ==> db.state.Idle() && db.state.committed == start.committed
      ensures !ok ==> db.FailedWithin(first, |head| + |samples| + 2)
    {
      NextSample(head, source, ts, samples, i);
      ok := ExecuteNext(tx, InsertSample(source, ts, samples[i]), start, first,
                        head + SampleStmts(source, ts, samples[..i]));
    }

    method UpsertCatalogSnapshot(m: BridgeMessage) returns (ok: bool)
      requires m.CatalogSnapshot? && db.state.Idle()
      modifies db
      ensures Ended(old(db.state), old(db.calls), StatementsOf(m), ok)
      ensures ok ==> Effect(m, old(db.state.committed), db.state.committed)
    {
      var tx;
      ok, tx := BeginMessage(m);
      if !ok {
        return;
      }
      var e := m.envelope;
      ghost var head := [MachineStmt(m), CollectorStmt(m)];
      assert head + [] == head;
      for i := 0 to |m.sensors|
        invariant tx.active
        invariant Executed(old(db.state), old(db.calls), head + SensorStmts(e, m.sensors[..i]))
      {
        ok := UpsertCatalogSensor(tx, e, m.sensors, i, old(db.state), old(db.calls), head);
        if !ok {
          SensorStmtCount(e, m.sensors);
          return;
        }
      }
      assert m.sensors[..|m.sensors|] == m.sensors;
      ok := CommitMessage(tx, m, old(db.state), old(db.calls));
    }

    method InsertSampleBatch(m: BridgeMessage) returns (ok: bool)
      requires m.SampleBatch? && db.state.Idle()
      modifies db
      ensures Ended(old(db.state), old(db.calls), StatementsOf(m), ok)
      ensures ok ==> Effect(m, old(db.state.committed), db.state.committed)
    {
      var tx;
      ok, tx := BeginMessage(m);
      if !ok {
        return;
      }
      var source, ts := m.envelope.source, m.sampleTimeMs;
      ghost var head := [MachineStmt(m), CollectorStmt(m)];
      assert head + [] == head;
      for i := 0 to |m.samples|
        invariant tx.active
        invariant Executed(old(db.state), old(db.calls), head + SampleStmts(source, ts, m.samples[..i]))
      {
        ok := InsertSensorSample(tx, source, ts, m.samples, i, old(db.state), old(db.calls), head);
        if !ok {
          SampleStmtCount(source, ts, m.samples);
          return;
        }
      }
      assert m.samples[..|m.samples|] == m.samples;
      ok := CommitMessage(tx, m, old(db.state), old(db.calls));
    }
  }

  lemma NextSensor(head: seq<Stmt>, e: Envelope, sensors: seq<CatalogSensor>, i: nat)
    requires i < |sensors|
    ensures |SensorStmts(e, sensors)| == |sensors| && |SensorStmts(e, sensors[..i])| == i
    ensures head + SensorStmts(e, sensors[..i + 1])
         == head + SensorStmts(e, sensors[..i])
            + [UpsertSensor(e.machineId, e.source, e.sentAtMs, sensors[i])]
  {
    assert sensors[..i + 1][..i] == sensors[..i];
    SensorStmtCount(e, sensors);
    SensorStmtCount(e, sensors[..i]);
  }

  lemma {:induction false} SensorStmtCount(e: Envelope, sensors: seq<CatalogSensor>)
    ensures |SensorStmts(e, sensors)| == |sensors|
  {
    if sensors != [] {
      SensorStmtCount(e, sensors[..|sensors| - 1]);
    }
  }

  lemma NextSample(head: seq<Stmt>, source: string, ts: int, samples: seq<SensorSample>, i: nat)
    requires i < |samples|
    ensures |SampleStmts(source, ts, samples)| == |samples|
    ensures |SampleStmts(source, ts, samples[..i])| == i
    ensures head + SampleStmts(source, ts, samples[..i + 1])
         == head + SampleStmts(source, ts, samples[..i]) + [InsertSample(source, ts, samples[i])]
  {
    assert samples[..i + 1][..i] == samples[..i];
    SampleStmtCount(source, ts, samples);
    SampleStmtCount(source, ts, samples[..i]);
  }

  lemma {:induction false} SampleStmtCount(source: string, ts: int, samples: seq<SensorSample>)
    ensures |SampleStmts(source, ts, samples)| == |samples|
  {
    if samples != [] {
      SampleStmtCount(source, ts, samples[..|samples| - 1]);
    }
  }
}
