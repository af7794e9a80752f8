/**
 The GPU rows of the snapshot are determined by the history of inserts, over every run of the shared
 connection; and when an insert stays among them.
 */
module GpuHistory {
  import opened Database
  import opened Engine
  import opened History
  import opened Interleaving
  import opened Queries
  import opened Wrappers

  function GpuTime(machineId: string): TimeOf {
    (s: Stmt) => if s.InsertGpu? && s.machineId == machineId then Some(s.tsMs) else None
  }

  function RowWritten(s: Stmt, key: GpuKey): Option<GpuRow> {
    if s.InsertGpu? && GpuKey(s.machineId, s.gpuUid, s.tsMs) == key then Some(s.gpu) else None
  }

  /** The last row inserted under a key. */
  function LastRow(log: seq<Stmt>, key: GpuKey): Option<GpuRow> {
    if log == [] then None else Coalesce(RowWritten(log[|log| - 1], key), LastRow(log[..|log| - 1], key))
  }

  function StoredRow(db: Db, key: GpuKey): Option<GpuRow> {
    if key in db.gpus then Some(db.gpus[key]) else None
  }

  lemma ApplyStoresRow(s: Stmt, db: Db, key: GpuKey)
    ensures StoredRow(Apply(s, db), key) == Coalesce(RowWritten(s, key), StoredRow(db, key))
  {
  }

  lemma {:induction false} StoredRowIsLast(log: seq<Stmt>, key: GpuKey)
    ensures StoredRow(ApplyAll(log, EMPTY_DB), key) == LastRow(log, key)
  {
    if log != [] {
      var front := log[..|log| - 1];
      StoredRowIsLast(front, key);
      ApplyStoresRow(log[|log| - 1], ApplyAll(front, EMPTY_DB), key);
    }
  }

  lemma {:induction false} LastRowIff(log: seq<Stmt>, key: GpuKey)
    ensures LastRow(log, key).Some? <==> exists s :: s in log && RowWritten(s, key).Some?
  {
    if log != [] {
      var front, last := log[..|log| - 1], log[|log| - 1];
      LastRowIff(front, key);
      assert forall s :: s in log <==> s in front || s == last;
    }
  }

  predicate HasRowAt(db: Db, machineId: string, ts: int) {
    exists k :: k in db.gpus && k.machineId == machineId && k.tsMs == ts
  }

  predicate Wrote(log: seq<Stmt>, machineId: string, ts: int) {
    exists s :: s in log && GpuTime(machineId)(s) == Some(ts)
  }

  /** A machine has rows at the times of its inserts. */
  lemma RowsAreAtInsertTimes(log: seq<Stmt>, machineId: string, ts: int)
    ensures HasRowAt(ApplyAll(log, EMPTY_DB), machineId, ts) <==> Wrote(log, machineId, ts)
  {
    var db := ApplyAll(log, EMPTY_DB);
    if k :| k in db.gpus && k.machineId == machineId && k.tsMs == ts {
      StoredRowIsLast(log, k);
      LastRowIff(log, k);
      var s :| s in log && RowWritten(s, k).Some?;
      assert GpuTime(machineId)(s) == Some(ts);
    }
    if s :| s in log && GpuTime(machineId)(s) == Some(ts) {
      var k := GpuKey(s.machineId, s.gpuUid, s.tsMs);
      assert RowWritten(s, k).Some?;
      StoredRowIsLast(log, k);
      LastRowIff(log, k);
      assert k in db.gpus;
    }
  }

  /** The time of the rows shown is the latest time inserted. */
  lemma LatestGpuTimeIsHistory(log: seq<Stmt>, machineId: string, ts: int)
    ensures IsLatestGpuTime(ApplyAll(log, EMPTY_DB), machineId, ts) <==> Latest(log, GpuTime(machineId)) == Some(ts)
  {
    var db, time := ApplyAll(log, EMPTY_DB), GpuTime(machineId);
    LatestIsMaximum(log, time);
    forall t: int ensures HasRowAt(db, machineId, t) <==> Wrote(log, machineId, t) {
      RowsAreAtInsertTimes(log, machineId, t);
    }
    LatestTimeIffRows(db, machineId, ts);
    LatestIffWrote(log, machineId, ts);
  }

  lemma LatestTimeIffRows(db: Db, machineId: string, ts: int)
    ensures IsLatestGpuTime(db, machineId, ts) <==>
              HasRowAt(db, machineId, ts) && forall t: int :: HasRowAt(db, machineId, t) ==> t <= ts
  {
    if HasRowAt(db, machineId, ts) && forall t: int :: HasRowAt(db, machineId, t) ==> t <= ts {
      forall k | k in db.gpus && k.machineId == machineId ensures k.tsMs <= ts {
        assert HasRowAt(db, machineId, k.tsMs);
      }
    }
  }

  lemma LatestIffWrote(log: seq<Stmt>, machineId: string, ts: int)
    ensures Latest(log, GpuTime(machineId)) == Some(ts) <==>
              Wrote(log, machineId, ts) && forall t: int :: Wrote(log, machineId, t) ==> t <= ts
  {
    var latest := Latest(log, GpuTime(machineId));
    LatestIsMaximum(log, GpuTime(machineId));
    if latest.Some? {
      assert Wrote(log, machineId, latest.value);
    }
  }

  /** The rows shown are, for each GPU, the last one inserted at the machine's latest time. */
  lemma SectionIsHistory(log: seq<Stmt>, machineId: string, entry: GpuEntry)
    ensures IsLatestGpu(ApplyAll(log, EMPTY_DB), machineId, entry) <==>
              var latest := Latest(log, GpuTime(machineId));
              latest.Some? && LastRow(log, GpuKey(machineId, entry.gpuUid, latest.value)) == Some(entry.gpu)
  {
    var db, latest := ApplyAll(log, EMPTY_DB), Latest(log, GpuTime(machineId));
    forall ts: int ensures IsLatestGpuTime(db, machineId, ts) <==> latest == Some(ts) {
      LatestGpuTimeIsHistory(log, machineId, ts);
    }
    if latest.Some? {
      StoredRowIsLast(log, GpuKey(machineId, entry.gpuUid, latest.value));
    }
  }

  /** No row is shown exactly when none was inserted. */
  lemma SectionIsEmptyIff(log: seq<Stmt>, machineId: string, section: seq<GpuEntry>)
    requires IsGpuSection(ApplyAll(log, EMPTY_DB), machineId, section)
    ensures section == [] <==> Latest(log, GpuTime(machineId)) == None
  {
    var db, latest := ApplyAll(log, EMPTY_DB), Latest(log, GpuTime(machineId));
    if latest.Some? {
      LatestGpuTimeIsHistory(log, machineId, latest.value);
      var k :| k in db.gpus && k.machineId == machineId && k.tsMs == latest.value;
      var entry := GpuEntry(k.gpuUid, db.gpus[k]);
      assert k == GpuKey(machineId, entry.gpuUid, latest.value);
      assert IsLatestGpu(db, machineId, entry);
      assert entry in section;
    } else if section != [] {
      assert section[0] in section;
      SectionIsHistory(log, machineId, section[0]);
    }
  }

  // ---- Over runs ----

  function WorkingStmts(events: seq<Event>): seq<Stmt> {
    Stmts(Run(Start(EMPTY_DB), events).disk.workingLog)
  }

  /** What the connection reads after a run: the endpoint shares it. */
  function WorkingDb(events: seq<Event>): Db {
    Run(Start(EMPTY_DB), events).disk.conn.working
  }

  predicate InsertedSince(log: seq<Stmt>, machineId: string, from: int) {
    exists s :: s in log && GpuTime(machineId)(s).Some? && GpuTime(machineId)(s).value >= from
  }

  ghost predicate ShowsSince(db: Db, machineId: string, from: int) {
    exists ts :: IsLatestGpuTime(db, machineId, ts) && ts >= from
  }

  /** After every run, the rows shown are from `from` or later exactly when the working log holds an insert
      of this machine with such a time. */
  lemma RowsShownAreRecentIff(events: seq<Event>, machineId: string, from: int)
    ensures ShowsSince(WorkingDb(events), machineId, from) <==> InsertedSince(WorkingStmts(events), machineId, from)
  {
    var log := WorkingStmts(events);
    RunReplays(EMPTY_DB, events);
    RecentIff(log, machineId, from);
  }

  lemma RecentIff(log: seq<Stmt>, machineId: string, from: int)
    ensures ShowsSince(ApplyAll(log, EMPTY_DB), machineId, from) <==> InsertedSince(log, machineId, from)
  {
    var latest := Latest(log, GpuTime(machineId));
    LatestIsMaximum(log, GpuTime(machineId));
    forall ts: int
      ensures IsLatestGpuTime(ApplyAll(log, EMPTY_DB), machineId, ts) <==> latest == Some(ts)
    {
      LatestGpuTimeIsHistory(log, machineId, ts);
    }
    if latest.Some? {
      assert IsLatestGpuTime(ApplyAll(log, EMPTY_DB), machineId, latest.value);
    }
  }

  /** All of the machine's inserts so far have earlier times. */
  predicate IsNew(s: Stmt, log: seq<Stmt>)
    requires s.InsertGpu?
  {
    forall t :: t in log && GpuTime(s.machineId)(t).Some? ==> GpuTime(s.machineId)(t).value < s.tsMs
  }

  lemma {:induction false} StmtsMembers(log: seq<Entry>, entry: Entry)
    requires entry in log
    ensures entry.stmt in Stmts(log)
  {
    if entry != log[|log| - 1] {
      StmtsMembers(log[..|log| - 1], entry);
    }
  }

  lemma KeptInsertIsStored(events: seq<Event>, s: Stmt, more: seq<Event>)
    requires s.InsertGpu? && !Run(Start(EMPTY_DB), events).disk.conn.inTransaction
    ensures HasRowAt(WorkingDb(events + [CollectorWrite(s, Succeeds)] + more), s.machineId, s.tsMs)
  {
    var all := events + [CollectorWrite(s, Succeeds)] + more;
    var kept, later := Run(Start(EMPTY_DB), events).disk.workingLog, Run(Start(EMPTY_DB), all).disk.workingLog;
    ClosedWriteIsKept(EMPTY_DB, events, s, more);
    assert later[|kept|] == Entry(s, false);
    StmtsMembers(later, Entry(s, false));
    assert GpuTime(s.machineId)(s) == Some(s.tsMs);
    RunReplays(EMPTY_DB, all);
    RowsAreAtInsertTimes(WorkingStmts(all), s.machineId, s.tsMs);
  }

  /** The run after which an insert made inside a transaction is gone. */
  function Losing(events: seq<Event>, s: Stmt): seq<Event> {
    [GiveUp(Next(Run(Start(EMPTY_DB), events), CollectorWrite(s, Succeeds))), PipeRollback]
  }

  lemma LostInsertIsNotStored(events: seq<Event>, s: Stmt)
    requires s.InsertGpu? && Run(Start(EMPTY_DB), events).disk.conn.inTransaction && IsNew(s, WorkingStmts(events))
    ensures !HasRowAt(WorkingDb(events + [CollectorWrite(s, Succeeds)] + Losing(events, s)), s.machineId, s.tsMs)
  {
    var all := events + [CollectorWrite(s, Succeeds)] + Losing(events, s);
    var disk := Run(Start(EMPTY_DB), events).disk;
    OpenWriteCanBeLost(EMPTY_DB, events, s);
    RunReplays(EMPTY_DB, events);
    RunReplays(EMPTY_DB, all);
    PrefixOfLogs(disk.committedLog, disk.workingLog);
    assert forall t :: t in Stmts(disk.committedLog) ==> t in Stmts(disk.workingLog);
    RowsAreAtInsertTimes(Stmts(disk.committedLog), s.machineId, s.tsMs);
  }

  /** Whatever follows, a row of a successful insert at a new time stays in the database that is read,
      exactly when no transaction was open at the time of the insert. */
  lemma InsertIsKeptIff(events: seq<Event>, s: Stmt)
    requires s.InsertGpu? && IsNew(s, WorkingStmts(events))
    ensures !Run(Start(EMPTY_DB), events).disk.conn.inTransaction <==>
              forall more: seq<Event> ::
                HasRowAt(WorkingDb(events + [CollectorWrite(s, Succeeds)] + more), s.machineId, s.tsMs)
  {
    if Run(Start(EMPTY_DB), events).disk.conn.inTransaction {
      LostInsertIsNotStored(events, s);
    } else {
      forall more: seq<Event>
        ensures HasRowAt(WorkingDb(events + [CollectorWrite(s, Succeeds)] + more), s.machineId, s.tsMs)
      {
        KeptInsertIsStored(events, s, more);
      }
    }
  }
}
