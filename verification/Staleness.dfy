/** What the readiness endpoint reports as stale, against the history of collector writes. */
module Staleness {
  import opened Database
  import GpuCollector
  import opened GpuHistory
  import opened History
  import opened Interleaving
  import opened Messages
  import opened Queries
  import opened Readiness
  import Store
  import opened Wrappers

  /** The rows `QueryCollectorHealth` may return: those of one machine, each once, in any order. */
  ghost predicate IsHealthListing(db: Db, machineId: string, rows: seq<HealthRow>) {
    && (forall i, j :: 0 <= i < j < |rows| ==> rows[i].collectorId != rows[j].collectorId)
    && (forall r :: r in rows <==>
          r.collectorId in db.collectors && db.collectors[r.collectorId] == r.row
          && r.row.machineId == machineId)
  }

  /** The sample time stored under the one key that can belong to this machine and source. */
  function StoredTime(db: Db, machineId: string, source: string): Option<int> {
    var key := CollectorId(machineId, source);
    if RowOwner(db, key) == Some((machineId, source)) then LastSample(db, key) else None
  }

  lemma {:induction false} FoundTimeIsOfSource(rows: seq<HealthRow>, source: string)
    ensures var time := FirstSample(rows, source);
            if time.Some? then exists r :: r in rows && r.row.source == source && r.row.lastSampleMs == time
            else forall r :: r in rows && r.row.source == source ==> r.row.lastSampleMs.None?
  {
    if rows != [] && !(rows[0].row.source == source && rows[0].row.lastSampleMs.Some?) {
      FoundTimeIsOfSource(rows[1..], source);
      assert forall r :: r in rows <==> r == rows[0] || r in rows[1..];
    }
  }

  /** A machine has at most one row per source, so the loop that stops at the first match finds the same
      time in every order of the rows. */
  lemma FirstMatchIsTheOnlyMatch(db: Db, machineId: string, source: string, rows: seq<HealthRow>)
    requires Valid(db) && IsHealthListing(db, machineId, rows)
    ensures forall r :: r in rows && r.row.source == source ==> r.collectorId == CollectorId(machineId, source)
    ensures FirstSample(rows, source) == StoredTime(db, machineId, source)
  {
    var key := CollectorId(machineId, source);
    FoundTimeIsOfSource(rows, source);
    if RowOwner(db, key) == Some((machineId, source)) {
      assert HealthRow(key, db.collectors[key]) in rows;
    }
  }

  /** The promise: stale unless this machine wrote a sample time for this source within the threshold. */
  predicate NoRecentWrite(log: seq<Stmt>, machineId: string, source: string, now: int) {
    forall s :: s in log && OwnSampleTime(machineId, source)(s).Some? ==>
      OwnSampleTime(machineId, source)(s).value < now - STALE_THRESHOLD_MS
  }

  /** What the store reports after these writes. */
  predicate Reported(log: seq<Stmt>, machineId: string, source: string, now: int) {
    TooOld(StoredTime(ApplyAll(log, EMPTY_DB), machineId, source), now)
  }

  lemma {:induction false} OwnerOfUnsharedKey(log: seq<Stmt>, machineId: string, source: string)
    requires !Colon(machineId) && !Colon(source)
    ensures var key := CollectorId(machineId, source);
            && Latest(log, SampleTime(key)) == Latest(log, OwnSampleTime(machineId, source))
            && (Owner(log, key).Some? ==> Owner(log, key) == Some((machineId, source)))
            && (Owner(log, key).None? ==> Latest(log, SampleTime(key)).None?)
  {
    if log != [] {
      var s := log[|log| - 1];
      OwnerOfUnsharedKey(log[..|log| - 1], machineId, source);
      if s.UpsertCollector? && CollectorId(s.machineId, s.source) == CollectorId(machineId, source) {
        UnsharedKey(s.machineId, s.source, machineId, source);
      }
    }
  }

  /** Without a colon in the machine's id the report is the history. */
  lemma ReportIsHistory(log: seq<Stmt>, machineId: string, source: string, now: int)
    requires !Colon(machineId) && !Colon(source)
    ensures Reported(log, machineId, source, now) <==> NoRecentWrite(log, machineId, source, now)
  {
    var key, own := CollectorId(machineId, source), OwnSampleTime(machineId, source);
    TimesAreLatest(log, machineId, key);
    RowOwnerIsLastWriter(log, key);
    OwnerOfUnsharedKey(log, machineId, source);
    LatestIsMaximum(log, own);
    var latest := Latest(log, own);
    if latest.Some? {
      var s :| s in log && own(s) == latest;
    }
  }

  /** A sample time of 0 for this machine and source, as the GPU collector or a bridge would write it. */
  function OwnWrite(machineId: string, source: string): Stmt {
    if source == "direct_gpu" then GpuCollector.HealthStmt(machineId, 0)
    else Store.CollectorStmt(SampleBatch(Envelope(1, source, machineId, 0), 0, []))
  }

  /** An empty catalog from another machine and source. */
  function OtherWrite(machineId: string, source: string): Stmt {
    Store.CollectorStmt(CatalogSnapshot(Envelope(1, source, machineId, 0), []))
  }

  /** Machine `a:b` writes a fresh time for `direct_gpu`; then machine `a` writes for the source
      `b:direct_gpu`, takes over the row, and `a:b` is reported stale. */
  lemma ColonHidesARecentWrite(outer: string, inner: string, source: string)
    ensures var machineId := outer + ":" + inner;
            var log := [OwnWrite(machineId, source), OtherWrite(outer, inner + ":" + source)];
            Reported(log, machineId, source, 0) && !NoRecentWrite(log, machineId, source, 0)
  {
    var machineId := outer + ":" + inner;
    var own, other := OwnWrite(machineId, source), OtherWrite(outer, inner + ":" + source);
    var log := [own, other];
    var key := CollectorId(machineId, source);
    assert CollectorId(outer, inner + ":" + source) == key;
    assert |outer| < |machineId|;
    RowOwnerIsLastWriter(log, key);
    assert Owner(log, key) == Some((outer, inner + ":" + source));
    assert log[0] == own && OwnSampleTime(machineId, source)(own) == Some(0);
  }

  /** So staleness follows from the history, for every history and time, exactly when the machine's id
      has no colon. */
  lemma ReportIsHistoryIff(machineId: string, source: string)
    requires !Colon(source)
    ensures !Colon(machineId) <==>
              forall log: seq<Stmt>, now: int ::
                Reported(log, machineId, source, now) <==> NoRecentWrite(log, machineId, source, now)
  {
    if Colon(machineId) {
      var i :| 0 <= i < |machineId| && machineId[i] == ':';
      var outer, inner := machineId[..i], machineId[i + 1..];
      assert machineId == outer + ":" + inner;
      ColonHidesARecentWrite(outer, inner, source);
      var log := [OwnWrite(machineId, source), OtherWrite(outer, inner + ":" + source)];
      assert Reported(log, machineId, source, 0) && !NoRecentWrite(log, machineId, source, 0);
    } else {
      forall log: seq<Stmt>, now: int
        ensures Reported(log, machineId, source, now) <==> NoRecentWrite(log, machineId, source, now)
      {
        ReportIsHistory(log, machineId, source, now);
      }
    }
  }

  /** The source whose sample time the verdict depends on. */
  function SourceOf(gpus: seq<GpuSnapshotRow>): string {
    if gpus == [] then "librehw_bridge" else "direct_gpu"
  }

  lemma SourcesHaveNoColon(gpus: seq<GpuSnapshotRow>)
    ensures !Colon(SourceOf(gpus))
  {
  }

  /** End to end: after any concurrent run, in any listing order, the endpoint's verdict on a machine is
      `stale` exactly when this machine has no recent write of `direct_gpu`, or of `librehw_bridge` when it
      has no GPU rows. The endpoint reads through the same connection, so it sees the working database. */
  lemma StaleVerdictIsHistory(events: seq<Event>, machineId: string, rows: seq<HealthRow>,
                              gpus: seq<GpuSnapshotRow>, now: int, requiredVram: int)
    requires !Colon(machineId)
    requires IsHealthListing(Run(Start(EMPTY_DB), events).disk.conn.working, machineId, rows)
    ensures VerdictOf(gpus, rows, now, requiredVram).Stale? <==>
              NoRecentWrite(Stmts(Run(Start(EMPTY_DB), events).disk.workingLog), machineId, SourceOf(gpus), now)
  {
    var sys, source := Run(Start(EMPTY_DB), events), SourceOf(gpus);
    EveryRunIsSafe(EMPTY_DB, events);
    RunReplays(EMPTY_DB, events);
    FirstMatchIsTheOnlyMatch(sys.disk.conn.working, machineId, source, rows);
    SourcesHaveNoColon(gpus);
    ReportIsHistory(Stmts(sys.disk.workingLog), machineId, source, now);
  }

  /** The source that decides, by the history: whether the machine ever had a GPU row inserted. */
  function DecidingSource(log: seq<Stmt>, machineId: string): string {
    if Latest(log, GpuTime(machineId)).None? then "librehw_bridge" else "direct_gpu"
  }

  /** The same with the GPU rows of the run: both queries of the endpoint are determined by the history. */
  lemma StaleEndpointIsHistory(events: seq<Event>, machineId: string, rows: seq<HealthRow>, section: seq<GpuEntry>,
                               now: int, requiredVram: int)
    requires !Colon(machineId)
    requires IsHealthListing(WorkingDb(events), machineId, rows) && IsGpuSection(WorkingDb(events), machineId, section)
    ensures VerdictOf(SnapshotRows(section), rows, now, requiredVram).Stale? <==>
              var log := WorkingStmts(events);
              NoRecentWrite(log, machineId, DecidingSource(log, machineId), now)
  {
    RunReplays(EMPTY_DB, events);
    SectionIsEmptyIff(WorkingStmts(events), machineId, section);
    StaleVerdictIsHistory(events, machineId, rows, SnapshotRows(section), now, requiredVram);
  }
}
