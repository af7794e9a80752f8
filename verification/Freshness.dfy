/**
 How fresh the GPU rows behind a verdict are: the health row of the GPU collector is renewed whether or
 not a pass stored any of its rows.
 */
module Freshness {
  import opened Database
  import opened Decimals
  import opened Effects
  import opened Engine
  import opened GpuCollector
  import opened GpuHistory
  import opened GpuProbe
  import opened History
  import opened Interleaving
  import opened Messages
  import opened Queries
  import opened Readiness
  import opened Staleness
  import opened Wrappers

  /** What a pass executes. */
  function PassStmts(machineId: string, nowMs: int, rows: seq<GpuRow>): seq<Stmt> {
    InsertsOf(machineId, nowMs, rows) + [HealthStmt(machineId, nowMs)]
  }

  predicate SomeStored(rows: seq<GpuRow>, fate: nat -> Fate, first: nat) {
    exists i :: first <= i < first + |rows| && fate(i).Succeeds?
  }

  lemma {:induction false} KeptIffStored(rows: seq<GpuRow>, fate: nat -> Fate, first: nat)
    ensures Kept(rows, Outcomes(fate, first, |rows|)) != [] <==> SomeStored(rows, fate, first)
  {
    if rows != [] {
      var n := |rows| - 1;
      KeptIffStored(rows[..n], fate, first);
      assert Outcomes(fate, first, |rows|)[..n] == Outcomes(fate, first, n);
      assert SomeStored(rows, fate, first) <==> SomeStored(rows[..n], fate, first) || fate(first + n).Succeeds?;
    }
  }

  lemma {:induction false} NothingInserted(machineId: string, nowMs: int, rows: seq<GpuRow>, ok: seq<bool>)
    requires |ok| == |rows| && Kept(rows, ok) == []
    ensures Inserted(machineId, nowMs, rows, ok) == []
  {
    if rows != [] {
      NothingInserted(machineId, nowMs, rows[..|rows| - 1], ok[..|rows| - 1]);
    }
  }

  lemma HealthLeavesGpus(s: Stmt, db: Db)
    requires s.UpsertCollector?
    ensures Apply(s, db).gpus == db.gpus
  {
  }

  /** After a pass: the inserts that succeeded, and the health row if its write did. */
  lemma PassWorks(conn: Conn, machineId: string, nowMs: int, rows: seq<GpuRow>, health: Stmt, fate: nat -> Fate,
                  first: nat)
    requires Undisturbed(conn, fate, first, |rows| + 1)
    ensures ExecuteEach(conn, InsertsOf(machineId, nowMs, rows) + [health], fate, first).working ==
            var inserted := ApplyAll(Inserted(machineId, nowMs, rows, Outcomes(fate, first, |rows|)), conn.working);
            if fate(first + |rows|).Succeeds? then Apply(health, inserted) else inserted
  {
    InsertsWork(conn, machineId, nowMs, rows, fate, first);
    HealthWorks(conn, InsertsOf(machineId, nowMs, rows), health, fate, first, rows,
                ApplyAll(Inserted(machineId, nowMs, rows, Outcomes(fate, first, |rows|)), conn.working));
  }

  lemma HealthWorks(conn: Conn, inserts: seq<Stmt>, health: Stmt, fate: nat -> Fate, first: nat, rows: seq<GpuRow>,
                    inserted: Db)
    requires |inserts| == |rows| && Undisturbed(conn, fate, first, |rows| + 1)
    requires ExecuteEach(conn, inserts, fate, first).inTransaction == conn.inTransaction
    requires ExecuteEach(conn, inserts, fate, first).working == inserted
    ensures ExecuteEach(conn, inserts + [health], fate, first).working
         == if fate(first + |rows|).Succeeds? then Apply(health, inserted) else inserted
  {
    ExecuteLastWorks(conn, inserts, health, fate, first);
  }

  lemma InsertsWork(conn: Conn, machineId: string, nowMs: int, rows: seq<GpuRow>, fate: nat -> Fate, first: nat)
    requires Undisturbed(conn, fate, first, |rows|)
    ensures var mid := ExecuteEach(conn, InsertsOf(machineId, nowMs, rows), fate, first);
            && |InsertsOf(machineId, nowMs, rows)| == |rows| && mid.inTransaction == conn.inTransaction
            && mid.working == ApplyAll(Inserted(machineId, nowMs, rows, Outcomes(fate, first, |rows|)), conn.working)
  {
    InsertedSucceeded(machineId, nowMs, rows, Outcomes(fate, first, |rows|));
    ExecutedApply(conn, InsertsOf(machineId, nowMs, rows), fate, first);
  }

  lemma PassGpus(conn: Conn, machineId: string, nowMs: int, rows: seq<GpuRow>, fate: nat -> Fate, first: nat)
    requires Undisturbed(conn, fate, first, |rows| + 1)
    ensures ExecuteEach(conn, PassStmts(machineId, nowMs, rows), fate, first).working.gpus
         == InsertedTable(conn.working.gpus, machineId, nowMs, rows, Outcomes(fate, first, |rows|))
  {
    var ok := Outcomes(fate, first, |rows|);
    PassWorks(conn, machineId, nowMs, rows, HealthStmt(machineId, nowMs), fate, first);
    InsertsGiveTable(conn.working, machineId, nowMs, rows, ok);
    HealthLeavesGpus(HealthStmt(machineId, nowMs), ApplyAll(Inserted(machineId, nowMs, rows, ok), conn.working));
  }

  lemma LatestTimeIff(before: GpuTable, after: Db, machineId: string, nowMs: int, kept: seq<GpuEntry>)
    requires GpusAfter(before, after.gpus, machineId, nowMs, kept)
    requires forall k :: k in before && k.machineId == machineId ==> k.tsMs < nowMs
    ensures IsLatestGpuTime(after, machineId, nowMs) <==> kept != []
  {
    if kept != [] {
      assert kept[0] in kept;
      assert GpuKey(machineId, kept[0].gpuUid, nowMs) in after.gpus;
    }
  }

  /** A pass that no call of the pipe interrupts: the snapshot shows its rows exactly when at least one of
      its inserts succeeded: then those rows, in index order, and otherwise the rows from before the pass,
      however old. `GpuHistory` speaks of all interleavings. */
  lemma PassIsShownIff(conn: Conn, machineId: string, nowMs: int, rows: seq<GpuRow>, fate: nat -> Fate, first: nat,
                       section: seq<GpuEntry>)
    requires Undisturbed(conn, fate, first, |rows| + 1) && Enumerated(rows)
    requires forall k :: k in conn.working.gpus && k.machineId == machineId ==> k.tsMs < nowMs
    ensures var after := ExecuteEach(conn, PassStmts(machineId, nowMs, rows), fate, first).working;
            && (IsLatestGpuTime(after, machineId, nowMs) <==> SomeStored(rows, fate, first))
            && (IsGpuSection(after, machineId, section) <==>
                  if SomeStored(rows, fate, first) then section == Kept(rows, Outcomes(fate, first, |rows|))
                  else IsGpuSection(conn.working, machineId, section))
  {
    var ok := Outcomes(fate, first, |rows|);
    var after := ExecuteEach(conn, PassStmts(machineId, nowMs, rows), fate, first).working;
    PassGpus(conn, machineId, nowMs, rows, fate, first);
    TableHoldsKept(conn.working.gpus, machineId, nowMs, rows, ok);
    KeptIffStored(rows, fate, first);
    LatestTimeIff(conn.working.gpus, after, machineId, nowMs, Kept(rows, ok));
    if SomeStored(rows, fate, first) {
      KeptIsOrdered(rows, ok);
      SectionIsKept(conn.working, after, machineId, nowMs, Kept(rows, ok), |rows|, section);
    } else {
      SameGpus(conn.working, machineId, nowMs, rows, ok);
      SameSection(conn.working, after, machineId, section);
    }
  }

  /** When no call of a pass fails, the snapshot after it has one row per GPU, in index order, holding what
      was sampled, rate-limited GPUs included. */
  lemma WholePassIsShown(conn: Conn, machineId: string, nowMs: int, samples: seq<Snapshot>, names: seq<string>,
                         fate: nat -> Fate, first: nat, section: seq<GpuEntry>)
    requires samples != [] && CallsSucceed(fate, first, |samples| + 1)
    requires forall i :: 0 <= i < |samples| ==> samples[i].gpuIndex == i
    requires forall k :: k in conn.working.gpus && k.machineId == machineId ==> k.tsMs < nowMs
    ensures var after := ExecuteEach(conn, PassStmts(machineId, nowMs, RowsOf(samples, names)), fate, first).working;
            IsGpuSection(after, machineId, section) <==>
              && |section| == |samples|
              && forall i :: 0 <= i < |samples| ==> section[i] == GpuEntry(GpuUid(i), RowOf(samples[i], names))
  {
    var rows := RowsOf(samples, names);
    RowsAreOfSamples(samples, names);
    PolledRowsAreEnumerated(samples, names);
    assert fate(first).Succeeds?;
    PassIsShownIff(conn, machineId, nowMs, rows, fate, first, section);
    AllKept(rows, Outcomes(fate, first, |rows|));
    SameEntries(section, Kept(rows, Outcomes(fate, first, |rows|)), rows);
  }

  lemma SameEntries(section: seq<GpuEntry>, kept: seq<GpuEntry>, rows: seq<GpuRow>)
    requires |kept| == |rows| && forall i :: 0 <= i < |rows| ==> kept[i] == GpuEntry(GpuUid(i), rows[i])
    ensures section == kept <==>
              |section| == |rows| && forall i :: 0 <= i < |rows| ==> section[i] == GpuEntry(GpuUid(i), rows[i])
  {
  }

  /** An entry for each GPU whose insert succeeded, in index order, under its uid and with what its row shows
      of the driver's answers. */
  ghost predicate ShowsPass(section: seq<GpuEntry>, start: seq<LastPoll>, clock: nat -> (int, int),
                            readings: nat -> Reading, names: seq<string>, fate: nat -> Fate, first: nat) {
    && (forall i, j :: 0 <= i < j < |section| ==> section[i].gpu.gpuIndex < section[j].gpu.gpuIndex)
    && (forall i :: 0 <= i < |start| && InsertSucceeds(fate, first, i) ==> ListsGpu(section, i))
    && (forall e :: e in section ==> IsPassEntry(e, start, clock, readings, names, fate, first))
  }

  predicate InsertSucceeds(fate: nat -> Fate, first: nat, i: nat) {
    fate(first + i).Succeeds?
  }

  predicate ListsGpu(section: seq<GpuEntry>, i: int) {
    exists e :: e in section && e.gpu.gpuIndex == i
  }

  predicate IsPassEntry(e: GpuEntry, start: seq<LastPoll>, clock: nat -> (int, int), readings: nat -> Reading,
                        names: seq<string>, fate: nat -> Fate, first: nat) {
    var i := e.gpu.gpuIndex;
    && 0 <= i < |start| && InsertSucceeds(fate, first, i) && e.gpuUid == "nvapi:" + IntString(i)
    && ShowsReading(e.gpu, i, names, FastDue(start, clock, i), SlowDue(start, clock, i), readings(i))
  }

  lemma KeptEntry(rows: seq<GpuRow>, start: seq<LastPoll>, clock: nat -> (int, int), readings: nat -> Reading,
                  names: seq<string>, fate: nat -> Fate, first: nat, e: GpuEntry)
    requires Enumerated(rows) && AllShowReadings(rows, start, clock, readings, names)
    requires e in Kept(rows, Outcomes(fate, first, |rows|))
    ensures IsPassEntry(e, start, clock, readings, names, fate, first)
  {
    var ok := Outcomes(fate, first, |rows|);
    KeptIsOrdered(rows, ok);
    KeptMembers(rows, ok);
    var i :| 0 <= i < |Kept(rows, ok)| && Kept(rows, ok)[i] == e;
    assert ok[e.gpu.gpuIndex];
  }

  lemma KeptShowsPass(rows: seq<GpuRow>, start: seq<LastPoll>, clock: nat -> (int, int), readings: nat -> Reading,
                      names: seq<string>, fate: nat -> Fate, first: nat)
    requires Enumerated(rows) && AllShowReadings(rows, start, clock, readings, names)
    ensures ShowsPass(Kept(rows, Outcomes(fate, first, |rows|)), start, clock, readings, names, fate, first)
  {
    var ok := Outcomes(fate, first, |rows|);
    KeptIsOrdered(rows, ok);
    KeptMembers(rows, ok);
    forall i | 0 <= i < |start| && InsertSucceeds(fate, first, i)
      ensures ListsGpu(Kept(rows, ok), i)
    {
      assert ok[i] && GpuEntry(GpuUid(i), rows[i]).gpu.gpuIndex == i;
    }
    forall e | e in Kept(rows, ok)
      ensures IsPassEntry(e, start, clock, readings, names, fate, first)
    {
      KeptEntry(rows, start, clock, readings, names, fate, first, e);
    }
  }

  lemma {:induction false} InsertsKeepTheRest(machineId: string, nowMs: int, rows: seq<GpuRow>, ok: seq<bool>, db: Db)
    requires |ok| == |rows|
    ensures var after := ApplyAll(Inserted(machineId, nowMs, rows, ok), db);
            after == db.(gpus := after.gpus)
  {
    if rows != [] {
      var n := |rows| - 1;
      var front := Inserted(machineId, nowMs, rows[..n], ok[..n]);
      InsertsKeepTheRest(machineId, nowMs, rows[..n], ok[..n], db);
      if ok[n] {
        ApplyOne(front, InsertOf(machineId, nowMs, rows[n]), db);
      } else {
        assert front + [] == front;
      }
    }
  }

  /** The health row after a pass, and what a pass leaves alone. */
  predicate HealthAfterPass(before: Db, after: Db, machineId: string, nowMs: int, written: bool) {
    && (if written
        then CollectorMerged(before.collectors, after.collectors, machineId, "direct_gpu",
                             Report("gpu_poller", "ok", None, Some(nowMs), None, nowMs, None))
        else after.collectors == before.collectors)
    && after.machines == before.machines && after.catalog == before.catalog
    && after.samples == before.samples && after.ollama == before.ollama
  }

  lemma PassRenewsHealth(conn: Conn, machineId: string, nowMs: int, rows: seq<GpuRow>, fate: nat -> Fate, first: nat)
    requires Undisturbed(conn, fate, first, |rows| + 1)
    ensures HealthAfterPass(conn.working, ExecuteEach(conn, PassStmts(machineId, nowMs, rows), fate, first).working,
                            machineId, nowMs, fate(first + |rows|).Succeeds?)
  {
    var ok := Outcomes(fate, first, |rows|);
    PassWorks(conn, machineId, nowMs, rows, HealthStmt(machineId, nowMs), fate, first);
    InsertsKeepTheRest(machineId, nowMs, rows, ok, conn.working);
    CollectorStatement(HealthStmt(machineId, nowMs),
                       ApplyAll(Inserted(machineId, nowMs, rows, ok), conn.working));
  }

  /** What the snapshot shows after an uninterrupted pass of an initialised collector: the pass, when one of its
      inserts succeeded. */
  ghost predicate PassIsShown(after: Db, machineId: string, nowMs: int, start: seq<LastPoll>,
                              clock: nat -> (int, int), readings: nat -> Reading, names: seq<string>,
                              fate: nat -> Fate, first: nat) {
    (exists i :: 0 <= i < |start| && InsertSucceeds(fate, first, i)) ==>
      && IsLatestGpuTime(after, machineId, nowMs)
      && forall section :: IsGpuSection(after, machineId, section) ==>
           ShowsPass(section, start, clock, readings, names, fate, first)
  }

  lemma RowsAreShown(conn: Conn, machineId: string, nowMs: int, rows: seq<GpuRow>, start: seq<LastPoll>,
                     clock: nat -> (int, int), readings: nat -> Reading, names: seq<string>, fate: nat -> Fate,
                     first: nat)
    requires Undisturbed(conn, fate, first, |rows| + 1) && Enumerated(rows)
    requires AllShowReadings(rows, start, clock, readings, names)
    requires forall k :: k in conn.working.gpus && k.machineId == machineId ==> k.tsMs < nowMs
    ensures PassIsShown(ExecuteEach(conn, PassStmts(machineId, nowMs, rows), fate, first).working, machineId, nowMs,
                        start, clock, readings, names, fate, first)
  {
    var after := ExecuteEach(conn, PassStmts(machineId, nowMs, rows), fate, first).working;
    if i: nat :| i < |start| && InsertSucceeds(fate, first, i) {
      var j := first + i;
      assert first <= j < first + |rows| && fate(j).Succeeds?;
      assert SomeStored(rows, fate, first);
      PassIsShownIff(conn, machineId, nowMs, rows, fate, first, []);
      forall section | IsGpuSection(after, machineId, section)
        ensures ShowsPass(section, start, clock, readings, names, fate, first)
      {
        PassIsShownIff(conn, machineId, nowMs, rows, fate, first, section);
        KeptShowsPass(rows, start, clock, readings, names, fate, first);
      }
    }
  }

  /** Without a successful insert it shows what it showed before. */
  ghost predicate OldRowsStay(before: Db, after: Db, machineId: string, count: nat, fate: nat -> Fate, first: nat) {
    (forall i :: 0 <= i < count ==> !InsertSucceeds(fate, first, i)) ==>
      forall section :: IsGpuSection(after, machineId, section) <==> IsGpuSection(before, machineId, section)
  }

  lemma FailedPassShowsOldRows(conn: Conn, machineId: string, nowMs: int, rows: seq<GpuRow>, fate: nat -> Fate,
                               first: nat)
    requires Undisturbed(conn, fate, first, |rows| + 1) && Enumerated(rows)
    requires forall k :: k in conn.working.gpus && k.machineId == machineId ==> k.tsMs < nowMs
    ensures OldRowsStay(conn.working, ExecuteEach(conn, PassStmts(machineId, nowMs, rows), fate, first).working,
                        machineId, |rows|, fate, first)
  {
    var after := ExecuteEach(conn, PassStmts(machineId, nowMs, rows), fate, first).working;
    if forall i :: 0 <= i < |rows| ==> !InsertSucceeds(fate, first, i) {
      if SomeStored(rows, fate, first) {
        var j :| first <= j < first + |rows| && fate(j).Succeeds?;
        var i := j - first;
        assert InsertSucceeds(fate, first, i);
      }
      forall section
        ensures IsGpuSection(after, machineId, section) <==> IsGpuSection(conn.working, machineId, section)
      {
        PassIsShownIff(conn, machineId, nowMs, rows, fate, first, section);
      }
    }
  }

  /** What an uninterrupted pass leaves: the driver's answers of the GPUs whose inserts succeeded, without one
      what was shown before, and the health row. */
  ghost predicate IsPassResult(before: Db, after: Db, machineId: string, nowMs: int, start: seq<LastPoll>,
                               clock: nat -> (int, int), readings: nat -> Reading, names: seq<string>,
                               fate: nat -> Fate, first: nat) {
    && PassIsShown(after, machineId, nowMs, start, clock, readings, names, fate, first)
    && OldRowsStay(before, after, machineId, |start|, fate, first)
    && HealthAfterPass(before, after, machineId, nowMs, fate(first + |start|).Succeeds?)
  }

  lemma PassHasResult(conn: Conn, machineId: string, nowMs: int, rows: seq<GpuRow>, start: seq<LastPoll>,
                      clock: nat -> (int, int), readings: nat -> Reading, names: seq<string>, fate: nat -> Fate,
                      first: nat)
    requires Undisturbed(conn, fate, first, |rows| + 1) && Enumerated(rows)
    requires AllShowReadings(rows, start, clock, readings, names)
    requires forall k :: k in conn.working.gpus && k.machineId == machineId ==> k.tsMs < nowMs
    ensures IsPassResult(conn.working, ExecuteEach(conn, PassStmts(machineId, nowMs, rows), fate, first).working,
                         machineId, nowMs, start, clock, readings, names, fate, first)
  {
    RowsAreShown(conn, machineId, nowMs, rows, start, clock, readings, names, fate, first);
    FailedPassShowsOldRows(conn, machineId, nowMs, rows, fate, first);
    PassRenewsHealth(conn, machineId, nowMs, rows, fate, first);
  }

  /** The one section the snapshot query may return. */
  ghost predicate OnlySection(before: Db, after: Db, machineId: string, rows: seq<GpuRow>, fate: nat -> Fate,
                              first: nat) {
    forall section ::
      IsGpuSection(after, machineId, section) <==>
        if SomeStored(rows, fate, first) then section == Kept(rows, Outcomes(fate, first, |rows|))
        else IsGpuSection(before, machineId, section)
  }

  lemma PassHasOneSection(conn: Conn, machineId: string, nowMs: int, rows: seq<GpuRow>, fate: nat -> Fate, first: nat)
    requires Undisturbed(conn, fate, first, |rows| + 1) && Enumerated(rows)
    requires forall k :: k in conn.working.gpus && k.machineId == machineId ==> k.tsMs < nowMs
    ensures OnlySection(conn.working, ExecuteEach(conn, PassStmts(machineId, nowMs, rows), fate, first).working,
                        machineId, rows, fate, first)
  {
    var after := ExecuteEach(conn, PassStmts(machineId, nowMs, rows), fate, first).working;
    forall section
      ensures IsGpuSection(after, machineId, section) <==>
                if SomeStored(rows, fate, first) then section == Kept(rows, Outcomes(fate, first, |rows|))
                else IsGpuSection(conn.working, machineId, section)
    {
      PassIsShownIff(conn, machineId, nowMs, rows, fate, first, section);
    }
  }

  /** A pass of the running collector that no call of the pipe interrupts. An uninitialised reader counts as one
      without GPUs. */
  method Poll(collector: DirectGpuCollector, clock: nat -> (int, int), readings: nat -> Reading, names: seq<string>,
              nowMs: int) returns (samples: seq<Snapshot>)
    requires Undisturbed(collector.db.state, collector.db.fate, collector.db.calls,
                         |collector.reader.probe.gpus| + 1)
    requires forall k :: k in collector.db.state.working.gpus && k.machineId == collector.machineId ==> k.tsMs < nowMs
    modifies collector.db, collector.reader.probe
    ensures IsPassResult(old(collector.db.state.working), collector.db.state.working, collector.machineId, nowMs,
                         if collector.reader.initialized then old(collector.reader.probe.gpus) else [],
                         clock, readings, names, collector.db.fate, old(collector.db.calls))
    ensures OnlySection(old(collector.db.state.working), collector.db.state.working, collector.machineId,
                        RowsOf(samples, names), collector.db.fate, old(collector.db.calls))
    ensures collector.reader.initialized ==>
              IsPass(old(collector.reader.probe.gpus), Full, clock, readings, samples)
  {
    ghost var conn, first := collector.db.state, collector.db.calls;
    ghost var start := if collector.reader.initialized then collector.reader.probe.gpus else [];
    samples := collector.PollOnce(clock, readings, names, nowMs);
    ghost var rows := RowsOf(samples, names);
    PolledRowsAreEnumerated(samples, names);
    assert AllShowReadings(rows, start, clock, readings, names);
    PassHasOneSection(conn, collector.machineId, nowMs, rows, collector.db.fate, first);
    PassHasResult(conn, collector.machineId, nowMs, rows, start, clock, readings, names, collector.db.fate, first);
  }

  lemma SameGpus(before: Db, machineId: string, nowMs: int, rows: seq<GpuRow>, ok: seq<bool>)
    requires |ok| == |rows| && Kept(rows, ok) == []
    ensures InsertedTable(before.gpus, machineId, nowMs, rows, ok) == before.gpus
  {
    NothingInserted(machineId, nowMs, rows, ok);
    InsertsGiveTable(before, machineId, nowMs, rows, ok);
  }

  lemma SameSection(a: Db, b: Db, machineId: string, section: seq<GpuEntry>)
    requires a.gpus == b.gpus
    ensures IsGpuSection(a, machineId, section) <==> IsGpuSection(b, machineId, section)
  {
    assert forall ts :: IsLatestGpuTime(a, machineId, ts) <==> IsLatestGpuTime(b, machineId, ts);
  }

  // ---- What does not hold ----

  predicate RenewsHealth(s: Stmt, machineId: string, nowMs: int) {
    s.UpsertCollector? && s.machineId == machineId && s.source == "direct_gpu" && s.sampleMs == Some(nowMs)
  }

  lemma HealthIsRenewed(s: Stmt, db: Db, machineId: string, nowMs: int)
    requires RenewsHealth(s, machineId, nowMs)
    ensures var time := StoredTime(Apply(s, db), machineId, "direct_gpu");
            time.Some? && time.value >= nowMs
  {
  }

  /** Once the health row is renewed, the verdict on a machine with GPU rows is the one for fresh data. */
  lemma RenewedLooksFresh(s: Stmt, db: Db, machineId: string, nowMs: int, listing: seq<HealthRow>,
                          gpus: seq<GpuSnapshotRow>, now: int, requiredVram: int)
    requires Valid(db) && RenewsHealth(s, machineId, nowMs) && now <= nowMs + STALE_THRESHOLD_MS && gpus != []
    requires IsHealthListing(Apply(s, db), machineId, listing)
    ensures VerdictOf(gpus, listing, now, requiredVram) == FreshVerdict(gpus, requiredVram)
  {
    ApplyKeepsValid(s, db);
    HealthIsRenewed(s, db, machineId, nowMs);
    FirstMatchIsTheOnlyMatch(Apply(s, db), machineId, "direct_gpu", listing);
  }

  /** A pass of which every insert fails and only the health write succeeds: the GPU rows shown are those
      from before, of any age, and for 30 s they are judged as fresh. */
  lemma OldRowsLookFresh(conn: Conn, machineId: string, nowMs: int, rows: seq<GpuRow>, fate: nat -> Fate, first: nat,
                         listing: seq<HealthRow>, section: seq<GpuEntry>, now: int, requiredVram: int)
    requires Valid(conn.working) && Undisturbed(conn, fate, first, |rows| + 1)
    requires !SomeStored(rows, fate, first) && fate(first + |rows|).Succeeds?
    requires now <= nowMs + STALE_THRESHOLD_MS && section != [] && IsGpuSection(conn.working, machineId, section)
    requires IsHealthListing(ExecuteEach(conn, PassStmts(machineId, nowMs, rows), fate, first).working, machineId,
                             listing)
    ensures IsGpuSection(ExecuteEach(conn, PassStmts(machineId, nowMs, rows), fate, first).working, machineId, section)
    ensures VerdictOf(SnapshotRows(section), listing, now, requiredVram)
         == FreshVerdict(SnapshotRows(section), requiredVram)
  {
    var health := HealthStmt(machineId, nowMs);
    PassWorks(conn, machineId, nowMs, rows, health, fate, first);
    KeptIffStored(rows, fate, first);
    NothingInserted(machineId, nowMs, rows, Outcomes(fate, first, |rows|));
    HealthLeavesGpus(health, conn.working);
    SameSection(conn.working, Apply(health, conn.working), machineId, section);
    RenewedLooksFresh(health, conn.working, machineId, nowMs, listing, SnapshotRows(section), now, requiredVram);
  }

  /** Nor does a collector that found no GPU make the old rows look stale: its error is written with a
      sample time. */
  lemma FailedInitLooksFresh(db: Db, machineId: string, warning: string, nowMs: int, listing: seq<HealthRow>,
                             section: seq<GpuEntry>, now: int, requiredVram: int)
    requires Valid(db) && now <= nowMs + STALE_THRESHOLD_MS && section != [] && IsGpuSection(db, machineId, section)
    requires IsHealthListing(Apply(InitFailedStmt(machineId, warning, nowMs), db), machineId, listing)
    ensures IsGpuSection(Apply(InitFailedStmt(machineId, warning, nowMs), db), machineId, section)
    ensures VerdictOf(SnapshotRows(section), listing, now, requiredVram)
         == FreshVerdict(SnapshotRows(section), requiredVram)
  {
    var failed := InitFailedStmt(machineId, warning, nowMs);
    HealthLeavesGpus(failed, db);
    SameSection(db, Apply(failed, db), machineId, section);
    RenewedLooksFresh(failed, db, machineId, nowMs, listing, SnapshotRows(section), now, requiredVram);
  }

  /** A pass whose calls all succeed, around a failing message: the insert joins the message's transaction
      and goes with it, and the health row is written after the rollback. */
  function RolledBackPass(m: BridgeMessage, insert: Stmt, health: Stmt): seq<Event> {
    [PipeBegin(m, Succeeds), CollectorWrite(insert, Succeeds), PipeExecute(Fails), PipeRollback,
     CollectorWrite(health, Succeeds)]
  }

  lemma TwoMore(db: Db, events: seq<Event>, a: Event, b: Event)
    ensures Run(Start(db), events + [a, b]) == Next(Next(Run(Start(db), events), a), b)
  {
    var mid := events + [a];
    RunOne(db, events, a);
    RunOne(db, mid, b);
    assert mid + [b] == events + [a, b];
  }

  lemma FourSteps(db: Db, a: Event, b: Event, c: Event, d: Event)
    ensures Run(Start(db), [a, b, c, d]) == Next(Next(Next(Next(Start(db), a), b), c), d)
  {
    TwoMore(db, [], a, b);
    TwoMore(db, [a, b], c, d);
    assert [] + [a, b] == [a, b] && [a, b] + [c, d] == [a, b, c, d];
  }

  lemma LastStep(db: Db, events: seq<Event>, all: seq<Event>, last: Event)
    requires all == events + [last]
    ensures Run(Start(db), all) == Next(Run(Start(db), events), last)
  {
    RunOne(db, events, last);
  }

  /** Every insert of a pass can succeed, and its health write, and none of its rows be stored. */
  lemma RolledBackPassIsLost(db: Db, m: BridgeMessage, insert: Stmt, health: Stmt)
    ensures Run(Start(db), RolledBackPass(m, insert, health)).disk.conn
         == Conn(Apply(health, db), Apply(health, db), false)
  {
    var a, b := PipeBegin(m, Succeeds), CollectorWrite(insert, Succeeds);
    FourSteps(db, a, b, PipeExecute(Fails), PipeRollback);
    AcknowledgedWriteIsLost(db, m, insert);
    LastStep(db, [a, b, PipeExecute(Fails), PipeRollback], RolledBackPass(m, insert, health),
             CollectorWrite(health, Succeeds));
    HealthAfterRollback(db, health);
  }

  lemma HealthAfterRollback(db: Db, health: Stmt)
    ensures Next(Start(db), CollectorWrite(health, Succeeds)).disk.conn
         == Conn(Apply(health, db), Apply(health, db), false)
  {
  }

  // ---- One input ----

  /** An idle GPU with 7 of 8 MiB free. */
  const IDLE_ROW: GpuRow := GpuRow(0, None, "nvml_nvapi", None, None, None, Some(0.0), None, None, Some(MIB),
                                   Some(8 * MIB), None, None, None, None)

  function OldDb(machineId: string): Db {
    Apply(InsertOf(machineId, 0, IDLE_ROW), EMPTY_DB)
  }

  lemma OldDbIsShown(machineId: string)
    ensures Valid(OldDb(machineId)) && IsGpuSection(OldDb(machineId), machineId, [GpuEntry(GpuUid(0), IDLE_ROW)])
    ensures IsLatestGpuTime(OldDb(machineId), machineId, 0)
  {
    var db, key, entry := OldDb(machineId), GpuKey(machineId, GpuUid(0), 0), GpuEntry(GpuUid(0), IDLE_ROW);
    assert db.gpus == map[key := IDLE_ROW];
    assert key in db.gpus;
    assert IsLatestGpu(db, machineId, entry);
  }

  lemma OnlyHealthRow(machineId: string, nowMs: int)
    ensures var db := Apply(HealthStmt(machineId, nowMs), OldDb(machineId));
            var key := CollectorId(machineId, "direct_gpu");
            key in db.collectors && IsHealthListing(db, machineId, [HealthRow(key, db.collectors[key])])
  {
    var key := CollectorId(machineId, "direct_gpu");
    var db := Apply(HealthStmt(machineId, nowMs), OldDb(machineId));
    assert db.collectors == map[key := db.collectors[key]];
  }

  /** A GPU row of time 0 is stored. At time 100000 a pass inserts a new row and renews its health row, both
      successfully, but a failing message rolls the insert back. The row of time 0 is shown, and gets the
      verdict of an idle machine. */
  lemma OldRowIsOffered(machineId: string, m: BridgeMessage)
    ensures var insert, health := InsertOf(machineId, 100_000, IDLE_ROW), HealthStmt(machineId, 100_000);
            var db := Run(Start(OldDb(machineId)), RolledBackPass(m, insert, health)).disk.conn.working;
            var key, section := CollectorId(machineId, "direct_gpu"), [GpuEntry(GpuUid(0), IDLE_ROW)];
            && IsGpuSection(db, machineId, section) && IsLatestGpuTime(db, machineId, 0)
            && key in db.collectors && IsHealthListing(db, machineId, [HealthRow(key, db.collectors[key])])
            && VerdictOf(SnapshotRows(section), [HealthRow(key, db.collectors[key])], 100_000, 0) == FitsIdle
  {
    var insert, health := InsertOf(machineId, 100_000, IDLE_ROW), HealthStmt(machineId, 100_000);
    var db := Apply(health, OldDb(machineId));
    var key, section := CollectorId(machineId, "direct_gpu"), [GpuEntry(GpuUid(0), IDLE_ROW)];
    RolledBackPassIsLost(OldDb(machineId), m, insert, health);
    OldDbIsShown(machineId);
    HealthLeavesGpus(health, OldDb(machineId));
    SameSection(OldDb(machineId), db, machineId, section);
    OnlyHealthRow(machineId, 100_000);
    RenewedLooksFresh(health, OldDb(machineId), machineId, 100_000, [HealthRow(key, db.collectors[key])],
                      SnapshotRows(section), 100_000, 0);
    IdleRowFits(section);
  }

  lemma IdleRowFits(section: seq<GpuEntry>)
    requires section == [GpuEntry(GpuUid(0), IDLE_ROW)]
    ensures FreshVerdict(SnapshotRows(section), 0) == FitsIdle
  {
    var row := SnapshotRow(section[0]);
    assert section[..0] == [] && SnapshotRows(section) == [row];
    assert [row][..0] == [];
    assert row in [row] && KnowsVram(row);
    MaxOfIsMax([row], UTIL);
  }

  // ---- The exact condition ----

  /** After every run, GPU rows more than 30 s old are judged as fresh exactly when the machine's inserts are
      all older than that and some write of direct_gpu is not. */
  lemma OldRowsLookFreshIff(events: seq<Event>, machineId: string, listing: seq<HealthRow>, section: seq<GpuEntry>,
                            now: int, requiredVram: int)
    requires !Colon(machineId)
    requires IsHealthListing(WorkingDb(events), machineId, listing)
    requires IsGpuSection(WorkingDb(events), machineId, section)
    ensures var from, log := now - STALE_THRESHOLD_MS, WorkingStmts(events);
            (&& section != [] && !ShowsSince(WorkingDb(events), machineId, from)
             && !VerdictOf(SnapshotRows(section), listing, now, requiredVram).Stale?)
            <==> (&& Latest(log, GpuTime(machineId)).Some? && !InsertedSince(log, machineId, from)
                  && !NoRecentWrite(log, machineId, "direct_gpu", now))
  {
    RunReplays(EMPTY_DB, events);
    SectionIsEmptyIff(WorkingStmts(events), machineId, section);
    RowsShownAreRecentIff(events, machineId, now - STALE_THRESHOLD_MS);
    StaleEndpointIsHistory(events, machineId, listing, section, now, requiredVram);
  }
}
