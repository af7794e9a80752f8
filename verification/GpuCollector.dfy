/**
 The direct GPU collector: one poll of all GPUs, written row by row, and what the snapshot query then
 returns.
 */
module GpuCollector {
  import opened CppArithmetic
  import opened Database
  import opened Decimals
  import opened Effects
  import opened Engine
  import opened GpuProbe
  import opened Queries
  import opened Store
  import opened Subsequence
  import opened Wrappers

  // ---- From a probe snapshot to a row ----

  function OptReal(x: real): Option<real> {
    if x != 0.0 then Some(x) else None
  }

  function OptInt(x: int): Option<int> {
    if x > 0 then Some(x) else None
  }

  /** A count of mebibytes as stored: bytes, or nothing for zero. */
  function StoredBytes(mebibytes: nat): (bytes: Option<int>)
    ensures bytes.Some? && mebibytes < U32 ==> 0 < bytes.value < 0x10_0000_0000_0000
  {
    if mebibytes > 0 then Some(mebibytes * MIB) else None
  }

  function GpuUid(index: int): string {
    "nvapi:" + IntString(index)
  }

  function NameOf(names: seq<string>, index: int): Option<string> {
    if 0 <= index < |names| && names[index] != "" then Some(names[index]) else None
  }

  function RowOf(s: Snapshot, names: seq<string>): GpuRow {
    GpuRow(
      s.gpuIndex, NameOf(names, s.gpuIndex), "nvml_nvapi", OptReal(s.coreC),
      if s.hotspotC != 0 then Some(s.hotspotC as real) else None,
      OptReal(s.memjnC),
      if s.utilGpuPct >= 0 then Some(s.utilGpuPct as real) else None,
      if s.nvmlUtilMemPct > 0 then Some(s.nvmlUtilMemPct as real) else None,
      if s.nvmlPowerMw > 0 then Some(s.nvmlPowerMw as real / 1000.0) else None,
      StoredBytes(s.vramUsedMb), StoredBytes(s.vramTotalMb),
      OptInt(ToInt32(s.clockGraphicsMhz)), OptInt(ToInt32(s.clockMemoryMhz)),
      if s.fanCount > 0 then Some(ToInt32(s.fan0Rpm)) else None,
      if s.fanCount > 0 then Some(s.fan0Pct as real) else None)
  }

  // ---- What a row shows of the driver's answers ----

  /** An answer that was read, if there was one. */
  function Seen<T>(due: bool, answer: Option<T>): Option<T> {
    if due then answer else None
  }

  /** An unsigned 32-bit count as the signed number that is stored. */
  predicate IsSigned32(count: nat, stored: int) {
    if count < 0x8000_0000 then stored == count else stored == count - 0x1_0000_0000
  }

  /** Degrees: zero is unknown. */
  predicate ShowsDegrees(seen: Option<real>, column: Option<real>) {
    if seen.Some? && seen.value != 0.0 then column == seen else column == None
  }

  /** Kilohertz as whole megahertz, for an unsigned 32-bit count of them: zero is unknown. */
  predicate ShowsClock(khz: Option<nat>, mhz: Option<int>) {
    if khz.Some? && khz.value / 1000 > 0 then khz.value < 0x1_0000_0000 ==> mhz == Some(khz.value / 1000)
    else mhz == None
  }

  /** Whole mebibytes, in bytes: zero mebibytes, which is also what 2^52 bytes come to, are unknown. */
  predicate ShowsBytes(bytes: Option<nat>, column: Option<int>) {
    if bytes.Some? && (bytes.value / 1_048_576) % 0x1_0000_0000 > 0
    then column == Some((bytes.value / 1_048_576) % 0x1_0000_0000 * 1_048_576)
    else column == None
  }

  predicate ShowsMemory(memory: Option<Memory>, used: Option<int>, total: Option<int>) {
    match memory
    case None => used == None && total == None
    case Some(m) => ShowsBytes(Some(m.used), used) && ShowsBytes(Some(m.total), total)
  }

  /** The first fan, when there is one. */
  predicate ShowsFan(fans: Option<Fans>, rpm: Option<int>, pct: Option<real>) {
    if fans.Some? && fans.value.count > 0
    then rpm.Some? && IsSigned32(fans.value.rpm0, rpm.value) && pct == Some(fans.value.level0 as real)
    else rpm == None && pct == None
  }

  /** Column by column: the row of GPU i after a pass that read the fast tier, the slow tier, both or
      neither. */
  predicate ShowsReading(row: GpuRow, i: nat, names: seq<string>, fast: bool, slow: bool, r: Reading) {
    && row.gpuIndex == i && row.backend == "nvml_nvapi"
    && row.gpuName == (if i < |names| && names[i] != "" then Some(names[i]) else None)
    && ShowsDegrees(Seen(fast, r.coreC), row.coreC)
    && ShowsDegrees(Seen(fast, r.memjnC), row.memJunctionC)
    && row.hotspotC == (if fast && r.hotspotC.Some? && r.hotspotC.value != 0
                        then Some(r.hotspotC.value as real) else None)
    && row.utilGpuPct == (if fast && r.utilGpuPct.Some? && r.utilGpuPct.value >= 0
                          then Some(r.utilGpuPct.value as real) else None)
    && row.utilMemPct == (if fast && r.nvmlUtilMemPct.Some? && r.nvmlUtilMemPct.value > 0
                          then Some(r.nvmlUtilMemPct.value as real) else None)
    && ShowsClock(Seen(fast, r.clockGraphicsKhz), row.clockGraphicsMhz)
    && ShowsClock(Seen(fast, r.clockMemoryKhz), row.clockMemoryMhz)
    && row.powerW == (if slow && r.powerMw.Some? && r.powerMw.value > 0
                      then Some(r.powerMw.value as real / 1000.0) else None)
    && ShowsMemory(Seen(slow, r.memory), row.vramUsedBytes, row.vramTotalBytes)
    && ShowsFan(Seen(slow, r.fans), row.fan0Rpm, row.fan0Pct)
  }

  lemma ClockShown(khz: Option<nat>)
    ensures ShowsClock(khz, OptInt(ToInt32(Mhz(khz, 0))))
  {
  }

  lemma SampleShowsReading(start: seq<LastPoll>, clock: nat -> (int, int), readings: nat -> Reading, i: nat,
                           s: Snapshot, names: seq<string>)
    requires i < |start| && PassReads(start, clock, readings, i, s)
    ensures ShowsReading(RowOf(s, names), i, names, FastDue(start, clock, i), SlowDue(start, clock, i), readings(i))
  {
    var r := readings(i);
    ClockShown(Seen(FastDue(start, clock, i), r.clockGraphicsKhz));
    ClockShown(Seen(FastDue(start, clock, i), r.clockMemoryKhz));
  }

  /** One row per GPU, in index order. */
  predicate AllShowReadings(rows: seq<GpuRow>, start: seq<LastPoll>, clock: nat -> (int, int),
                            readings: nat -> Reading, names: seq<string>) {
    && |rows| == |start|
    && forall i :: 0 <= i < |rows| ==>
         ShowsReading(rows[i], i, names, FastDue(start, clock, i), SlowDue(start, clock, i), readings(i))
  }

  lemma RowsAppend(samples: seq<Snapshot>, last: Snapshot, names: seq<string>)
    ensures RowsOf(samples + [last], names) == RowsOf(samples, names) + [RowOf(last, names)]
  {
    assert (samples + [last])[..|samples|] == samples;
  }

  lemma {:induction false} RowsAreOfSamples(samples: seq<Snapshot>, names: seq<string>)
    ensures |RowsOf(samples, names)| == |samples|
    ensures forall i :: 0 <= i < |samples| ==> RowsOf(samples, names)[i] == RowOf(samples[i], names)
    decreases |samples|
  {
    if samples != [] {
      var front, last := SplitLast(samples);
      RowsAreOfSamples(front, names);
      RowsAppend(front, last, names);
    }
  }

  lemma PassShowsReadings(start: seq<LastPoll>, clock: nat -> (int, int), readings: nat -> Reading,
                          samples: seq<Snapshot>, names: seq<string>)
    requires IsPass(start, Full, clock, readings, samples)
    ensures AllShowReadings(RowsOf(samples, names), start, clock, readings, names)
  {
    RowsAreOfSamples(samples, names);
    forall i | 0 <= i < |samples|
      ensures ShowsReading(RowsOf(samples, names)[i], i, names, FastDue(start, clock, i), SlowDue(start, clock, i),
                           readings(i))
    {
      assert IsPassSample(start, Full, clock, readings, i, samples[i]);
      PassSampleReads(start, clock, readings, i, samples[i]);
      SampleShowsReading(start, clock, readings, i, samples[i], names);
    }
  }

  function InsertOf(machineId: string, nowMs: int, row: GpuRow): Stmt {
    InsertGpu(machineId, GpuUid(row.gpuIndex), nowMs, row)
  }

  function HealthStmt(machineId: string, nowMs: int): Stmt {
    UpsertCollector(machineId, "direct_gpu", "gpu_poller", "ok", None, Some(nowMs), None, nowMs, None)
  }

  function InitFailedStmt(machineId: string, warning: string, nowMs: int): Stmt {
    UpsertCollector(machineId, "direct_gpu", "gpu_poller", "error", None, Some(nowMs),
                    Some("init failed: " + warning), nowMs, None)
  }

  function InsertsOf(machineId: string, nowMs: int, rows: seq<GpuRow>): seq<Stmt> {
    if rows == [] then []
    else InsertsOf(machineId, nowMs, rows[..|rows| - 1]) + [InsertOf(machineId, nowMs, rows[|rows| - 1])]
  }

  function RowsOf(samples: seq<Snapshot>, names: seq<string>): seq<GpuRow> {
    if samples == [] then []
    else RowsOf(samples[..|samples| - 1], names) + [RowOf(samples[|samples| - 1], names)]
  }

  /** Statements executed one after the other, each with its own fate and none retried. */
  function ExecuteEach(conn: Conn, statements: seq<Stmt>, fate: nat -> Fate, first: nat): Conn {
    if statements == [] then conn
    else
      var n := |statements| - 1;
      ExecuteEach(conn, statements[..n], fate, first).Execute(statements[n], fate(first + n)).0
  }

  // ---- One pass of the poll loop ----

  class DirectGpuCollector {
    const machineId: string
    const db: Connection
    const reader: SensorReader

    constructor (machineId: string, db: Connection, reader: SensorReader)
      ensures this.machineId == machineId && this.db == db && this.reader == reader
    {
      this.machineId := machineId;
      this.db := db;
      this.reader := reader;
    }

    /** The result of a statement is ignored. */
    method ExecuteOne(s: Stmt, ghost start: Conn, ghost done: seq<Stmt>, ghost first: nat)
      requires db.calls == first + |done| && db.state == ExecuteEach(start, done, db.fate, first)
      modifies db
      ensures db.calls == first + |done| + 1 && db.state == ExecuteEach(start, done + [s], db.fate, first)
    {
      ExecuteNext(start, done, s, db.fate, first);
      var ok := db.Execute(s);
    }

    method InsertAll(rows: seq<GpuRow>, nowMs: int)
      modifies db
      ensures db.calls == old(db.calls) + |rows|
      ensures db.state == ExecuteEach(old(db.state), InsertsOf(machineId, nowMs, rows), db.fate, old(db.calls))
    {
      ghost var start, first := db.state, db.calls;
      for i := 0 to |rows|
        invariant db.calls == first + i
        invariant db.state == ExecuteEach(start, InsertsOf(machineId, nowMs, rows[..i]), db.fate, first)
      {
        InsertNext(machineId, nowMs, rows, i);
        ExecuteOne(InsertOf(machineId, nowMs, rows[i]), start, InsertsOf(machineId, nowMs, rows[..i]), first);
      }
      assert rows[..|rows|] == rows;
    }

    /** A failure to find GPUs is recorded in the health row, with a sample time like any other write. */
    method Initialize(found: Option<nat>, warning: string, nowMs: int) returns (ok: bool)
      modifies db, reader, reader.probe
      ensures ok == reader.initialized == (old(reader.initialized) || (found.Some? && found.value > 0))
      ensures db.state == if ok then old(db.state)
                          else old(db.state).Execute(InitFailedStmt(machineId, warning, nowMs),
                                                     db.fate(old(db.calls))).0
      ensures !ok && db.fate(old(db.calls)).Succeeds? ==>
                && db.state.working == old(db.state).working.(collectors := db.state.working.collectors)
                && CollectorMerged(old(db.state).working.collectors, db.state.working.collectors, machineId,
                                   "direct_gpu", Report("gpu_poller", "error", None, Some(nowMs),
                                                        Some("init failed: " + warning), nowMs, None))
    {
      ok := reader.Init(found);
      if !ok {
        CollectorStatement(InitFailedStmt(machineId, warning, nowMs), db.state.working);
        var written := db.Execute(InitFailedStmt(machineId, warning, nowMs));
      }
    }

    /** One pass: a row per GPU, then the health row whatever happened to the inserts. An uninitialised
        reader has no samples. */
    method PollOnce(clock: nat -> (int, int), readings: nat -> Reading, names: seq<string>, nowMs: int)
      returns (samples: seq<Snapshot>)
      modifies db, reader.probe
      ensures if reader.initialized then IsPass(old(reader.probe.gpus), Full, clock, readings, samples)
              else samples == []
      ensures forall i :: 0 <= i < |samples| ==> samples[i].gpuIndex == i
      ensures db.state == ExecuteEach(old(db.state),
                                      InsertsOf(machineId, nowMs, RowsOf(samples, names))
                                      + [HealthStmt(machineId, nowMs)],
                                      db.fate, old(db.calls))
      ensures reader.initialized ==>
                AllShowReadings(RowsOf(samples, names), old(reader.probe.gpus), clock, readings, names)
    {
      ghost var start := reader.probe.gpus;
      samples := reader.SampleAll(Full, clock, readings);
      if reader.initialized {
        PassShowsReadings(start, clock, readings, samples, names);
      }
      WriteAll(RowsOf(samples, names), HealthStmt(machineId, nowMs), nowMs);
    }

    method WriteAll(rows: seq<GpuRow>, health: Stmt, nowMs: int)
      modifies db
      ensures db.state == ExecuteEach(old(db.state), InsertsOf(machineId, nowMs, rows) + [health],
                                      db.fate, old(db.calls))
    {
      ghost var start, first := db.state, db.calls;
      InsertCount(machineId, nowMs, rows);
      InsertAll(rows, nowMs);
      ExecuteOne(health, start, InsertsOf(machineId, nowMs, rows), first);
    }
  }

  lemma {:induction false} InsertCount(machineId: string, nowMs: int, rows: seq<GpuRow>)
    ensures |InsertsOf(machineId, nowMs, rows)| == |rows|
  {
    if rows != [] {
      InsertCount(machineId, nowMs, rows[..|rows| - 1]);
    }
  }

  lemma InsertNext(machineId: string, nowMs: int, rows: seq<GpuRow>, i: nat)
    requires i < |rows|
    ensures |InsertsOf(machineId, nowMs, rows[..i])| == i
    ensures InsertsOf(machineId, nowMs, rows[..i + 1])
         == InsertsOf(machineId, nowMs, rows[..i]) + [InsertOf(machineId, nowMs, rows[i])]
  {
    InsertCount(machineId, nowMs, rows[..i]);
    assert rows[..i + 1][..i] == rows[..i];
  }

  lemma ExecuteNext(conn: Conn, statements: seq<Stmt>, s: Stmt, fate: nat -> Fate, first: nat)
    ensures ExecuteEach(conn, statements + [s], fate, first)
         == ExecuteEach(conn, statements, fate, first).Execute(s, fate(first + |statements|)).0
  {
    assert (statements + [s])[..|statements|] == statements;
  }

  // ---- What the snapshot shows after the inserts ----

  /** The inserts that succeed, of rows that carry their own position as index. */
  function Inserted(machineId: string, nowMs: int, rows: seq<GpuRow>, ok: seq<bool>): seq<Stmt>
    requires |ok| == |rows|
  {
    if rows == [] then []
    else
      var n := |rows| - 1;
      Inserted(machineId, nowMs, rows[..n], ok[..n])
      + if ok[n] then [InsertOf(machineId, nowMs, rows[n])] else []
  }

  /** The same rows as the snapshot lists them. */
  function Kept(rows: seq<GpuRow>, ok: seq<bool>): seq<GpuEntry>
    requires |ok| == |rows|
  {
    if rows == [] then []
    else
      var n := |rows| - 1;
      Kept(rows[..n], ok[..n]) + if ok[n] then [GpuEntry(GpuUid(rows[n].gpuIndex), rows[n])] else []
  }

  predicate Enumerated(rows: seq<GpuRow>) {
    forall i :: 0 <= i < |rows| ==> rows[i].gpuIndex == i
  }

  lemma GpuUidIsInjective(a: nat, b: nat)
    requires GpuUid(a) == GpuUid(b)
    ensures a == b
  {
    assert GpuUid(a)[6..] == NatString(a) && GpuUid(b)[6..] == NatString(b);
    DecimalOfNatString(a);
    DecimalOfNatString(b);
  }

  predicate Ordered(entries: seq<GpuEntry>, below: int) {
    && (forall i, j :: 0 <= i < j < |entries| ==> entries[i].gpu.gpuIndex < entries[j].gpu.gpuIndex)
    && (forall i :: 0 <= i < |entries| ==>
          0 <= entries[i].gpu.gpuIndex < below && entries[i].gpuUid == GpuUid(entries[i].gpu.gpuIndex))
  }

  lemma {:induction false} KeptIsOrdered(rows: seq<GpuRow>, ok: seq<bool>)
    requires |ok| == |rows| && Enumerated(rows)
    ensures Ordered(Kept(rows, ok), |rows|)
  {
    if rows != [] {
      var n := |rows| - 1;
      KeptIsOrdered(rows[..n], ok[..n]);
    }
  }

  lemma {:induction false} KeptMembers(rows: seq<GpuRow>, ok: seq<bool>)
    requires |ok| == |rows| && Enumerated(rows)
    ensures forall e :: e in Kept(rows, ok) ==>
              0 <= e.gpu.gpuIndex < |rows| && ok[e.gpu.gpuIndex] && e.gpu == rows[e.gpu.gpuIndex]
    ensures forall i :: 0 <= i < |rows| && ok[i] ==> GpuEntry(GpuUid(i), rows[i]) in Kept(rows, ok)
  {
    if rows != [] {
      KeptMembers(rows[..|rows| - 1], ok[..|rows| - 1]);
    }
  }

  type GpuTable = map<GpuKey, GpuRow>

  /** Which rows of the table are there after the inserts, and what they hold. */
  ghost predicate GpusAfter(before: GpuTable, after: GpuTable, machineId: string, nowMs: int, entries: seq<GpuEntry>) {
    && (forall k :: k in after <==>
          k in before || (k.machineId == machineId && k.tsMs == nowMs && HasUid(entries, k.gpuUid)))
    && (forall e :: e in entries ==>
          GpuKey(machineId, e.gpuUid, nowMs) in after && after[GpuKey(machineId, e.gpuUid, nowMs)] == e.gpu)
    && (forall k :: k in before && (k.machineId != machineId || k.tsMs != nowMs) ==> after[k] == before[k])
  }

  predicate HasUid(entries: seq<GpuEntry>, uid: string) {
    exists e :: e in entries && e.gpuUid == uid
  }

  lemma HasUidAppend(entries: seq<GpuEntry>, last: GpuEntry, uid: string)
    ensures HasUid(entries + [last], uid) <==> HasUid(entries, uid) || uid == last.gpuUid
  {
    assert forall e :: e in entries + [last] <==> e in entries || e == last;
    assert last in entries + [last];
  }

  lemma GpusAfterOne(before: GpuTable, mid: GpuTable, machineId: string, nowMs: int,
                     entries: seq<GpuEntry>, last: GpuEntry)
    requires GpusAfter(before, mid, machineId, nowMs, entries)
    requires !HasUid(entries, last.gpuUid)
    ensures GpusAfter(before, mid[GpuKey(machineId, last.gpuUid, nowMs) := last.gpu], machineId, nowMs,
                      entries + [last])
  {
    forall k: GpuKey
      ensures HasUid(entries + [last], k.gpuUid) <==> HasUid(entries, k.gpuUid) || k.gpuUid == last.gpuUid
    {
      HasUidAppend(entries, last, k.gpuUid);
    }
    assert forall e :: e in entries ==> e.gpuUid != last.gpuUid;
  }

  lemma NewUid(entries: seq<GpuEntry>, n: nat)
    requires Ordered(entries, n)
    ensures !HasUid(entries, GpuUid(n))
  {
    forall i | 0 <= i < |entries|
      ensures entries[i].gpuUid != GpuUid(n)
    {
      if entries[i].gpuUid == GpuUid(n) {
        GpuUidIsInjective(entries[i].gpu.gpuIndex, n);
      }
    }
  }

  lemma ApplyInsert(db: Db, machineId: string, nowMs: int, row: GpuRow)
    ensures Apply(InsertOf(machineId, nowMs, row), db).gpus
         == db.gpus[GpuKey(machineId, GpuUid(row.gpuIndex), nowMs) := row]
  {
  }

  function InsertedTable(before: GpuTable, machineId: string, nowMs: int, rows: seq<GpuRow>, ok: seq<bool>): GpuTable
    requires |ok| == |rows|
  {
    if rows == [] then before
    else
      var n := |rows| - 1;
      var front := InsertedTable(before, machineId, nowMs, rows[..n], ok[..n]);
      if ok[n] then front[GpuKey(machineId, GpuUid(rows[n].gpuIndex), nowMs) := rows[n]] else front
  }

  lemma {:induction false} InsertsGiveTable(before: Db, machineId: string, nowMs: int, rows: seq<GpuRow>, ok: seq<bool>)
    requires |ok| == |rows|
    ensures ApplyAll(Inserted(machineId, nowMs, rows, ok), before).gpus
         == InsertedTable(before.gpus, machineId, nowMs, rows, ok)
    decreases |rows|
  {
    if rows != [] {
      var n := |rows| - 1;
      var front := Inserted(machineId, nowMs, rows[..n], ok[..n]);
      InsertsGiveTable(before, machineId, nowMs, rows[..n], ok[..n]);
      if ok[n] {
        ApplyOne(front, InsertOf(machineId, nowMs, rows[n]), before);
        ApplyInsert(ApplyAll(front, before), machineId, nowMs, rows[n]);
      } else {
        assert Inserted(machineId, nowMs, rows, ok) == front;
      }
    }
  }

  lemma {:induction false} TableHoldsKept(before: GpuTable, machineId: string, nowMs: int, rows: seq<GpuRow>,
                                          ok: seq<bool>)
    requires |ok| == |rows| && Enumerated(rows)
    ensures GpusAfter(before, InsertedTable(before, machineId, nowMs, rows, ok), machineId, nowMs, Kept(rows, ok))
    decreases |rows|
  {
    if rows != [] {
      var n := |rows| - 1;
      var entries := Kept(rows[..n], ok[..n]);
      TableHoldsKept(before, machineId, nowMs, rows[..n], ok[..n]);
      if ok[n] {
        KeptIsOrdered(rows[..n], ok[..n]);
        NewUid(entries, n);
        GpusAfterOne(before, InsertedTable(before, machineId, nowMs, rows[..n], ok[..n]), machineId, nowMs,
                     entries, GpuEntry(GpuUid(n), rows[n]));
      } else {
        assert Kept(rows, ok) == entries;
      }
    }
  }

  lemma SameLast(a: seq<GpuEntry>, b: seq<GpuEntry>, below: int)
    requires Ordered(a, below) && Ordered(b, below) && a != [] && b != []
    requires a[|a| - 1] in b && b[|b| - 1] in a
    ensures a[|a| - 1] == b[|b| - 1]
  {
    var i :| 0 <= i < |b| && b[i] == a[|a| - 1];
    var j :| 0 <= j < |a| && a[j] == b[|b| - 1];
  }

  lemma FrontMembers(a: seq<GpuEntry>, below: int)
    requires Ordered(a, below) && a != []
    ensures forall e :: e in a[..|a| - 1] <==> e in a && e != a[|a| - 1]
  {
    assert a == a[..|a| - 1] + [a[|a| - 1]];
  }

  lemma SameEmptiness(a: seq<GpuEntry>, b: seq<GpuEntry>)
    requires forall e :: e in a <==> e in b
    ensures a == [] <==> b == []
  {
    assert b != [] ==> b[0] in a;
    assert a != [] ==> a[0] in b;
  }

  lemma FrontsHaveSameMembers(a: seq<GpuEntry>, b: seq<GpuEntry>, c: seq<GpuEntry>, d: seq<GpuEntry>, below: int)
    requires Ordered(a, below) && Ordered(b, below) && a != [] && b != [] && a[|a| - 1] == b[|b| - 1]
    requires c == a[..|a| - 1] && d == b[..|b| - 1] && forall e :: e in a <==> e in b
    ensures forall e :: e in c <==> e in d
  {
    FrontMembers(a, below);
    FrontMembers(b, below);
    assert forall e :: e in c <==> e in a && e != a[|a| - 1];
    assert forall e :: e in d <==> e in b && e != b[|b| - 1];
  }

  /** Two listings in strict index order with the same rows are one listing. */
  lemma {:induction false} OrderedListingsAgree(a: seq<GpuEntry>, b: seq<GpuEntry>, below: int)
    requires Ordered(a, below) && Ordered(b, below)
    requires forall e :: e in a <==> e in b
    ensures a == b
    decreases |a|
  {
    SameEmptiness(a, b);
    if a != [] {
      assert a[|a| - 1] in b && b[|b| - 1] in a;
      var c, d := a[..|a| - 1], b[..|b| - 1];
      SameLast(a, b, below);
      FrontsHaveSameMembers(a, b, c, d, below);
      OrderedListingsAgree(c, d, below);
      assert a == c + [a[|a| - 1]] && b == d + [b[|b| - 1]];
    }
  }

  /** After inserts at a time later than all of the machine's rows, the snapshot's GPU section is exactly
      the inserted rows in index order, if there are any, whatever order the engine breaks ties in. Used
      with the first k rows of a poll it describes the snapshot after the k-th insert. */
  lemma PollShowsInSnapshot(before: Db, machineId: string, nowMs: int, rows: seq<GpuRow>, ok: seq<bool>,
                            section: seq<GpuEntry>)
    requires |ok| == |rows| && Enumerated(rows)
    requires forall k :: k in before.gpus && k.machineId == machineId ==> k.tsMs < nowMs
    requires Kept(rows, ok) != []
    ensures var after := ApplyAll(Inserted(machineId, nowMs, rows, ok), before);
            IsGpuSection(after, machineId, section) <==> section == Kept(rows, ok)
  {
    InsertsGiveTable(before, machineId, nowMs, rows, ok);
    TableHoldsKept(before.gpus, machineId, nowMs, rows, ok);
    KeptIsOrdered(rows, ok);
    SectionIsKept(before, ApplyAll(Inserted(machineId, nowMs, rows, ok), before), machineId, nowMs,
                  Kept(rows, ok), |rows|, section);
  }

  lemma SectionIsKept(before: Db, after: Db, machineId: string, nowMs: int, kept: seq<GpuEntry>, below: int,
                      section: seq<GpuEntry>)
    requires GpusAfter(before.gpus, after.gpus, machineId, nowMs, kept) && Ordered(kept, below) && kept != []
    requires forall k :: k in before.gpus && k.machineId == machineId ==> k.tsMs < nowMs
    ensures IsGpuSection(after, machineId, section) <==> section == kept
  {
    LatestGpusAreKept(before, after, machineId, nowMs, kept);
    KeptUidsDiffer(kept, below);
    if IsGpuSection(after, machineId, section) {
      SectionIsOrdered(section, kept, below);
      OrderedListingsAgree(section, kept, below);
    }
  }

  lemma LatestGpusAreKept(before: Db, after: Db, machineId: string, nowMs: int, kept: seq<GpuEntry>)
    requires GpusAfter(before.gpus, after.gpus, machineId, nowMs, kept) && kept != []
    requires forall k :: k in before.gpus && k.machineId == machineId ==> k.tsMs < nowMs
    ensures forall e :: IsLatestGpu(after, machineId, e) <==> e in kept
  {
    assert kept[0] in kept;
    assert GpuKey(machineId, kept[0].gpuUid, nowMs) in after.gpus;
    assert IsLatestGpuTime(after, machineId, nowMs);
    assert forall ts :: IsLatestGpuTime(after, machineId, ts) ==> ts == nowMs;
    forall e
      ensures IsLatestGpu(after, machineId, e) <==> e in kept
    {
      if IsLatestGpu(after, machineId, e) {
        assert GpuKey(machineId, e.gpuUid, nowMs) in after.gpus;
        var other :| other in kept && other.gpuUid == e.gpuUid;
        assert other == e;
      }
    }
  }

  lemma KeptUidsDiffer(kept: seq<GpuEntry>, below: int)
    requires Ordered(kept, below)
    ensures forall i, j :: 0 <= i < j < |kept| ==> kept[i].gpuUid != kept[j].gpuUid
  {
    forall i, j | 0 <= i < j < |kept|
      ensures kept[i].gpuUid != kept[j].gpuUid
    {
      if kept[i].gpuUid == kept[j].gpuUid {
        GpuUidIsInjective(kept[i].gpu.gpuIndex, kept[j].gpu.gpuIndex);
      }
    }
  }

  lemma SectionIsOrdered(section: seq<GpuEntry>, kept: seq<GpuEntry>, below: int)
    requires Ordered(kept, below) && forall e :: e in section <==> e in kept
    requires forall i, j :: 0 <= i < j < |section| ==> section[i].gpuUid != section[j].gpuUid
    requires forall i, j :: 0 <= i < j < |section| ==> section[i].gpu.gpuIndex <= section[j].gpu.gpuIndex
    ensures Ordered(section, below)
  {
    forall i | 0 <= i < |section|
      ensures 0 <= section[i].gpu.gpuIndex < below && section[i].gpuUid == GpuUid(section[i].gpu.gpuIndex)
    {
      assert section[i] in kept;
    }
  }

  /** When every insert succeeds there is one row per GPU, rate-limited or not. */
  lemma {:induction false} AllKept(rows: seq<GpuRow>, ok: seq<bool>)
    requires |ok| == |rows| && Enumerated(rows) && forall i :: 0 <= i < |ok| ==> ok[i]
    ensures |Kept(rows, ok)| == |rows|
    ensures forall i :: 0 <= i < |rows| ==> Kept(rows, ok)[i] == GpuEntry(GpuUid(i), rows[i])
  {
    if rows != [] {
      AllKept(rows[..|rows| - 1], ok[..|rows| - 1]);
    }
  }

  // ---- From the engine calls of a poll to the snapshot ----

  function Outcomes(fate: nat -> Fate, first: nat, count: nat): (ok: seq<bool>)
    ensures |ok| == count && forall i :: 0 <= i < count ==> ok[i] == fate(first + i).Succeeds?
  {
    if count == 0 then [] else Outcomes(fate, first, count - 1) + [fate(first + count - 1).Succeeds?]
  }

  /** A poll outside a transaction, or inside one that no call of the poll rolls back. */
  predicate Undisturbed(conn: Conn, fate: nat -> Fate, first: nat, count: nat) {
    conn.inTransaction ==> forall i :: first <= i < first + count ==> !fate(i).FailsAndRollsBack?
  }

  lemma ExecuteWorks(conn: Conn, s: Stmt, fate: Fate)
    requires conn.inTransaction ==> !fate.FailsAndRollsBack?
    ensures var after := conn.Execute(s, fate).0;
            && after.inTransaction == conn.inTransaction
            && after.working == if fate.Succeeds? then Apply(s, conn.working) else conn.working
  {
  }

  lemma ExecuteLastWorks(conn: Conn, statements: seq<Stmt>, s: Stmt, fate: nat -> Fate, first: nat)
    requires Undisturbed(conn, fate, first, |statements| + 1)
    requires ExecuteEach(conn, statements, fate, first).inTransaction == conn.inTransaction
    ensures var before := ExecuteEach(conn, statements, fate, first);
            var after := ExecuteEach(conn, statements + [s], fate, first);
            && after.inTransaction == conn.inTransaction
            && after.working == if fate(first + |statements|).Succeeds? then Apply(s, before.working)
                                else before.working
  {
    ExecuteNext(conn, statements, s, fate, first);
    ExecuteWorks(ExecuteEach(conn, statements, fate, first), s, fate(first + |statements|));
  }

  /** The statements that succeed. */
  function Succeeded(statements: seq<Stmt>, ok: seq<bool>): seq<Stmt>
    requires |ok| == |statements|
  {
    if statements == [] then []
    else
      var n := |statements| - 1;
      Succeeded(statements[..n], ok[..n]) + if ok[n] then [statements[n]] else []
  }

  /** Failing statements are skipped: the working database is that of the others. */
  lemma {:induction false} ExecutedApply(conn: Conn, statements: seq<Stmt>, fate: nat -> Fate, first: nat)
    requires Undisturbed(conn, fate, first, |statements|)
    ensures var after := ExecuteEach(conn, statements, fate, first);
            && after.inTransaction == conn.inTransaction
            && after.working == ApplyAll(Succeeded(statements, Outcomes(fate, first, |statements|)), conn.working)
    decreases |statements|
  {
    if statements != [] {
      var n := |statements| - 1;
      var front, s := statements[..n], statements[n];
      ExecutedApply(conn, front, fate, first);
      assert statements == front + [s];
      ExecuteLastWorks(conn, front, s, fate, first);
      SucceededNext(front, s, fate, first, conn.working);
    }
  }

  lemma SucceededNext(statements: seq<Stmt>, s: Stmt, fate: nat -> Fate, first: nat, db: Db)
    ensures var n := |statements|;
            var front := ApplyAll(Succeeded(statements, Outcomes(fate, first, n)), db);
            ApplyAll(Succeeded(statements + [s], Outcomes(fate, first, n + 1)), db)
            == if fate(first + n).Succeeds? then Apply(s, front) else front
  {
    var n := |statements|;
    var front := Succeeded(statements, Outcomes(fate, first, n));
    assert Outcomes(fate, first, n + 1)[..n] == Outcomes(fate, first, n);
    assert (statements + [s])[..n] == statements;
    ApplyOne(front, s, db);
    assert front + [] == front;
  }

  lemma {:induction false} InsertedSucceeded(machineId: string, nowMs: int, rows: seq<GpuRow>, ok: seq<bool>)
    requires |ok| == |rows|
    ensures |InsertsOf(machineId, nowMs, rows)| == |rows|
    ensures Inserted(machineId, nowMs, rows, ok) == Succeeded(InsertsOf(machineId, nowMs, rows), ok)
  {
    InsertCount(machineId, nowMs, rows);
    if rows != [] {
      var n := |rows| - 1;
      InsertedSucceeded(machineId, nowMs, rows[..n], ok[..n]);
      assert rows[..n + 1] == rows;
      InsertNext(machineId, nowMs, rows, n);
      assert InsertsOf(machineId, nowMs, rows)[..n] == InsertsOf(machineId, nowMs, rows[..n]);
    }
  }

  /** The whole path: after the first k inserts of a poll, whichever of them failed, the snapshot lists
      exactly those that succeeded, in index order. */
  lemma SnapshotAfterInserts(conn: Conn, machineId: string, nowMs: int, rows: seq<GpuRow>,
                             fate: nat -> Fate, first: nat, section: seq<GpuEntry>)
    requires Undisturbed(conn, fate, first, |rows|) && Enumerated(rows)
    requires forall k :: k in conn.working.gpus && k.machineId == machineId ==> k.tsMs < nowMs
    requires Kept(rows, Outcomes(fate, first, |rows|)) != []
    ensures var after := ExecuteEach(conn, InsertsOf(machineId, nowMs, rows), fate, first);
            IsGpuSection(after.working, machineId, section) <==>
              section == Kept(rows, Outcomes(fate, first, |rows|))
  {
    InsertedSucceeded(machineId, nowMs, rows, Outcomes(fate, first, |rows|));
    ExecutedApply(conn, InsertsOf(machineId, nowMs, rows), fate, first);
    PollShowsInSnapshot(conn.working, machineId, nowMs, rows, Outcomes(fate, first, |rows|), section);
  }

  /** The rows of a poll carry their position as index, so the lemmas above apply to every poll. */
  lemma {:induction false} PolledRowsAreEnumerated(samples: seq<Snapshot>, names: seq<string>)
    requires forall i :: 0 <= i < |samples| ==> samples[i].gpuIndex == i
    ensures |RowsOf(samples, names)| == |samples| && Enumerated(RowsOf(samples, names))
  {
    if samples != [] {
      PolledRowsAreEnumerated(samples[..|samples| - 1], names);
    }
  }
}
