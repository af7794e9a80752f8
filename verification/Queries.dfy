/** The read queries over samples and GPU rows, and how they relate. */
module Queries {
  import opened Database
  import opened Readiness
  import opened Wrappers

  // ---- Sensor history ----

  datatype HistoryRow = HistoryRow(tsMs: int, row: SampleRow)

  function TimesInRange(db: Db, uid: string, fromMs: int, toMs: int): set<int> {
    set k | k in db.samples && k.sensorUid == uid && fromMs <= k.tsMs <= toMs :: k.tsMs
  }

  /** What the history query promises: stored rows in range, newest first, at most `limit` of them when
      the limit is not negative, and nothing left out except what is older than all of them. */
  ghost predicate IsHistory(db: Db, uid: string, fromMs: int, toMs: int, limit: int, rows: seq<HistoryRow>) {
    && (forall i, j :: 0 <= i < j < |rows| ==> rows[i].tsMs > rows[j].tsMs)
    && (forall i :: 0 <= i < |rows| ==>
          && rows[i].tsMs in TimesInRange(db, uid, fromMs, toMs)
          && rows[i].row == db.samples[SampleKey(uid, rows[i].tsMs)])
    && (limit >= 0 ==> |rows| <= limit)
    && (forall t :: t in TimesInRange(db, uid, fromMs, toMs) && (forall i :: 0 <= i < |rows| ==> rows[i].tsMs != t) ==>
          limit == |rows| && forall i :: 0 <= i < |rows| ==> t < rows[i].tsMs)
  }

  lemma {:induction false} SetHasMaximum(s: set<int>, member: int)
    requires member in s
    ensures exists t :: t in s && forall u :: u in s ==> u <= t
    decreases |s|
  {
    if u :| u in s && u > member {
      var rest := s - {member};
      SetHasMaximum(rest, u);
      var t :| t in rest && forall v :: v in rest ==> v <= t;
      forall v | v in s
        ensures v <= t
      {
        assert u in rest && (v in rest || v == member);
      }
    }
  }

  /** Midway through the query: `rows` are the times not in `remaining`, newest first. */
  ghost predicate IsFetched(db: Db, uid: string, times: set<int>, rows: seq<HistoryRow>, remaining: set<int>) {
    && remaining <= times
    && (forall i, j :: 0 <= i < j < |rows| ==> rows[i].tsMs > rows[j].tsMs)
    && (forall i :: 0 <= i < |rows| ==> rows[i].tsMs in times && IsStored(db, uid, rows[i]))
    && (forall i, t :: 0 <= i < |rows| && t in remaining ==> t < rows[i].tsMs)
    && (forall t :: t in times && t !in remaining ==> exists i :: 0 <= i < |rows| && rows[i].tsMs == t)
  }

  predicate IsStored(db: Db, uid: string, row: HistoryRow) {
    SampleKey(uid, row.tsMs) in db.samples && db.samples[SampleKey(uid, row.tsMs)] == row.row
  }

  lemma FetchNewest(db: Db, uid: string, times: set<int>, rows: seq<HistoryRow>, remaining: set<int>,
                    newest: HistoryRow)
    requires IsFetched(db, uid, times, rows, remaining) && IsStored(db, uid, newest)
    requires newest.tsMs in remaining && forall u :: u in remaining ==> u <= newest.tsMs
    ensures IsFetched(db, uid, times, rows + [newest], remaining - {newest.tsMs})
  {
    var after := rows + [newest];
    forall t | t in times && t !in remaining - {newest.tsMs}
      ensures exists i :: 0 <= i < |after| && after[i].tsMs == t
    {
      if t == newest.tsMs {
        assert after[|rows|].tsMs == t;
      } else {
        var i :| 0 <= i < |rows| && rows[i].tsMs == t;
        assert after[i].tsMs == t;
      }
    }
  }

  lemma FetchedIsHistory(db: Db, uid: string, fromMs: int, toMs: int, limit: int, rows: seq<HistoryRow>,
                         remaining: set<int>)
    requires IsFetched(db, uid, TimesInRange(db, uid, fromMs, toMs), rows, remaining)
    requires limit >= 0 ==> |rows| <= limit
    requires remaining == {} || |rows| == limit
    ensures IsHistory(db, uid, fromMs, toMs, limit, rows)
  {
  }

  /** Each step of the cursor is the newest row not yet returned. */
  method QuerySensorHistory(db: Db, uid: string, fromMs: int, toMs: int, limit: int)
    returns (rows: seq<HistoryRow>)
    ensures IsHistory(db, uid, fromMs, toMs, limit, rows)
  {
    rows := [];
    ghost var times := TimesInRange(db, uid, fromMs, toMs);
    var remaining := TimesInRange(db, uid, fromMs, toMs);
    while remaining != {} && (limit < 0 || |rows| < limit)
      invariant IsFetched(db, uid, times, rows, remaining)
      invariant limit >= 0 ==> |rows| <= limit
      decreases |remaining|
    {
      ghost var member :| member in remaining;
      SetHasMaximum(remaining, member);
      var newest :| newest in remaining && forall u :: u in remaining ==> u <= newest;
      assert newest in times;
      var row := HistoryRow(newest, db.samples[SampleKey(uid, newest)]);
      FetchNewest(db, uid, times, rows, remaining, row);
      rows, remaining := rows + [row], remaining - {newest};
    }
    FetchedIsHistory(db, uid, fromMs, toMs, limit, rows, remaining);
  }

  /** There is a time in range older than all of these rows. */
  predicate HasOlder(db: Db, uid: string, fromMs: int, toMs: int, rows: seq<HistoryRow>) {
    exists t :: t in TimesInRange(db, uid, fromMs, toMs) && forall i :: 0 <= i < |rows| ==> t < rows[i].tsMs
  }

  lemma LongerHasOlder(db: Db, uid: string, fromMs: int, toMs: int, limit: int, rows: seq<HistoryRow>, n: nat)
    requires IsHistory(db, uid, fromMs, toMs, limit, rows) && n <= |rows|
    ensures n < |rows| ==> HasOlder(db, uid, fromMs, toMs, rows[..n])
  {
    if n < |rows| {
      var t := rows[n].tsMs;
      assert t in TimesInRange(db, uid, fromMs, toMs) && forall i :: 0 <= i < n ==> t < rows[..n][i].tsMs;
    }
  }

  lemma OlderMeansFull(db: Db, uid: string, fromMs: int, toMs: int, limit: int, rows: seq<HistoryRow>)
    requires IsHistory(db, uid, fromMs, toMs, limit, rows)
    ensures HasOlder(db, uid, fromMs, toMs, rows) ==> limit == |rows|
  {
  }

  lemma SameLength(db: Db, uid: string, fromMs: int, toMs: int, limit: int,
                   short: seq<HistoryRow>, long: seq<HistoryRow>)
    requires IsHistory(db, uid, fromMs, toMs, limit, short) && IsHistory(db, uid, fromMs, toMs, limit, long)
    requires |short| <= |long| && short == long[..|short|]
    ensures |short| == |long|
  {
    LongerHasOlder(db, uid, fromMs, toMs, limit, long, |short|);
    OlderMeansFull(db, uid, fromMs, toMs, limit, short);
  }

  /** The promise leaves no freedom: two answers to one query are equal. */
  lemma HistoryIsDetermined(db: Db, uid: string, fromMs: int, toMs: int, limit: int,
                            a: seq<HistoryRow>, b: seq<HistoryRow>)
    requires IsHistory(db, uid, fromMs, toMs, limit, a) && IsHistory(db, uid, fromMs, toMs, limit, b)
    ensures a == b
  {
    var (short, long) := if |a| <= |b| then (a, b) else (b, a);
    HistoriesAgree(db, uid, fromMs, toMs, limit, short, long, |short|);
    assert short[..|short|] == short && long[..|long|] == long;
    SameLength(db, uid, fromMs, toMs, limit, short, long);
  }

  lemma {:induction false} HistoriesAgree(db: Db, uid: string, fromMs: int, toMs: int, limit: int,
                                          a: seq<HistoryRow>, b: seq<HistoryRow>, n: nat)
    requires IsHistory(db, uid, fromMs, toMs, limit, a) && IsHistory(db, uid, fromMs, toMs, limit, b)
    requires n <= |a| && n <= |b|
    ensures a[..n] == b[..n]
    decreases n
  {
    if n > 0 {
      HistoriesAgree(db, uid, fromMs, toMs, limit, a, b, n - 1);
      SameNextTime(db, uid, fromMs, toMs, limit, a, b, n - 1);
      ExtendSame(a, b, n - 1);
    }
  }

  lemma ExtendSame(a: seq<HistoryRow>, b: seq<HistoryRow>, n: nat)
    requires n < |a| && n < |b| && a[..n] == b[..n] && a[n] == b[n]
    ensures a[..n + 1] == b[..n + 1]
  {
    assert a[..n + 1] == a[..n] + [a[n]] && b[..n + 1] == b[..n] + [b[n]];
  }

  lemma SameNextTime(db: Db, uid: string, fromMs: int, toMs: int, limit: int,
                     a: seq<HistoryRow>, b: seq<HistoryRow>, n: nat)
    requires IsHistory(db, uid, fromMs, toMs, limit, a) && IsHistory(db, uid, fromMs, toMs, limit, b)
    requires n < |a| && n < |b| && a[..n] == b[..n]
    ensures a[n] == b[n]
  {
    assert forall i :: 0 <= i < n ==> a[i] == a[..n][i] == b[..n][i] == b[i];
    NextTimeAtLeast(db, uid, fromMs, toMs, limit, a, b[n].tsMs, n);
    NextTimeAtLeast(db, uid, fromMs, toMs, limit, b, a[n].tsMs, n);
  }

  lemma NextTimeAtLeast(db: Db, uid: string, fromMs: int, toMs: int, limit: int, rows: seq<HistoryRow>,
                        t: int, n: nat)
    requires IsHistory(db, uid, fromMs, toMs, limit, rows) && n < |rows|
    requires t in TimesInRange(db, uid, fromMs, toMs)
    requires forall i :: 0 <= i < n ==> rows[i].tsMs != t
    ensures t <= rows[n].tsMs
  {
    if i :| n <= i < |rows| && rows[i].tsMs == t {
    } else {
      assert forall i :: 0 <= i < |rows| ==> rows[i].tsMs != t;
    }
  }

  /** The limit of the history endpoint: 500 by default, never above 10000. */
  function HistoryLimit(parameter: Option<int>): (limit: int)
    ensures 1 <= limit <= 10000
    ensures parameter.Some? && 1 <= parameter.value <= 10000 ==> limit == parameter.value
    ensures parameter.Some? && parameter.value > 10000 ==> limit == 10000
    ensures parameter.None? || parameter.value <= 0 ==> limit == 500
  {
    if parameter.None? || parameter.value <= 0 then 500
    else if parameter.value > 10000 then 10000
    else parameter.value
  }

  // ---- The view of latest samples ----

  /** The keys of `latest_sensor_samples`: per sensor, the row at its greatest time. */
  function LatestSamples(db: Db): set<SampleKey> {
    set k | k in db.samples
            && forall other :: other in db.samples && other.sensorUid == k.sensorUid ==> other.tsMs <= k.tsMs
  }

  /** History over a range that spans all of a sensor's samples starts with the sensor's one row in the
      view, and is empty exactly when the sensor is not in the view. */
  lemma HistoryStartsWithLatest(db: Db, uid: string, fromMs: int, toMs: int, limit: int, rows: seq<HistoryRow>)
    requires IsHistory(db, uid, fromMs, toMs, limit, rows) && limit != 0
    requires forall k :: k in db.samples && k.sensorUid == uid ==> fromMs <= k.tsMs <= toMs
    ensures rows != [] ==> forall k :: k in LatestSamples(db) && k.sensorUid == uid <==>
                                   k == SampleKey(uid, rows[0].tsMs)
    ensures rows == [] ==> forall k :: k in LatestSamples(db) ==> k.sensorUid != uid
  {
    var times := TimesInRange(db, uid, fromMs, toMs);
    assert forall k :: k in db.samples && k.sensorUid == uid ==> k.tsMs in times;
    if rows != [] {
      forall t | t in times
        ensures t <= rows[0].tsMs
      {
        NextTimeAtLeast(db, uid, fromMs, toMs, limit, rows, t, 0);
      }
    }
  }

  // ---- The GPU section of the snapshot ----

  datatype GpuEntry = GpuEntry(gpuUid: string, gpu: GpuRow)

  /** The machine's GPU rows at its latest GPU sample time. */
  ghost predicate IsLatestGpu(db: Db, machineId: string, entry: GpuEntry) {
    exists ts :: && IsLatestGpuTime(db, machineId, ts)
                 && GpuKey(machineId, entry.gpuUid, ts) in db.gpus
                 && db.gpus[GpuKey(machineId, entry.gpuUid, ts)] == entry.gpu
  }

  ghost predicate IsLatestGpuTime(db: Db, machineId: string, ts: int) {
    && (exists k :: k in db.gpus && k.machineId == machineId && k.tsMs == ts)
    && (forall k :: k in db.gpus && k.machineId == machineId ==> k.tsMs <= ts)
  }

  /** What the query may return: those rows, each once, ordered by `gpu_index`. */
  ghost predicate IsGpuSection(db: Db, machineId: string, rows: seq<GpuEntry>) {
    && (forall entry :: entry in rows <==> IsLatestGpu(db, machineId, entry))
    && (forall i, j :: 0 <= i < j < |rows| ==> rows[i].gpuUid != rows[j].gpuUid)
    && (forall i, j :: 0 <= i < j < |rows| ==> rows[i].gpu.gpuIndex <= rows[j].gpu.gpuIndex)
  }

  function SnapshotRow(entry: GpuEntry): GpuSnapshotRow {
    var g := entry.gpu;
    GpuSnapshotRow(g.gpuIndex, OrZero(g.gpuName, ""), g.coreC, g.hotspotC, g.utilGpuPct,
                   g.vramUsedBytes, g.vramTotalBytes, g.powerW)
  }

  function SnapshotRows(entries: seq<GpuEntry>): seq<GpuSnapshotRow> {
    if entries == [] then []
    else SnapshotRows(entries[..|entries| - 1]) + [SnapshotRow(entries[|entries| - 1])]
  }

  /** The snapshot's row has the columns of the stored one; an unknown name is shown as the empty text. */
  predicate Copies(row: GpuSnapshotRow, g: GpuRow) {
    && row.gpuIndex == g.gpuIndex && row.gpuName == (if g.gpuName.Some? then g.gpuName.value else "")
    && row.coreC == g.coreC && row.hotspotC == g.hotspotC && row.utilGpuPct == g.utilGpuPct
    && row.vramUsedBytes == g.vramUsedBytes && row.vramTotalBytes == g.vramTotalBytes && row.powerW == g.powerW
  }

  lemma {:induction false} SnapshotRowsCopy(entries: seq<GpuEntry>)
    ensures |SnapshotRows(entries)| == |entries|
    ensures forall i :: 0 <= i < |entries| ==> Copies(SnapshotRows(entries)[i], entries[i].gpu)
  {
    if entries != [] {
      SnapshotRowsCopy(entries[..|entries| - 1]);
    }
  }
}
