/** The readiness verdict: staleness, fit, utilisation tier, and the GPU summary beside it. */
module Readiness {
  import opened Database
  import opened Decimals
  import opened JsonTree
  import opened Wrappers

  datatype HealthRow = HealthRow(collectorId: string, row: CollectorRow)

  /** A GPU as the snapshot query returns it. */
  datatype GpuSnapshotRow = GpuSnapshotRow(
    gpuIndex: int, gpuName: string, coreC: Option<real>, hotspotC: Option<real>,
    utilGpuPct: Option<real>, vramUsedBytes: Option<int>, vramTotalBytes: Option<int>,
    powerW: Option<real>)

  datatype Verdict = Stale | Unknown | InsufficientVram | FitsIdle | FitsAvailable | FitsBusy {
    predicate Fits() {
      FitsIdle? || FitsAvailable? || FitsBusy?
    }

    function Tier(): nat {
      if FitsIdle? then 0 else if FitsAvailable? then 1 else 2
    }
  }

  datatype Summary = Summary(maxUtilPct: real, maxTemperatureC: real, totalPowerW: real,
                             vramFreeBytes: int, vramTotalBytes: int)

  const STALE_THRESHOLD_MS: int := 30000

  // ---- The quantities the handler accumulates ----

  function Max(a: real, b: real): real {
    if a < b then b else a
  }

  function OrZero<T>(x: Option<T>, zero: T): T {
    if x.Some? then x.value else zero
  }

  function MaxOf(gpus: seq<GpuSnapshotRow>, column: GpuSnapshotRow -> Option<real>): real {
    if gpus == [] then 0.0
    else
      var rest := MaxOf(gpus[..|gpus| - 1], column);
      match column(gpus[|gpus| - 1])
      case Some(x) => Max(rest, x)
      case None => rest
  }

  const UTIL: GpuSnapshotRow -> Option<real> := (g: GpuSnapshotRow) => g.utilGpuPct
  const CORE: GpuSnapshotRow -> Option<real> := (g: GpuSnapshotRow) => g.coreC

  predicate KnowsVram(gpu: GpuSnapshotRow) {
    gpu.vramTotalBytes.Some? && gpu.vramUsedBytes.Some?
  }

  /** Free bytes of one GPU; nothing when either figure is missing. */
  function FreeOf(gpu: GpuSnapshotRow): int {
    if KnowsVram(gpu) then gpu.vramTotalBytes.value - gpu.vramUsedBytes.value else 0
  }

  function FreeVram(gpus: seq<GpuSnapshotRow>): int {
    if gpus == [] then 0 else FreeVram(gpus[..|gpus| - 1]) + FreeOf(gpus[|gpus| - 1])
  }

  function TotalVram(gpus: seq<GpuSnapshotRow>): int {
    if gpus == [] then 0
    else TotalVram(gpus[..|gpus| - 1]) + OrZero(gpus[|gpus| - 1].vramTotalBytes, 0)
  }

  function TotalPower(gpus: seq<GpuSnapshotRow>): real {
    if gpus == [] then 0.0
    else TotalPower(gpus[..|gpus| - 1]) + OrZero(gpus[|gpus| - 1].powerW, 0.0)
  }

  predicate AnyVram(gpus: seq<GpuSnapshotRow>) {
    exists gpu :: gpu in gpus && KnowsVram(gpu)
  }

  /** The time found by the loop that stops at the first row of `source` that has a sample time. */
  function FirstSample(rows: seq<HealthRow>, source: string): Option<int> {
    if rows == [] then None
    else if rows[0].row.source == source && rows[0].row.lastSampleMs.Some? then rows[0].row.lastSampleMs
    else FirstSample(rows[1..], source)
  }

  predicate TooOld(time: Option<int>, now: int) {
    time.None? || now - time.value > STALE_THRESHOLD_MS
  }

  // ---- The verdict ----

  function TierOf(maxUtil: real): Verdict {
    if maxUtil < 30.0 then FitsIdle else if maxUtil < 80.0 then FitsAvailable else FitsBusy
  }

  function FreshVerdict(gpus: seq<GpuSnapshotRow>, requiredVram: int): Verdict {
    if !AnyVram(gpus) then Unknown
    else if requiredVram > 0 && FreeVram(gpus) < requiredVram then InsufficientVram
    else TierOf(MaxOf(gpus, UTIL))
  }

  function VerdictOf(gpus: seq<GpuSnapshotRow>, rows: seq<HealthRow>, now: int, requiredVram: int): Verdict {
    if gpus == [] then
      if TooOld(FirstSample(rows, "librehw_bridge"), now) then Stale else Unknown
    else if TooOld(FirstSample(rows, "direct_gpu"), now) then Stale
    else FreshVerdict(gpus, requiredVram)
  }

  function ReasonsOf(gpus: seq<GpuSnapshotRow>, verdict: Verdict, requiredVram: int): seq<string> {
    match verdict
    case Stale => [if gpus == [] then "no recent sensor data" else "GPU data is stale"]
    case Unknown => [if gpus == [] then "no GPU collector data available" else "no VRAM data available"]
    case InsufficientVram =>
      ["required " + IntString(requiredVram) + " bytes but only " + IntString(FreeVram(gpus)) + " free"]
    case FitsBusy => ["GPU utilization at " + IntString(Truncate(MaxOf(gpus, UTIL))) + "%"]
    case _ => []
  }

  function SummaryOf(gpus: seq<GpuSnapshotRow>): Summary {
    Summary(MaxOf(gpus, UTIL), MaxOf(gpus, CORE), TotalPower(gpus), FreeVram(gpus), TotalVram(gpus))
  }

  // ---- What is promised of the answer ----

  predicate Sampled(row: HealthRow, source: string) {
    row.row.source == source && row.row.lastSampleMs.Some?
  }

  /** The first row of the source with a sample time has one at most 30 s old. */
  predicate Fresh(rows: seq<HealthRow>, source: string, now: int) {
    exists i :: && 0 <= i < |rows| && Sampled(rows[i], source)
                && now - rows[i].row.lastSampleMs.value <= 30_000
                && forall j :: 0 <= j < i ==> !Sampled(rows[j], source)
  }

  /** The highest of the known values in a column that holds percentages or temperatures, and zero when
      none is above it. */
  predicate IsMaxOf(best: real, gpus: seq<GpuSnapshotRow>, column: GpuSnapshotRow -> Option<real>) {
    && best >= 0.0
    && (best > 0.0 ==> exists gpu :: gpu in gpus && column(gpu) == Some(best))
    && forall gpu :: gpu in gpus && column(gpu).Some? ==> column(gpu).value <= best
  }

  predicate AllBelow(gpus: seq<GpuSnapshotRow>, limit: real) {
    forall gpu :: gpu in gpus && gpu.utilGpuPct.Some? ==> gpu.utilGpuPct.value < limit
  }

  predicate SomeVramKnown(gpus: seq<GpuSnapshotRow>) {
    exists gpu :: gpu in gpus && gpu.vramTotalBytes.Some? && gpu.vramUsedBytes.Some?
  }

  /** The summary's totals are additive in the GPUs, which `TotalsAreAdditive` spells out. */
  ghost predicate IsSummary(s: Summary, gpus: seq<GpuSnapshotRow>) {
    && IsMaxOf(s.maxUtilPct, gpus, (gpu: GpuSnapshotRow) => gpu.utilGpuPct)
    && IsMaxOf(s.maxTemperatureC, gpus, (gpu: GpuSnapshotRow) => gpu.coreC)
    && s.totalPowerW == TotalPower(gpus)
    && s.vramFreeBytes == FreeVram(gpus) && s.vramTotalBytes == TotalVram(gpus)
  }

  /** When each verdict is given. */
  predicate IsVerdict(verdict: Verdict, gpus: seq<GpuSnapshotRow>, rows: seq<HealthRow>, now: int,
                      requiredVram: int, freeVram: int) {
    var judged := gpus != [] && Fresh(rows, "direct_gpu", now);
    var known := judged && SomeVramKnown(gpus);
    var room := known && (requiredVram <= 0 || requiredVram <= freeVram);
    && (verdict.Stale? <==> if gpus == [] then !Fresh(rows, "librehw_bridge", now) else !judged)
    && (verdict.Unknown? <==> if gpus == [] then Fresh(rows, "librehw_bridge", now) else judged && !known)
    && (verdict.InsufficientVram? <==> known && requiredVram > 0 && requiredVram > freeVram)
    && (verdict.FitsIdle? <==> room && AllBelow(gpus, 30.0))
    && (verdict.FitsAvailable? <==> room && !AllBelow(gpus, 30.0) && AllBelow(gpus, 80.0))
    && (verdict.FitsBusy? <==> room && !AllBelow(gpus, 80.0))
  }

  /** Which reason goes with each verdict. */
  predicate IsReason(reasons: seq<string>, verdict: Verdict, noGpus: bool, requiredVram: int, freeVram: int,
                     maxUtilPct: real) {
    && (verdict.Stale? && noGpus ==> reasons == ["no recent sensor data"])
    && (verdict.Stale? && !noGpus ==> reasons == ["GPU data is stale"])
    && (verdict.Unknown? && noGpus ==> reasons == ["no GPU collector data available"])
    && (verdict.Unknown? && !noGpus ==> reasons == ["no VRAM data available"])
    && (verdict.InsufficientVram? ==>
          reasons == ["required " + IntString(requiredVram) + " bytes but only " + IntString(freeVram) + " free"])
    && (verdict.FitsIdle? || verdict.FitsAvailable? ==> reasons == [])
    && (verdict.FitsBusy? ==> reasons == ["GPU utilization at " + IntString(maxUtilPct.Floor) + "%"])
  }

  lemma {:induction false} FreshIff(rows: seq<HealthRow>, source: string, now: int)
    ensures Fresh(rows, source, now) <==> !TooOld(FirstSample(rows, source), now)
  {
    if rows != [] {
      FreshIff(rows[1..], source, now);
      FreshFirst(rows, source, now);
    }
  }

  lemma FreshFirst(rows: seq<HealthRow>, source: string, now: int)
    requires rows != []
    ensures Fresh(rows, source, now) <==>
              if Sampled(rows[0], source) then now - rows[0].row.lastSampleMs.value <= 30_000
              else Fresh(rows[1..], source, now)
  {
    if !Sampled(rows[0], source) && Fresh(rows[1..], source, now) {
      var i :| && 0 <= i < |rows[1..]| && Sampled(rows[1..][i], source)
               && now - rows[1..][i].row.lastSampleMs.value <= 30_000
               && forall j :: 0 <= j < i ==> !Sampled(rows[1..][j], source);
      var k := i + 1;
      assert rows[k] == rows[1..][i];
      forall j | 0 <= j < k ensures !Sampled(rows[j], source) {
        if j > 0 {
          assert rows[j] == rows[1..][j - 1];
        }
      }
    }
    if !Sampled(rows[0], source) && Fresh(rows, source, now) {
      var i :| && 0 <= i < |rows| && Sampled(rows[i], source)
               && now - rows[i].row.lastSampleMs.value <= 30_000
               && forall j :: 0 <= j < i ==> !Sampled(rows[j], source);
      var m := i - 1;
      assert rows[1..][m] == rows[i];
      assert forall j :: 0 <= j < m ==> rows[1..][j] == rows[j + 1];
    }
  }

  lemma VerdictIsPromised(gpus: seq<GpuSnapshotRow>, rows: seq<HealthRow>, now: int, requiredVram: int)
    ensures IsVerdict(VerdictOf(gpus, rows, now, requiredVram), gpus, rows, now, requiredVram, FreeVram(gpus))
  {
    FreshIff(rows, "direct_gpu", now);
    FreshIff(rows, "librehw_bridge", now);
    assert AnyVram(gpus) <==> SomeVramKnown(gpus);
    BelowMeansAllBelow(gpus, 30.0);
    BelowMeansAllBelow(gpus, 80.0);
  }

  lemma SummaryIsPromised(gpus: seq<GpuSnapshotRow>)
    ensures IsSummary(SummaryOf(gpus), gpus)
  {
    var util, core := (gpu: GpuSnapshotRow) => gpu.utilGpuPct, (gpu: GpuSnapshotRow) => gpu.coreC;
    SameColumn(gpus, UTIL, util);
    SameColumn(gpus, CORE, core);
    MaxOfIsMax(gpus, util);
    MaxOfIsMax(gpus, core);
  }

  lemma {:induction false} SameColumn(gpus: seq<GpuSnapshotRow>, a: GpuSnapshotRow -> Option<real>,
                                      b: GpuSnapshotRow -> Option<real>)
    requires forall gpu :: a(gpu) == b(gpu)
    ensures MaxOf(gpus, a) == MaxOf(gpus, b)
  {
    if gpus != [] {
      SameColumn(gpus[..|gpus| - 1], a, b);
    }
  }

  /** The totals by their values on none, on one and on two lists of GPUs. */
  lemma TotalsAreAdditive(a: seq<GpuSnapshotRow>, b: seq<GpuSnapshotRow>, gpu: GpuSnapshotRow)
    ensures FreeVram([]) == 0 && TotalVram([]) == 0 && TotalPower([]) == 0.0
    ensures FreeVram([gpu]) == if gpu.vramTotalBytes.Some? && gpu.vramUsedBytes.Some?
                               then gpu.vramTotalBytes.value - gpu.vramUsedBytes.value else 0
    ensures TotalVram([gpu]) == if gpu.vramTotalBytes.Some? then gpu.vramTotalBytes.value else 0
    ensures TotalPower([gpu]) == if gpu.powerW.Some? then gpu.powerW.value else 0.0
    ensures FreeVram(a + b) == FreeVram(a) + FreeVram(b)
    ensures TotalVram(a + b) == TotalVram(a) + TotalVram(b)
    ensures TotalPower(a + b) == TotalPower(a) + TotalPower(b)
  {
    assert [gpu][..0] == [];
    TotalsOfConcat(a, b);
  }

  lemma {:induction false} TotalsOfConcat(a: seq<GpuSnapshotRow>, b: seq<GpuSnapshotRow>)
    ensures FreeVram(a + b) == FreeVram(a) + FreeVram(b)
    ensures TotalVram(a + b) == TotalVram(a) + TotalVram(b)
    ensures TotalPower(a + b) == TotalPower(a) + TotalPower(b)
    decreases |b|
  {
    if b == [] {
      assert a + b == a;
    } else {
      var front := b[..|b| - 1];
      TotalsOfConcat(a, front);
      assert (a + b)[..|a + b| - 1] == a + front;
    }
  }

  // ---- The handler ----

  method FindSample(rows: seq<HealthRow>, source: string) returns (time: Option<int>)
    ensures time == FirstSample(rows, source)
  {
    time := None;
    for i := 0 to |rows|
      invariant time.None? && FirstSample(rows, source) == FirstSample(rows[i..], source)
    {
      assert rows[i..][1..] == rows[i + 1..];
      if rows[i].row.source == source && rows[i].row.lastSampleMs.Some? {
        time := rows[i].row.lastSampleMs;
        break;
      }
    }
  }

  method Fit(gpus: seq<GpuSnapshotRow>, requiredVram: int) returns (verdict: Verdict, reasons: seq<string>)
    requires gpus != []
    ensures verdict == FreshVerdict(gpus, requiredVram)
    ensures reasons == ReasonsOf(gpus, verdict, requiredVram)
  {
    var maxUtil, totalFree, hasVram := 0.0, 0, false;
    for i := 0 to |gpus|
      invariant maxUtil == MaxOf(gpus[..i], UTIL) && totalFree == FreeVram(gpus[..i])
      invariant hasVram == AnyVram(gpus[..i])
    {
      var gpu := gpus[i];
      assert gpus[..i + 1] == gpus[..i] + [gpu];
      if gpu.utilGpuPct.Some? {
        maxUtil := Max(maxUtil, gpu.utilGpuPct.value);
      }
      if gpu.vramTotalBytes.Some? && gpu.vramUsedBytes.Some? {
        hasVram := true;
        totalFree := totalFree + (gpu.vramTotalBytes.value - gpu.vramUsedBytes.value);
        assert gpu in gpus[..i + 1] && KnowsVram(gpu);
      }
    }
    assert gpus[..|gpus|] == gpus;
    if !hasVram {
      verdict, reasons := Unknown, ["no VRAM data available"];
    } else if requiredVram > 0 && totalFree < requiredVram {
      verdict := InsufficientVram;
      reasons := ["required " + IntString(requiredVram) + " bytes but only " + IntString(totalFree) + " free"];
    } else if maxUtil < 30.0 {
      verdict, reasons := FitsIdle, [];
    } else if maxUtil < 80.0 {
      verdict, reasons := FitsAvailable, [];
    } else {
      verdict, reasons := FitsBusy, ["GPU utilization at " + IntString(Truncate(maxUtil)) + "%"];
    }
  }

  method Summarize(gpus: seq<GpuSnapshotRow>) returns (summary: Summary)
    ensures summary == SummaryOf(gpus)
  {
    var maxUtil, maxTemp, totalPower := 0.0, 0.0, 0.0;
    var vramFree, vramTotal := 0, 0;
    for i := 0 to |gpus|
      invariant Summary(maxUtil, maxTemp, totalPower, vramFree, vramTotal) == SummaryOf(gpus[..i])
    {
      var gpu := gpus[i];
      assert gpus[..i + 1][..i] == gpus[..i];
      if gpu.utilGpuPct.Some? {
        maxUtil := Max(maxUtil, gpu.utilGpuPct.value);
      }
      if gpu.coreC.Some? {
        maxTemp := Max(maxTemp, gpu.coreC.value);
      }
      if gpu.powerW.Some? {
        totalPower := totalPower + gpu.powerW.value;
      }
      if gpu.vramTotalBytes.Some? {
        vramTotal := vramTotal + gpu.vramTotalBytes.value;
      }
      if gpu.vramUsedBytes.Some? && gpu.vramTotalBytes.Some? {
        vramFree := vramFree + (gpu.vramTotalBytes.value - gpu.vramUsedBytes.value);
      }
    }
    assert gpus[..|gpus|] == gpus;
    summary := Summary(maxUtil, maxTemp, totalPower, vramFree, vramTotal);
  }

  /** The free figure behind the verdict and its reason is the summary's free figure, although two
      separate loops compute them. */
  method Readiness(gpus: seq<GpuSnapshotRow>, rows: seq<HealthRow>, now: int, requiredVram: int)
    returns (verdict: Verdict, reasons: seq<string>, summary: Option<Summary>)
    ensures verdict == VerdictOf(gpus, rows, now, requiredVram)
    ensures reasons == ReasonsOf(gpus, verdict, requiredVram)
    ensures summary == if gpus == [] then None else Some(SummaryOf(gpus))
    ensures summary.None? <==> gpus == []
    ensures summary.Some? ==> IsSummary(summary.value, gpus)
    ensures IsVerdict(verdict, gpus, rows, now, requiredVram, if summary.Some? then summary.value.vramFreeBytes else 0)
    ensures IsReason(reasons, verdict, gpus == [], requiredVram,
                     if summary.Some? then summary.value.vramFreeBytes else 0,
                     if summary.Some? then summary.value.maxUtilPct else 0.0)
  {
    VerdictIsPromised(gpus, rows, now, requiredVram);
    SummaryIsPromised(gpus);
    var gpuStale := true;
    var gpuTime := FindSample(rows, "direct_gpu");
    if gpuTime.Some? {
      gpuStale := now - gpuTime.value > STALE_THRESHOLD_MS;
    }
    if gpus == [] {
      var bridgeTime := FindSample(rows, "librehw_bridge");
      if bridgeTime.Some? {
        gpuStale := now - bridgeTime.value > STALE_THRESHOLD_MS;
      }
      if bridgeTime.None? || gpuStale {
        verdict, reasons := Stale, ["no recent sensor data"];
      } else {
        verdict, reasons := Unknown, ["no GPU collector data available"];
      }
      summary := None;
    } else {
      if gpuStale {
        verdict, reasons := Stale, ["GPU data is stale"];
      } else {
        verdict, reasons := Fit(gpus, requiredVram);
      }
      var s := Summarize(gpus);
      summary := Some(s);
    }
  }

  // ---- Laws ----

  /** A job that fits keeps its verdict when it asks for less. */
  lemma FittingIsDownwardClosed(gpus: seq<GpuSnapshotRow>, rows: seq<HealthRow>, now: int,
                                smaller: int, larger: int)
    requires smaller <= larger && VerdictOf(gpus, rows, now, larger).Fits()
    ensures VerdictOf(gpus, rows, now, smaller) == VerdictOf(gpus, rows, now, larger)
  {
  }

  /** `busier` is `gpus` with some utilisations raised or newly known, and the same memory. */
  predicate Busier(gpus: seq<GpuSnapshotRow>, busier: seq<GpuSnapshotRow>) {
    && |gpus| == |busier|
    && forall i :: 0 <= i < |gpus| ==>
         && gpus[i].vramUsedBytes == busier[i].vramUsedBytes
         && gpus[i].vramTotalBytes == busier[i].vramTotalBytes
         && (gpus[i].utilGpuPct.Some? ==>
               busier[i].utilGpuPct.Some? && gpus[i].utilGpuPct.value <= busier[i].utilGpuPct.value)
  }

  lemma {:induction false} BusierTotals(gpus: seq<GpuSnapshotRow>, busier: seq<GpuSnapshotRow>)
    requires Busier(gpus, busier)
    ensures MaxOf(gpus, UTIL) <= MaxOf(busier, UTIL)
    ensures FreeVram(gpus) == FreeVram(busier)
  {
    MaxIsNotNegative(gpus, UTIL);
    MaxIsNotNegative(busier, UTIL);
    if gpus != [] {
      MaxIsNotNegative(busier[..|busier| - 1], UTIL);
      BusierTotals(gpus[..|gpus| - 1], busier[..|busier| - 1]);
    }
  }

  lemma {:induction false} MaxIsNotNegative(gpus: seq<GpuSnapshotRow>, column: GpuSnapshotRow -> Option<real>)
    ensures MaxOf(gpus, column) >= 0.0
  {
    if gpus != [] {
      MaxIsNotNegative(gpus[..|gpus| - 1], column);
    }
  }

  lemma SameVramKnown(a: seq<GpuSnapshotRow>, b: seq<GpuSnapshotRow>)
    requires Busier(a, b)
    ensures AnyVram(a) <==> AnyVram(b)
  {
    if AnyVram(a) {
      var gpu :| gpu in a && KnowsVram(gpu);
      var i :| 0 <= i < |a| && a[i] == gpu;
      assert b[i] in b && KnowsVram(b[i]);
    }
    if AnyVram(b) {
      var gpu :| gpu in b && KnowsVram(gpu);
      var i :| 0 <= i < |b| && b[i] == gpu;
      assert a[i] in a && KnowsVram(a[i]);
    }
  }

  /** More utilisation never turns a misfit into a fit or a fit into a misfit, and never improves the tier. */
  lemma BusierNeverImproves(gpus: seq<GpuSnapshotRow>, busier: seq<GpuSnapshotRow>, rows: seq<HealthRow>,
                            now: int, requiredVram: int)
    requires Busier(gpus, busier)
    ensures var before, after := VerdictOf(gpus, rows, now, requiredVram), VerdictOf(busier, rows, now, requiredVram);
            if before.Fits() then after.Fits() && before.Tier() <= after.Tier() else after == before
  {
    BusierTotals(gpus, busier);
    SameVramKnown(gpus, busier);
  }

  // ---- Order of the GPUs ----

  lemma {:induction false} FreeVramWithout(gpus: seq<GpuSnapshotRow>, i: nat)
    requires i < |gpus|
    ensures FreeVram(gpus) == FreeVram(gpus[..i] + gpus[i + 1..]) + FreeOf(gpus[i])
    decreases |gpus|
  {
    var n := |gpus| - 1;
    if i == n {
      assert gpus[..i] + gpus[i + 1..] == gpus[..n];
    } else {
      FreeVramWithout(gpus[..n], i);
      var without := gpus[..i] + gpus[i + 1..];
      assert without[..|without| - 1] == gpus[..n][..i] + gpus[..n][i + 1..];
    }
  }

  lemma {:induction false} FreeVramIgnoresOrder(a: seq<GpuSnapshotRow>, b: seq<GpuSnapshotRow>)
    requires multiset(a) == multiset(b)
    ensures FreeVram(a) == FreeVram(b)
    decreases |a|
  {
    if a == [] {
      assert |multiset(b)| == 0;
    } else {
      var front, last := a[..|a| - 1], a[|a| - 1];
      assert a == front + [last];
      var i := FindInBag(b, last);
      FreeVramWithout(b, i);
      FreeVramIgnoresOrder(front, b[..i] + b[i + 1..]);
    }
  }

  lemma FindInBag(b: seq<GpuSnapshotRow>, gpu: GpuSnapshotRow) returns (i: nat)
    requires gpu in multiset(b)
    ensures i < |b| && b[i] == gpu && multiset(b[..i] + b[i + 1..]) == multiset(b) - multiset{gpu}
  {
    i :| 0 <= i < |b| && b[i] == gpu;
    assert b == b[..i] + [gpu] + b[i + 1..];
  }

  lemma {:induction false} MaxOfIsMax(gpus: seq<GpuSnapshotRow>, column: GpuSnapshotRow -> Option<real>)
    ensures IsMaxOf(MaxOf(gpus, column), gpus, column)
  {
    if gpus != [] {
      var front, last := gpus[..|gpus| - 1], gpus[|gpus| - 1];
      MaxOfIsMax(front, column);
      assert forall gpu :: gpu in gpus <==> gpu in front || gpu == last;
    }
  }

  predicate HasRoom(gpus: seq<GpuSnapshotRow>, requiredVram: int) {
    AnyVram(gpus) && (requiredVram <= 0 || requiredVram <= FreeVram(gpus))
  }

  lemma BelowMeansAllBelow(gpus: seq<GpuSnapshotRow>, limit: real)
    requires limit > 0.0
    ensures MaxOf(gpus, UTIL) < limit <==> AllBelow(gpus, limit)
  {
    MaxOfIsMax(gpus, UTIL);
    assert forall gpu: GpuSnapshotRow :: UTIL(gpu) == gpu.utilGpuPct;
  }

  /** What a fitting verdict says: GPU rows, a recent health row of the GPU collector and room; and then idle
      when every known utilisation is below 30, busy when some is not below 80, and available in between.
      It says nothing of the age of the GPU rows. */
  lemma FittingVerdictMeans(gpus: seq<GpuSnapshotRow>, rows: seq<HealthRow>, now: int, requiredVram: int)
    ensures var verdict := VerdictOf(gpus, rows, now, requiredVram);
            var fits := gpus != [] && !TooOld(FirstSample(rows, "direct_gpu"), now) && HasRoom(gpus, requiredVram);
            && (verdict.Fits() <==> fits)
            && (verdict.FitsIdle? <==> fits && AllBelow(gpus, 30.0))
            && (verdict.FitsAvailable? <==> fits && AllBelow(gpus, 80.0) && !AllBelow(gpus, 30.0))
            && (verdict.FitsBusy? <==> fits && !AllBelow(gpus, 80.0))
  {
    BelowMeansAllBelow(gpus, 30.0);
    BelowMeansAllBelow(gpus, 80.0);
  }

  /** The verdict does not depend on the order in which the GPUs are listed. */
  lemma VerdictIgnoresGpuOrder(a: seq<GpuSnapshotRow>, b: seq<GpuSnapshotRow>, rows: seq<HealthRow>,
                               now: int, requiredVram: int)
    requires multiset(a) == multiset(b)
    ensures VerdictOf(a, rows, now, requiredVram) == VerdictOf(b, rows, now, requiredVram)
  {
    assert forall gpu :: gpu in a <==> gpu in multiset(a);
    assert forall gpu :: gpu in b <==> gpu in multiset(b);
    assert |a| == |multiset(a)| == |multiset(b)| == |b|;
    FreeVramIgnoresOrder(a, b);
    MaxOfIsMax(a, UTIL);
    MaxOfIsMax(b, UTIL);
  }
}
