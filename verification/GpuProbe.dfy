/**
 The GPU probe: one rate-limit timestamp per GPU and tier, and the driver helpers each tier runs; and
 the reader that offers sampling modes on top of it.
 */
module GpuProbe {
  import opened CppArithmetic
  import opened Throttle
  import opened Wrappers

  datatype Tier = ThermalFast | Fast | Medium | Slow | Rare

  function IntervalOf(tier: Tier): (ns: int)
    ensures ns > 0
  {
    match tier
    case ThermalFast => 5 * MS
    case Fast => 16 * MS
    case Medium => 16 * MS
    case Slow => 100 * MS
    case Rare => 500 * MS
  }

  /** `last_poll` of one GPU. */
  datatype LastPoll = LastPoll(thermalFast: int, fast: int, medium: int, slow: int, rare: int) {
    function Get(tier: Tier): int {
      match tier
      case ThermalFast => thermalFast
      case Fast => fast
      case Medium => medium
      case Slow => slow
      case Rare => rare
    }

    function With(tier: Tier, time: int): LastPoll {
      match tier
      case ThermalFast => this.(thermalFast := time)
      case Fast => this.(fast := time)
      case Medium => this.(medium := time)
      case Slow => this.(slow := time)
      case Rare => this.(rare := time)
    }
  }

  const NEVER_POLLED: LastPoll := LastPoll(0, 0, 0, 0, 0)

  // ---- Snapshots and what the helpers write into them ----

  /** The fields of the snapshot that the collector stores. */
  datatype Snapshot = Snapshot(
    gpuIndex: int, coreC: real, memjnC: real, hotspotC: int, utilGpuPct: int, nvmlUtilMemPct: nat,
    clockGraphicsMhz: nat, clockMemoryMhz: nat, nvmlPowerMw: nat, fanCount: nat, fan0Rpm: nat,
    fan0Pct: nat, vramUsedMb: nat, vramFreeMb: nat, vramTotalMb: nat)

  const EMPTY_SNAPSHOT: Snapshot := Snapshot(0, 0.0, 0.0, 0, -1, 0, 0, 0, 0, 0, 0, 0, 0, 0, 0)

  datatype Memory = Memory(total: nat, free: nat, used: nat)
  datatype Fans = Fans(count: nat, rpm0: nat, level0: nat)

  /** What the driver answers; `None` where a call fails or the sensor is missing. */
  datatype Reading = Reading(
    coreC: Option<real>, memjnC: Option<real>, hotspotC: Option<int>, utilGpuPct: Option<int>,
    nvmlUtilMemPct: Option<nat>, clockGraphicsKhz: Option<nat>, clockMemoryKhz: Option<nat>,
    powerMw: Option<nat>, fans: Option<Fans>, memory: Option<Memory>)

  const EMPTY_READING: Reading := Reading(None, None, None, None, None, None, None, None, None, None)

  function Or<T>(x: Option<T>, default_: T): T {
    if x.Some? then x.value else default_
  }

  const MAX_FANS: nat := 4
  const MIB: int := 1048576

  /** Whole mebibytes as an `unsigned int`. */
  function Mebibytes(bytes: nat): nat {
    Wrap32(bytes / MIB)
  }

  function PollThermals(r: Reading, s: Snapshot): Snapshot {
    s.(coreC := Or(r.coreC, s.coreC), memjnC := Or(r.memjnC, s.memjnC))
  }

  function Mhz(khz: Option<nat>, before: nat): nat {
    if khz.Some? then khz.value / 1000 else before
  }

  function PollCommonMedium(r: Reading, s: Snapshot): Snapshot {
    s.(hotspotC := Or(r.hotspotC, s.hotspotC),
       clockGraphicsMhz := Mhz(r.clockGraphicsKhz, s.clockGraphicsMhz),
       clockMemoryMhz := Mhz(r.clockMemoryKhz, s.clockMemoryMhz),
       utilGpuPct := Or(r.utilGpuPct, s.utilGpuPct),
       nvmlUtilMemPct := Or(r.nvmlUtilMemPct, s.nvmlUtilMemPct))
  }

  function PollPower(r: Reading, s: Snapshot): Snapshot {
    s.(nvmlPowerMw := Or(r.powerMw, s.nvmlPowerMw))
  }

  function PollFans(r: Reading, s: Snapshot): Snapshot {
    if r.fans.None? then s
    else
      var f := r.fans.value;
      var count := if f.count < MAX_FANS then f.count else MAX_FANS;
      if count == 0 then s.(fanCount := 0)
      else s.(fanCount := count, fan0Rpm := f.rpm0, fan0Pct := f.level0)
  }

  function PollSlowData(r: Reading, s: Snapshot): Snapshot {
    if r.memory.None? then s
    else
      var m := r.memory.value;
      s.(vramUsedMb := Mebibytes(m.used), vramFreeMb := Mebibytes(m.free), vramTotalMb := Mebibytes(m.total))
  }

  datatype Helper = ThermalsUndoc | CommonMedium | Power | FanStatus | SlowData

  function RunHelper(helper: Helper, r: Reading, s: Snapshot): Snapshot {
    match helper
    case ThermalsUndoc => PollThermals(r, s)
    case CommonMedium => PollCommonMedium(r, s)
    case Power => PollPower(r, s)
    case FanStatus => PollFans(r, s)
    case SlowData => PollSlowData(r, s)
  }

  /** The helpers a tier runs, in order. */
  function HelpersOf(tier: Tier): seq<Helper> {
    match tier
    case ThermalFast => [ThermalsUndoc]
    case Fast => [ThermalsUndoc, CommonMedium]
    case Medium => [CommonMedium, Power]
    case Slow => [FanStatus, Power, SlowData]
    case Rare => [SlowData]
  }

  function RunHelpers(helpers: seq<Helper>, r: Reading, s: Snapshot): Snapshot {
    if helpers == [] then s
    else RunHelper(helpers[|helpers| - 1], r, RunHelpers(helpers[..|helpers| - 1], r, s))
  }

  /** The two fastest tiers also record the GPU's index. */
  function Indexed(tier: Tier, gpu: int, s: Snapshot): Snapshot {
    if tier.ThermalFast? || tier.Fast? then s.(gpuIndex := gpu) else s
  }

  // ---- One attempt to poll ----

  datatype Attempt = Attempt(gpu: int, tier: Tier, now: int)

  predicate IsAccepted(gpus: seq<LastPoll>, a: Attempt) {
    0 <= a.gpu < |gpus| && Accepts(gpus[a.gpu].Get(a.tier), a.now, IntervalOf(a.tier))
  }

  function After(gpus: seq<LastPoll>, a: Attempt): seq<LastPoll> {
    if IsAccepted(gpus, a) then gpus[a.gpu := gpus[a.gpu].With(a.tier, a.now)] else gpus
  }

  // ---- What an accepted poll reads ----

  function ReadIf<T>(read: bool, answer: Option<T>, before: T): T {
    if read && answer.Some? then answer.value else before
  }

  /** Field by field: the driver's answer where it is read and there is one, and the old value otherwise. */
  predicate Reads(thermals: bool, common: bool, power: bool, fans: bool, memory: bool, r: Reading, s: Snapshot,
                  after: Snapshot) {
    && after.coreC == ReadIf(thermals, r.coreC, s.coreC)
    && after.memjnC == ReadIf(thermals, r.memjnC, s.memjnC)
    && after.hotspotC == ReadIf(common, r.hotspotC, s.hotspotC)
    && after.utilGpuPct == ReadIf(common, r.utilGpuPct, s.utilGpuPct)
    && after.nvmlUtilMemPct == ReadIf(common, r.nvmlUtilMemPct, s.nvmlUtilMemPct)
    && after.clockGraphicsMhz ==
         (if common && r.clockGraphicsKhz.Some? then r.clockGraphicsKhz.value / 1000 else s.clockGraphicsMhz)
    && after.clockMemoryMhz ==
         (if common && r.clockMemoryKhz.Some? then r.clockMemoryKhz.value / 1000 else s.clockMemoryMhz)
    && after.nvmlPowerMw == ReadIf(power, r.powerMw, s.nvmlPowerMw)
    && ReadsFans(fans, r, s, after) && ReadsMemory(memory, r, s, after)
  }

  /** At most four fans are counted; the first one is described when there is one. */
  predicate ReadsFans(read: bool, r: Reading, s: Snapshot, after: Snapshot) {
    if read && r.fans.Some? then
      var f := r.fans.value;
      && after.fanCount == (if f.count <= 4 then f.count else 4)
      && after.fan0Rpm == (if f.count > 0 then f.rpm0 else s.fan0Rpm)
      && after.fan0Pct == (if f.count > 0 then f.level0 else s.fan0Pct)
    else after.fanCount == s.fanCount && after.fan0Rpm == s.fan0Rpm && after.fan0Pct == s.fan0Pct
  }

  /** Whole mebibytes, modulo 2^32. */
  predicate ReadsMemory(read: bool, r: Reading, s: Snapshot, after: Snapshot) {
    if read && r.memory.Some? then
      var m := r.memory.value;
      && after.vramUsedMb == (m.used / 1_048_576) % 0x1_0000_0000
      && after.vramFreeMb == (m.free / 1_048_576) % 0x1_0000_0000
      && after.vramTotalMb == (m.total / 1_048_576) % 0x1_0000_0000
    else
      after.vramUsedMb == s.vramUsedMb && after.vramFreeMb == s.vramFreeMb && after.vramTotalMb == s.vramTotalMb
  }

  /** What each tier is responsible for; the two fastest also record the GPU's index. */
  predicate TierReads(tier: Tier, gpu: int, r: Reading, s: Snapshot, after: Snapshot) {
    && Reads(tier.ThermalFast? || tier.Fast?, tier.Fast? || tier.Medium?, tier.Medium? || tier.Slow?, tier.Slow?,
             tier.Slow? || tier.Rare?, r, s, after)
    && after.gpuIndex == if tier.ThermalFast? || tier.Fast? then gpu else s.gpuIndex
  }

  lemma RunLast(helpers: seq<Helper>, last: Helper, r: Reading, s: Snapshot)
    ensures RunHelpers(helpers + [last], r, s) == RunHelper(last, r, RunHelpers(helpers, r, s))
  {
    assert (helpers + [last])[..|helpers|] == helpers;
  }

  lemma RunUpToThree(a: Helper, b: Helper, c: Helper, r: Reading, s: Snapshot)
    ensures RunHelpers([a], r, s) == RunHelper(a, r, s)
    ensures RunHelpers([a, b], r, s) == RunHelper(b, r, RunHelper(a, r, s))
    ensures RunHelpers([a, b, c], r, s) == RunHelper(c, r, RunHelper(b, r, RunHelper(a, r, s)))
  {
    RunLast([], a, r, s);
    RunLast([a], b, r, s);
    RunLast([a, b], c, r, s);
    assert [] + [a] == [a] && [a] + [b] == [a, b] && [a, b] + [c] == [a, b, c];
  }

  lemma HelpersRead(tier: Tier, gpu: int, r: Reading, s: Snapshot)
    ensures TierReads(tier, gpu, r, s, RunHelpers(HelpersOf(tier), r, Indexed(tier, gpu, s)))
  {
    var start := Indexed(tier, gpu, s);
    match tier {
      case ThermalFast => RunUpToThree(ThermalsUndoc, ThermalsUndoc, ThermalsUndoc, r, start);
      case Fast => RunUpToThree(ThermalsUndoc, CommonMedium, CommonMedium, r, start);
      case Medium => RunUpToThree(CommonMedium, Power, Power, r, start);
      case Slow => RunUpToThree(FanStatus, Power, SlowData, r, start);
      case Rare => RunUpToThree(SlowData, SlowData, SlowData, r, start);
    }
  }

  /** The least time between two polls of a tier, in nanoseconds. */
  predicate Due(gpus: seq<LastPoll>, gpu: int, tier: Tier, now: int) {
    && 0 <= gpu < |gpus|
    && match tier
       case ThermalFast => now - gpus[gpu].thermalFast >= 5_000_000
       case Fast => now - gpus[gpu].fast >= 16_000_000
       case Medium => now - gpus[gpu].medium >= 16_000_000
       case Slow => now - gpus[gpu].slow >= 100_000_000
       case Rare => now - gpus[gpu].rare >= 500_000_000
  }

  lemma AcceptedIffDue(gpus: seq<LastPoll>, a: Attempt)
    ensures IsAccepted(gpus, a) <==> Due(gpus, a.gpu, a.tier, a.now)
  {
  }

  class Probe {
    var gpus: seq<LastPoll>

    constructor ()
      ensures gpus == []
    {
      gpus := [];
    }

    /** `found` is the number of GPUs enumerated, or nothing when the driver cannot be loaded or asked. Every
        timestamp starts at the clock's epoch. */
    method Init(found: Option<nat>) returns (ok: bool)
      modifies this
      ensures ok <==> found.Some? && found.value > 0
      ensures gpus == if ok then seq(found.value, _ => NEVER_POLLED) else old(gpus)
      ensures ok ==> |gpus| == found.value && forall i :: 0 <= i < |gpus| ==> gpus[i] == LastPoll(0, 0, 0, 0, 0)
    {
      if found.None? || found.value == 0 {
        return false;
      }
      gpus := seq(found.value, _ => NEVER_POLLED);
      return true;
    }

    method Shutdown()
      modifies this
      ensures gpus == []
    {
      gpus := [];
    }

    method CheckPollRate(gpu: nat, tier: Tier, now: int) returns (ok: bool)
      requires gpu < |gpus|
      modifies this
      ensures ok == IsAccepted(old(gpus), Attempt(gpu, tier, now))
      ensures gpus == After(old(gpus), Attempt(gpu, tier, now))
    {
      if now - gpus[gpu].Get(tier) < IntervalOf(tier) {
        return false;
      }
      gpus := gpus[gpu := gpus[gpu].With(tier, now)];
      return true;
    }

    /** `sample_fast`, `sample_slow` and the three other tiers differ only in the tier. A refused call
        leaves the snapshot as it was. */
    method SampleTier(tier: Tier, gpu: int, now: int, r: Reading, s: Snapshot) returns (ok: bool, after: Snapshot)
      modifies this
      ensures ok == IsAccepted(old(gpus), Attempt(gpu, tier, now))
      ensures gpus == After(old(gpus), Attempt(gpu, tier, now))
      ensures after == if ok then RunHelpers(HelpersOf(tier), r, Indexed(tier, gpu, s)) else s
      ensures ok <==> Due(old(gpus), gpu, tier, now)
      ensures if ok then TierReads(tier, gpu, r, s, after) else after == s
    {
      HelpersRead(tier, gpu, r, s);
      AcceptedIffDue(gpus, Attempt(gpu, tier, now));
      after := s;
      if gpu < 0 || gpu >= |gpus| {
        return false, after;
      }
      ok := CheckPollRate(gpu, tier, now);
      if ok {
        after := Indexed(tier, gpu, after);
        var helpers := HelpersOf(tier);
        for i := 0 to |helpers|
          invariant after == RunHelpers(helpers[..i], r, Indexed(tier, gpu, s))
        {
          assert helpers[..i + 1][..i] == helpers[..i];
          after := RunHelper(helpers[i], r, after);
        }
        assert helpers[..|helpers|] == helpers;
      }
    }
  }

  // ---- Modes ----

  datatype Mode = SampleTierMode(tier: Tier) | Full

  /** The attempts of one call; `Full` reads the clock twice. */
  function AttemptsOf(mode: Mode, gpu: int, first: int, second: int): seq<Attempt> {
    match mode
    case SampleTierMode(tier) => [Attempt(gpu, tier, first)]
    case Full => [Attempt(gpu, Fast, first), Attempt(gpu, Slow, second)]
  }

  function AfterAll(gpus: seq<LastPoll>, attempts: seq<Attempt>): (after: seq<LastPoll>)
    ensures |after| == |gpus|
    decreases |attempts|
  {
    if attempts == [] then gpus else AfterAll(After(gpus, attempts[0]), attempts[1..])
  }

  lemma {:induction false} AfterConcat(gpus: seq<LastPoll>, a: seq<Attempt>, b: seq<Attempt>)
    ensures AfterAll(gpus, a + b) == AfterAll(AfterAll(gpus, a), b)
    decreases |a|
  {
    if a == [] {
      assert a + b == b;
    } else {
      assert (a + b)[1..] == a[1..] + b;
      AfterConcat(After(gpus, a[0]), a[1..], b);
    }
  }

  /** A snapshot after the attempts of one call: each accepted one runs its helpers. */
  function Filled(gpus: seq<LastPoll>, attempts: seq<Attempt>, r: Reading, s: Snapshot): Snapshot
    decreases |attempts|
  {
    if attempts == [] then s
    else
      var a := attempts[0];
      Filled(After(gpus, a), attempts[1..], r,
             if IsAccepted(gpus, a) then RunHelpers(HelpersOf(a.tier), r, Indexed(a.tier, a.gpu, s)) else s)
  }

  predicate AnyAccepted(gpus: seq<LastPoll>, attempts: seq<Attempt>)
    decreases |attempts|
  {
    attempts != [] && (IsAccepted(gpus, attempts[0]) || AnyAccepted(After(gpus, attempts[0]), attempts[1..]))
  }

  lemma {:induction false} HelpersKeepIndex(helpers: seq<Helper>, r: Reading, s: Snapshot)
    ensures RunHelpers(helpers, r, s).gpuIndex == s.gpuIndex
  {
    if helpers != [] {
      HelpersKeepIndex(helpers[..|helpers| - 1], r, s);
    }
  }

  lemma {:induction false} FilledKeepsIndex(gpus: seq<LastPoll>, attempts: seq<Attempt>, r: Reading, s: Snapshot)
    requires forall i :: 0 <= i < |attempts| ==> attempts[i].gpu == s.gpuIndex
    ensures Filled(gpus, attempts, r, s).gpuIndex == s.gpuIndex
    ensures !AnyAccepted(gpus, attempts) ==> Filled(gpus, attempts, r, s) == s
    decreases |attempts|
  {
    if attempts != [] {
      var a := attempts[0];
      HelpersKeepIndex(HelpersOf(a.tier), r, Indexed(a.tier, a.gpu, s));
      var next := if IsAccepted(gpus, a) then RunHelpers(HelpersOf(a.tier), r, Indexed(a.tier, a.gpu, s)) else s;
      FilledKeepsIndex(After(gpus, a), attempts[1..], r, next);
    }
  }

  lemma OneAttempt(gpus: seq<LastPoll>, a: Attempt, r: Reading, s: Snapshot)
    ensures AfterAll(gpus, [a]) == After(gpus, a)
    ensures AnyAccepted(gpus, [a]) == IsAccepted(gpus, a)
    ensures Filled(gpus, [a], r, s)
         == if IsAccepted(gpus, a) then RunHelpers(HelpersOf(a.tier), r, Indexed(a.tier, a.gpu, s)) else s
  {
    assert [a][1..] == [];
  }

  lemma TwoAttempts(gpus: seq<LastPoll>, a: Attempt, b: Attempt, r: Reading, s: Snapshot)
    ensures AfterAll(gpus, [a, b]) == After(After(gpus, a), b)
    ensures AnyAccepted(gpus, [a, b]) == (IsAccepted(gpus, a) || IsAccepted(After(gpus, a), b))
    ensures Filled(gpus, [a, b], r, s) == Filled(After(gpus, a), [b], r, Filled(gpus, [a], r, s))
  {
    OneAttempt(gpus, a, r, s);
    OneAttempt(After(gpus, a), b, r, s);
    assert [a, b][1..] == [b];
  }

  /** What a mode reads: its tier when that is due, and for `Full` the fast and the slow tier, each when due. */
  predicate ModeReads(gpus: seq<LastPoll>, mode: Mode, gpu: int, first: int, second: int, r: Reading, s: Snapshot,
                      after: Snapshot) {
    match mode
    case SampleTierMode(tier) => if Due(gpus, gpu, tier, first) then TierReads(tier, gpu, r, s, after) else after == s
    case Full =>
      var fast, slow := Due(gpus, gpu, Fast, first), Due(gpus, gpu, Slow, second);
      Reads(fast, fast, slow, slow, slow, r, s, after)
  }

  lemma FilledReads(gpus: seq<LastPoll>, mode: Mode, gpu: int, first: int, second: int, r: Reading, s: Snapshot)
    ensures ModeReads(gpus, mode, gpu, first, second, r, s, Filled(gpus, AttemptsOf(mode, gpu, first, second), r, s))
  {
    var attempts := AttemptsOf(mode, gpu, first, second);
    AcceptedIffDue(gpus, attempts[0]);
    OneAttempt(gpus, attempts[0], r, s);
    HelpersRead(attempts[0].tier, gpu, r, s);
    if mode.Full? {
      var mid := Filled(gpus, [attempts[0]], r, s);
      TwoAttempts(gpus, attempts[0], attempts[1], r, s);
      AcceptedIffDue(After(gpus, attempts[0]), attempts[1]);
      OneAttempt(After(gpus, attempts[0]), attempts[1], r, mid);
      HelpersRead(Slow, gpu, r, mid);
    }
  }

  method SampleWithMode(probe: Probe, gpu: int, mode: Mode, first: int, second: int, r: Reading, s: Snapshot)
    returns (ok: bool, after: Snapshot)
    modifies probe
    ensures probe.gpus == AfterAll(old(probe.gpus), AttemptsOf(mode, gpu, first, second))
    ensures ok == AnyAccepted(old(probe.gpus), AttemptsOf(mode, gpu, first, second))
    ensures after == Filled(old(probe.gpus), AttemptsOf(mode, gpu, first, second), r, s.(gpuIndex := gpu))
    ensures after.gpuIndex == gpu && (!ok ==> after == s.(gpuIndex := gpu))
    ensures ModeReads(old(probe.gpus), mode, gpu, first, second, r, s.(gpuIndex := gpu), after)
  {
    FilledReads(probe.gpus, mode, gpu, first, second, r, s.(gpuIndex := gpu));
    ghost var attempts := AttemptsOf(mode, gpu, first, second);
    FilledKeepsIndex(probe.gpus, attempts, r, s.(gpuIndex := gpu));
    after := s.(gpuIndex := gpu);
    match mode
    case SampleTierMode(tier) =>
      OneAttempt(probe.gpus, attempts[0], r, after);
      ok, after := probe.SampleTier(tier, gpu, first, r, after);
    case Full =>
      var a, b;
      TwoAttempts(probe.gpus, attempts[0], attempts[1], r, after);
      OneAttempt(probe.gpus, attempts[0], r, after);
      a, after := probe.SampleTier(Fast, gpu, first, r, after);
      OneAttempt(probe.gpus, attempts[1], r, after);
      b, after := probe.SampleTier(Slow, gpu, second, r, after);
      ok := a || b;
  }

  /** The attempts of one pass over the first `count` GPUs; `clock(i)` is read for GPU i. */
  function PassAttempts(mode: Mode, clock: nat -> (int, int), count: nat): seq<Attempt> {
    if count == 0 then []
    else PassAttempts(mode, clock, count - 1) + AttemptsOf(mode, count - 1, clock(count - 1).0, clock(count - 1).1)
  }

  /** What a pass that started at `start` returns for GPU i. */
  predicate IsPassSample(start: seq<LastPoll>, mode: Mode, clock: nat -> (int, int), readings: nat -> Reading,
                         i: nat, s: Snapshot) {
    && s.gpuIndex == i
    && s == Filled(AfterAll(start, PassAttempts(mode, clock, i)), AttemptsOf(mode, i, clock(i).0, clock(i).1),
                   readings(i), EMPTY_SNAPSHOT.(gpuIndex := i))
  }

  /** One sample per GPU. */
  predicate IsPass(start: seq<LastPoll>, mode: Mode, clock: nat -> (int, int), readings: nat -> Reading,
                   samples: seq<Snapshot>) {
    && |samples| == |start|
    && forall i {:trigger IsPassSample(start, mode, clock, readings, i, samples[i])} ::
         0 <= i < |samples| ==> IsPassSample(start, mode, clock, readings, i, samples[i])
  }

  // ---- What a pass over all GPUs reads ----

  lemma {:induction false} PassLeavesLater(start: seq<LastPoll>, clock: nat -> (int, int), count: nat, other: nat)
    requires count <= other < |start|
    ensures AfterAll(start, PassAttempts(Full, clock, count))[other] == start[other]
  {
    if count > 0 {
      var n := count - 1;
      var mid := AfterAll(start, PassAttempts(Full, clock, n));
      PassLeavesLater(start, clock, n, other);
      AfterConcat(start, PassAttempts(Full, clock, n), AttemptsOf(Full, n, clock(n).0, clock(n).1));
      FullLeavesOthers(mid, n, clock(n).0, clock(n).1, other);
    }
  }

  lemma FullLeavesOthers(gpus: seq<LastPoll>, gpu: nat, first: int, second: int, other: nat)
    requires other < |gpus| && other != gpu
    ensures AfterAll(gpus, AttemptsOf(Full, gpu, first, second))[other] == gpus[other]
  {
    var attempts := AttemptsOf(Full, gpu, first, second);
    TwoAttempts(gpus, attempts[0], attempts[1], EMPTY_READING, EMPTY_SNAPSHOT);
  }

  /** Of GPU i a full pass reads the fast fields when 16 ms have passed since their last poll before the pass,
      and the slow ones after 100 ms. Everything else is empty. */
  predicate PassReads(start: seq<LastPoll>, clock: nat -> (int, int), readings: nat -> Reading, i: nat, s: Snapshot)
    requires i < |start|
  {
    var fast, slow := FastDue(start, clock, i), SlowDue(start, clock, i);
    Reads(fast, fast, slow, slow, slow, readings(i), EMPTY_SNAPSHOT.(gpuIndex := i), s) && s.gpuIndex == i
  }

  predicate FastDue(start: seq<LastPoll>, clock: nat -> (int, int), i: nat)
    requires i < |start|
  {
    clock(i).0 - start[i].fast >= 16_000_000
  }

  /** The slow tier of GPU i is due when the pass reaches it. */
  predicate SlowDue(start: seq<LastPoll>, clock: nat -> (int, int), i: nat)
    requires i < |start|
  {
    clock(i).1 - start[i].slow >= 100_000_000
  }

  lemma PassSampleReads(start: seq<LastPoll>, clock: nat -> (int, int), readings: nat -> Reading, i: nat, s: Snapshot)
    requires i < |start| && IsPassSample(start, Full, clock, readings, i, s)
    ensures PassReads(start, clock, readings, i, s)
  {
    PassLeavesLater(start, clock, i, i);
    FilledReads(AfterAll(start, PassAttempts(Full, clock, i)), Full, i, clock(i).0, clock(i).1, readings(i),
                EMPTY_SNAPSHOT.(gpuIndex := i));
  }

  class SensorReader {
    const probe: Probe
    var initialized: bool

    constructor (probe: Probe)
      ensures this.probe == probe && !initialized
    {
      this.probe := probe;
      initialized := false;
    }

    method Init(found: Option<nat>) returns (ok: bool)
      modifies this, probe
      ensures ok == initialized == (old(initialized) || (found.Some? && found.value > 0))
      ensures probe.gpus == if ok && !old(initialized) then seq(found.value, _ => NEVER_POLLED) else old(probe.gpus)
    {
      if initialized {
        return true;
      }
      ok := probe.Init(found);
      if ok {
        initialized := true;
      }
    }

    method Shutdown()
      modifies this, probe
      ensures !initialized && probe.gpus == if old(initialized) then [] else old(probe.gpus)
    {
      if !initialized {
        return;
      }
      probe.Shutdown();
      initialized := false;
    }

    method Sample(gpu: int, mode: Mode, first: int, second: int, r: Reading) returns (ok: bool, snapshot: Snapshot)
      modifies probe
      ensures !initialized || !(0 <= gpu < |old(probe.gpus)|) ==>
                !ok && snapshot == EMPTY_SNAPSHOT && probe.gpus == old(probe.gpus)
      ensures initialized && 0 <= gpu < |old(probe.gpus)| ==>
                && probe.gpus == AfterAll(old(probe.gpus), AttemptsOf(mode, gpu, first, second))
                && snapshot == Filled(old(probe.gpus), AttemptsOf(mode, gpu, first, second), r,
                                      EMPTY_SNAPSHOT.(gpuIndex := gpu))
                && (!ok ==> snapshot == EMPTY_SNAPSHOT.(gpuIndex := gpu))
    {
      snapshot := EMPTY_SNAPSHOT;
      if !initialized || !(0 <= gpu < |probe.gpus|) {
        return false, snapshot;
      }
      ok, snapshot := SampleWithMode(probe, gpu, mode, first, second, r, snapshot);
    }

    /** One snapshot per GPU in index order, also for the GPUs that were rate-limited. */
    method SampleAll(mode: Mode, clock: nat -> (int, int), readings: nat -> Reading) returns (samples: seq<Snapshot>)
      modifies probe
      ensures !initialized ==> samples == [] && probe.gpus == old(probe.gpus)
      ensures initialized ==>
                && IsPass(old(probe.gpus), mode, clock, readings, samples)
                && probe.gpus == AfterAll(old(probe.gpus), PassAttempts(mode, clock, |old(probe.gpus)|))
      ensures forall i :: 0 <= i < |samples| ==> samples[i].gpuIndex == i
    {
      samples := [];
      if !initialized {
        return;
      }
      ghost var start := probe.gpus;
      for i := 0 to |probe.gpus|
        invariant probe.gpus == AfterAll(start, PassAttempts(mode, clock, i))
        invariant |samples| == i
        invariant forall j :: 0 <= j < i ==> samples[j].gpuIndex == j
        invariant forall j {:trigger IsPassSample(start, mode, clock, readings, j, samples[j])} ::
                    0 <= j < i ==> IsPassSample(start, mode, clock, readings, j, samples[j])
      {
        var snapshot := SampleNext(start, mode, clock, readings, i);
        samples := samples + [snapshot];
      }
    }

    method SampleNext(ghost start: seq<LastPoll>, mode: Mode, clock: nat -> (int, int), readings: nat -> Reading,
                      i: nat) returns (snapshot: Snapshot)
      requires probe.gpus == AfterAll(start, PassAttempts(mode, clock, i))
      modifies probe
      ensures probe.gpus == AfterAll(start, PassAttempts(mode, clock, i + 1))
      ensures IsPassSample(start, mode, clock, readings, i, snapshot)
    {
      var ok;
      AfterConcat(start, PassAttempts(mode, clock, i), AttemptsOf(mode, i, clock(i).0, clock(i).1));
      ok, snapshot := SampleWithMode(probe, i, mode, clock(i).0, clock(i).1, readings(i), EMPTY_SNAPSHOT);
    }
  }

  // ---- Every trace of attempts ----

  function CallTimes(attempts: seq<Attempt>, gpu: int, tier: Tier): seq<int> {
    if attempts == [] then []
    else (if attempts[0].gpu == gpu && attempts[0].tier == tier then [attempts[0].now] else [])
         + CallTimes(attempts[1..], gpu, tier)
  }

  /** The times at which this GPU's tier was really polled. */
  function PollTimes(gpus: seq<LastPoll>, attempts: seq<Attempt>, gpu: int, tier: Tier): seq<int>
    decreases |attempts|
  {
    if attempts == [] then []
    else
      var a := attempts[0];
      (if a.gpu == gpu && a.tier == tier && IsAccepted(gpus, a) then [a.now] else [])
      + PollTimes(After(gpus, a), attempts[1..], gpu, tier)
  }

  /** A GPU's tier is throttled by its own calls alone: no other GPU, tier or mode changes what it accepts. */
  lemma {:induction false} TiersAreIndependent(gpus: seq<LastPoll>, attempts: seq<Attempt>, gpu: nat, tier: Tier)
    requires gpu < |gpus|
    ensures PollTimes(gpus, attempts, gpu, tier)
         == Accepted(gpus[gpu].Get(tier), CallTimes(attempts, gpu, tier), IntervalOf(tier))
    decreases |attempts|
  {
    if attempts != [] {
      var a := attempts[0];
      TiersAreIndependent(After(gpus, a), attempts[1..], gpu, tier);
      var rest := CallTimes(attempts[1..], gpu, tier);
      if a.gpu == gpu && a.tier == tier {
        assert CallTimes(attempts, gpu, tier) == [a.now] + rest;
        assert ([a.now] + rest)[1..] == rest;
      } else {
        assert CallTimes(attempts, gpu, tier) == rest;
        assert After(gpus, a)[gpu].Get(tier) == gpus[gpu].Get(tier);
      }
    }
  }

  /** How often a helper runs for one GPU with low <= time <= high. */
  function HelperRuns(gpus: seq<LastPoll>, attempts: seq<Attempt>, gpu: int, helper: Helper, low: int, high: int): nat
    decreases |attempts|
  {
    if attempts == [] then 0
    else
      var a := attempts[0];
      (if a.gpu == gpu && IsAccepted(gpus, a) && helper in HelpersOf(a.tier) && low <= a.now <= high then 1 else 0)
      + HelperRuns(After(gpus, a), attempts[1..], gpu, helper, low, high)
  }

  /** The tiers that run a helper: one always, and perhaps a second. */
  function MainTier(helper: Helper): Tier {
    match helper
    case ThermalsUndoc => Fast
    case CommonMedium => Fast
    case Power => Slow
    case FanStatus => Slow
    case SlowData => Slow
  }

  function OtherTier(helper: Helper): Option<Tier> {
    match helper
    case ThermalsUndoc => Some(ThermalFast)
    case CommonMedium => Some(Medium)
    case Power => Some(Medium)
    case FanStatus => None
    case SlowData => Some(Rare)
  }

  lemma TiersRunHelper(helper: Helper, tier: Tier)
    ensures helper in HelpersOf(tier) <==> tier == MainTier(helper) || OtherTier(helper) == Some(tier)
    ensures OtherTier(helper) != Some(MainTier(helper))
  {
  }

  function PollCount(gpus: seq<LastPoll>, attempts: seq<Attempt>, gpu: int, tier: Tier, low: int, high: int): nat {
    CountIn(PollTimes(gpus, attempts, gpu, tier), low, high)
  }

  lemma CountStep(gpus: seq<LastPoll>, attempts: seq<Attempt>, gpu: int, tier: Tier, low: int, high: int)
    requires attempts != []
    ensures var a := attempts[0];
            PollCount(gpus, attempts, gpu, tier, low, high)
            == (if a.gpu == gpu && a.tier == tier && IsAccepted(gpus, a) && low <= a.now <= high then 1 else 0)
               + PollCount(After(gpus, a), attempts[1..], gpu, tier, low, high)
  {
    var rest := PollTimes(After(gpus, attempts[0]), attempts[1..], gpu, tier);
    assert ([attempts[0].now] + rest)[1..] == rest && [] + rest == rest;
  }

  /** A helper runs exactly when one of its tiers is polled. */
  lemma {:induction false} RunsArePolls(gpus: seq<LastPoll>, attempts: seq<Attempt>, gpu: int, helper: Helper,
                                        low: int, high: int)
    ensures HelperRuns(gpus, attempts, gpu, helper, low, high)
         == PollCount(gpus, attempts, gpu, MainTier(helper), low, high)
            + match OtherTier(helper)
              case None => 0
              case Some(tier) => PollCount(gpus, attempts, gpu, tier, low, high)
    decreases |attempts|
  {
    if attempts != [] {
      RunsArePolls(After(gpus, attempts[0]), attempts[1..], gpu, helper, low, high);
      TiersRunHelper(helper, attempts[0].tier);
      CountStep(gpus, attempts, gpu, MainTier(helper), low, high);
      if OtherTier(helper).Some? {
        CountStep(gpus, attempts, gpu, OtherTier(helper).value, low, high);
      }
    }
  }

  /** At most this many polls of a tier fit into a closed window of the given width. */
  function TierBound(tier: Tier, width: nat): nat {
    width / IntervalOf(tier) + 1
  }

  lemma PollsAreBounded(gpus: seq<LastPoll>, attempts: seq<Attempt>, gpu: nat, tier: Tier, low: int, width: nat)
    requires gpu < |gpus|
    ensures PollCount(gpus, attempts, gpu, tier, low, low + width) <= TierBound(tier, width)
  {
    TiersAreIndependent(gpus, attempts, gpu, tier);
    WindowBound(gpus[gpu].Get(tier), CallTimes(attempts, gpu, tier), IntervalOf(tier), low, width);
  }

  /** Over every interleaving of modes and GPUs, a helper's driver calls for one GPU in any window are at
      most the sum of its tiers' bounds. */
  lemma DriverLoadIsBounded(gpus: seq<LastPoll>, attempts: seq<Attempt>, gpu: nat, helper: Helper,
                            low: int, width: nat)
    requires gpu < |gpus|
    ensures HelperRuns(gpus, attempts, gpu, helper, low, low + width)
         <= TierBound(MainTier(helper), width)
            + match OtherTier(helper)
              case None => 0
              case Some(tier) => TierBound(tier, width)
  {
    RunsArePolls(gpus, attempts, gpu, helper, low, low + width);
    PollsAreBounded(gpus, attempts, gpu, MainTier(helper), low, width);
    if OtherTier(helper).Some? {
      PollsAreBounded(gpus, attempts, gpu, OtherTier(helper).value, low, width);
    }
  }

  /** And no limiter that keeps the interval could have polled a tier more often: for calls in time
      order, every admissible choice of a tier's calls is at most as large as what was polled. */
  lemma PollingIsOptimal(gpus: seq<LastPoll>, attempts: seq<Attempt>, gpu: nat, tier: Tier, choice: seq<bool>)
    requires gpu < |gpus| && Sorted(CallTimes(attempts, gpu, tier))
    requires |choice| == |CallTimes(attempts, gpu, tier)|
    requires Spaced(gpus[gpu].Get(tier), Chosen(CallTimes(attempts, gpu, tier), choice), IntervalOf(tier))
    ensures |Chosen(CallTimes(attempts, gpu, tier), choice)| <= |PollTimes(gpus, attempts, gpu, tier)|
  {
    TiersAreIndependent(gpus, attempts, gpu, tier);
    GreedyIsOptimal(gpus[gpu].Get(tier), CallTimes(attempts, gpu, tier), IntervalOf(tier));
  }

  /** `Full` uses only the fast and slow budgets. */
  lemma FullUsesFastAndSlow(gpus: seq<LastPoll>, gpu: nat, first: int, second: int, other: nat, tier: Tier)
    requires gpu < |gpus| && other < |gpus|
    requires other != gpu || (tier != Fast && tier != Slow)
    ensures AfterAll(gpus, AttemptsOf(Full, gpu, first, second))[other].Get(tier) == gpus[other].Get(tier)
  {
    var attempts := AttemptsOf(Full, gpu, first, second);
    OneAttempt(After(gpus, attempts[0]), attempts[1], EMPTY_READING, EMPTY_SNAPSHOT);
    TwoAttempts(gpus, attempts[0], attempts[1], EMPTY_READING, EMPTY_SNAPSHOT);
    AfterLeavesOthers(gpus, attempts[0], other, tier);
    AfterLeavesOthers(After(gpus, attempts[0]), attempts[1], other, tier);
  }

  lemma AfterLeavesOthers(gpus: seq<LastPoll>, a: Attempt, other: nat, tier: Tier)
    requires other < |gpus| && (other != a.gpu || tier != a.tier)
    ensures After(gpus, a)[other].Get(tier) == gpus[other].Get(tier)
  {
  }
}
