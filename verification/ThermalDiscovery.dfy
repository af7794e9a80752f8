/** Finding the thermal sensors of one GPU behind the undocumented driver call. */
module ThermalDiscovery {
  import opened Wrappers

  const SENTINEL_RAW := 65280
  const THERMAL_VALUES := 32
  const MEM_CANDIDATES: seq<bv32> := [2, 7, 9, 8]

  type Temperatures = t: seq<int> | |t| == THERMAL_VALUES witness seq(THERMAL_VALUES, _ => 0)

  /** An index is `None` where the source has -1. */
  datatype Discovery = Discovery(mask: bv32, count: bv32, coreIndex: Option<bv32>, memjIndex: Option<bv32>,
                                 initial: Temperatures)

  const NOTHING: Discovery := Discovery(0, 0, None, None, seq(THERMAL_VALUES, _ => 0))

  /** How the driver answers: a probe of one bit succeeds or not, and a full read of a mask gives the
      temperatures or fails. */
  datatype Driver = Driver(probe: bv32 -> bool, read: bv32 -> Option<Temperatures>)

  predicate HasBit(mask: bv32, bit: bv32)
    requires bit < 32
  {
    mask & (1 << bit) != 0
  }

  lemma SetBit(mask: bv32, bit: bv32, other: bv32)
    requires bit < 32 && other < 32
    ensures HasBit(mask | (1 << bit), other) <==> bit == other || HasBit(mask, other)
  {
  }

  lemma SomeBit(mask: bv32, bit: bv32)
    requires bit < 32 && HasBit(mask, bit)
    ensures mask != 0
  {
  }

  /** Whether the sensor exists and its first reading is usable. */
  predicate Live(mask: bv32, temperatures: Temperatures, index: bv32)
    requires index < 32
  {
    HasBit(mask, index) && temperatures[index] != 0 && temperatures[index] != SENTINEL_RAW
  }

  /** The earliest live candidate, or nothing when none is live. */
  predicate IsFirstLive(mask: bv32, temperatures: Temperatures, found: Option<bv32>) {
    if found.None? then
      forall k :: 0 <= k < |MEM_CANDIDATES| ==> !Live(mask, temperatures, MEM_CANDIDATES[k])
    else
      exists k :: 0 <= k < |MEM_CANDIDATES| && found.value == MEM_CANDIDATES[k]
        && Live(mask, temperatures, MEM_CANDIDATES[k])
        && forall j :: 0 <= j < k ==> !Live(mask, temperatures, MEM_CANDIDATES[j])
  }

  /** The mask after the probes of the bits below `bit`. */
  ghost predicate ProbedBelow(mask: bv32, bit: bv32, driver: Driver) {
    forall other: bv32 :: other < 32 ==> (HasBit(mask, other) <==> other < bit && driver.probe(other))
  }

  lemma NextProbe(mask: bv32, bit: bv32, driver: Driver)
    requires bit < 32 && ProbedBelow(mask, bit, driver)
    ensures ProbedBelow(if driver.probe(bit) then mask | (1 << bit) else mask, bit + 1, driver)
    ensures mask | (1 << bit) != 0
  {
    var next := if driver.probe(bit) then mask | (1 << bit) else mask;
    SomeBit(mask | (1 << bit), bit);
    forall other: bv32 | other < 32
      ensures HasBit(next, other) <==> other < bit + 1 && driver.probe(other)
    {
      SetBit(mask, bit, other);
      assert other < bit + 1 <==> other < bit || other == bit;
    }
  }

  /** `count` is one more than the last successful probe below `bit`. */
  ghost predicate HighestBelow(count: bv32, bit: bv32, driver: Driver) {
    && count <= bit && (count > 0 ==> driver.probe(count - 1))
    && forall other: bv32 :: count <= other < bit ==> !driver.probe(other)
  }

  lemma NextHighest(count: bv32, bit: bv32, driver: Driver)
    requires bit < 32 && HighestBelow(count, bit, driver)
    ensures HighestBelow(if driver.probe(bit) then bit + 1 else count, bit + 1, driver)
  {
  }

  lemma CountOfProbes(mask: bv32, count: bv32, driver: Driver)
    requires ProbedBelow(mask, 32, driver) && HighestBelow(count, 32, driver) && (count == 0 <==> mask == 0)
    ensures Probed(mask, driver) && IsCount(mask, count)
  {
  }

  /** The mask has exactly the bits whose probes succeed. */
  ghost predicate Probed(mask: bv32, driver: Driver) {
    forall bit: bv32 :: bit < 32 ==> (HasBit(mask, bit) <==> driver.probe(bit))
  }

  /** One more than the highest bit. */
  ghost predicate IsCount(mask: bv32, count: bv32) {
    && count <= 32 && (count == 0 <==> mask == 0)
    && (count > 0 ==> HasBit(mask, count - 1))
    && (forall bit: bv32 :: count <= bit < 32 ==> !HasBit(mask, bit))
  }

  /** A probe of all 32 bits; gaps between sensors are kept. */
  method ProbeBits(driver: Driver) returns (mask: bv32, count: bv32)
    ensures Probed(mask, driver) && IsCount(mask, count)
  {
    mask, count := 0, 0;
    var bit: bv32 := 0;
    while bit < 32
      invariant bit <= 32 && (count == 0 <==> mask == 0)
      invariant HighestBelow(count, bit, driver)
      invariant ProbedBelow(mask, bit, driver)
      decreases 32 - bit
    {
      NextProbe(mask, bit, driver);
      NextHighest(count, bit, driver);
      if driver.probe(bit) {
        mask := mask | (1 << bit);
        count := bit + 1;
      }
      bit := bit + 1;
    }
    CountOfProbes(mask, count, driver);
  }

  /** The sensor answers its probe, and its first reading is neither zero nor the driver's filler. */
  predicate Usable(driver: Driver, temperatures: Temperatures, index: bv32)
    requires index < 32
  {
    driver.probe(index) && temperatures[index] != 0 && temperatures[index] != 65_280
  }

  /** The memory sensor is the first usable one of 2, 7, 9 and 8. */
  function MemorySensor(driver: Driver, temperatures: Temperatures): Option<bv32> {
    if Usable(driver, temperatures, 2) then Some(2)
    else if Usable(driver, temperatures, 7) then Some(7)
    else if Usable(driver, temperatures, 9) then Some(9)
    else if Usable(driver, temperatures, 8) then Some(8)
    else None
  }

  lemma FirstLiveIsMemorySensor(mask: bv32, driver: Driver, temperatures: Temperatures, found: Option<bv32>)
    requires Probed(mask, driver) && IsFirstLive(mask, temperatures, found)
    ensures found == MemorySensor(driver, temperatures)
  {
    assert forall i: bv32 :: i < 32 ==> (Live(mask, temperatures, i) <==> Usable(driver, temperatures, i));
    assert MEM_CANDIDATES[0] == 2 && MEM_CANDIDATES[1] == 7 && MEM_CANDIDATES[2] == 9 && MEM_CANDIDATES[3] == 8;
  }

  method DiscoverSensors(ready: bool, driver: Driver, before: Discovery) returns (ok: bool, out: Discovery)
    ensures !ready ==> !ok && out == before
    ensures ready && !ok ==> out == NOTHING
    ensures ready ==> exists mask :: Probed(mask, driver) && (ok <==> mask != 0 && driver.read(mask).Some?)
    ensures ok ==> Probed(out.mask, driver) && IsCount(out.mask, out.count)
    ensures ok ==> driver.read(out.mask) == Some(out.initial)
    ensures ok ==> out.coreIndex == if driver.probe(1) then Some(1) else None
    ensures ok ==> IsFirstLive(out.mask, out.initial, out.memjIndex)
    ensures ok ==> out.memjIndex == MemorySensor(driver, out.initial)
    ensures ok && out.memjIndex.Some? ==> out.memjIndex.value < out.count && driver.probe(out.memjIndex.value)
    ensures ok && out.coreIndex.Some? ==> out.coreIndex.value < out.count
  {
    if !ready {
      return false, before;
    }
    ok, out := false, NOTHING;
    var mask, count := ProbeBits(driver);
    if mask == 0 {
      return;
    }
    var temperatures := driver.read(mask);
    if temperatures.None? {
      return;
    }
    var coreIndex := if count > 1 && HasBit(mask, 1) then Some(1) else None;
    var memjIndex := FindMemoryJunction(mask, count, temperatures.value);
    FirstLiveIsMemorySensor(mask, driver, temperatures.value, memjIndex);
    ok, out := true, Discovery(mask, count, coreIndex, memjIndex, temperatures.value);
  }

  lemma BitIsCounted(mask: bv32, count: bv32, index: bv32)
    requires IsCount(mask, count) && index < 32
    ensures HasBit(mask, index) ==> index < count
  {
  }

  method FindMemoryJunction(mask: bv32, count: bv32, temperatures: Temperatures) returns (found: Option<bv32>)
    requires IsCount(mask, count)
    ensures IsFirstLive(mask, temperatures, found)
    ensures found.Some? ==> found.value < count && HasBit(mask, found.value)
  {
    for k := 0 to |MEM_CANDIDATES|
      invariant forall j :: 0 <= j < k ==> !Live(mask, temperatures, MEM_CANDIDATES[j])
    {
      var index := MEM_CANDIDATES[k];
      BitIsCounted(mask, count, index);
      if index < count && HasBit(mask, index) && temperatures[index] != 0 && temperatures[index] != SENTINEL_RAW {
        assert Live(mask, temperatures, MEM_CANDIDATES[k]);
        return Some(index);
      }
    }
    return None;
  }
}
