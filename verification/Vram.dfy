/** How far the free memory behind the verdict can be from what the driver reported. */
module Vram {
  import opened CppArithmetic
  import opened Engine
  import opened Freshness
  import opened GpuCollector
  import opened GpuProbe
  import opened Queries
  import opened Readiness
  import opened Wrappers

  /** The row's memory figures are the driver's, through mebibytes and back to bytes. */
  predicate Shows(row: GpuSnapshotRow, memory: Memory) {
    && row.vramUsedBytes == StoredBytes(Mebibytes(memory.used))
    && row.vramTotalBytes == StoredBytes(Mebibytes(memory.total))
  }

  /** A poll whose slow tier is accepted shows the driver's memory in the snapshot. */
  lemma AcceptedPollShowsMemory(gpus: seq<LastPoll>, gpu: nat, first: int, second: int, r: Reading,
                                names: seq<string>, uid: string)
    requires IsAccepted(After(gpus, Attempt(gpu, Fast, first)), Attempt(gpu, Slow, second))
    requires r.memory.Some?
    ensures var s := Filled(gpus, AttemptsOf(Full, gpu, first, second), r, EMPTY_SNAPSHOT.(gpuIndex := gpu));
            Shows(SnapshotRow(GpuEntry(uid, RowOf(s, names))), r.memory.value)
  {
    var attempts := AttemptsOf(Full, gpu, first, second);
    var s := EMPTY_SNAPSHOT.(gpuIndex := gpu);
    TwoAttempts(gpus, attempts[0], attempts[1], r, s);
    var mid := Filled(gpus, [attempts[0]], r, s);
    OneAttempt(After(gpus, attempts[0]), attempts[1], r, mid);
    SlowHelpersReadMemory(r, mid);
  }

  lemma SlowHelpersReadMemory(r: Reading, s: Snapshot)
    requires r.memory.Some?
    ensures var after := RunHelpers(HelpersOf(Slow), r, s);
            && after.vramUsedMb == Mebibytes(r.memory.value.used)
            && after.vramTotalMb == Mebibytes(r.memory.value.total)
  {
    var helpers := HelpersOf(Slow);
    assert helpers[..2] == [FanStatus, Power] && helpers[2] == SlowData;
  }

  /** The stored bytes are the driver's bytes rounded down to whole mebibytes exactly when there is at
      least one mebibyte and fewer than 2^52 bytes. Less than one mebibyte is stored as unknown. */
  lemma StoredBytesRoundDownIff(bytes: nat)
    ensures bytes < MIB ==> StoredBytes(Mebibytes(bytes)) == None
    ensures StoredBytes(Mebibytes(bytes)) == Some(bytes / MIB * MIB) <==> MIB <= bytes < 0x10_0000_0000_0000
  {
    var whole := bytes / MIB;
    assert whole < U32 <==> bytes < 0x10_0000_0000_0000;
    assert whole > 0 <==> bytes >= MIB;
    if whole >= U32 {
      assert Wrap32(whole) < U32 <= whole;
    }
  }

  predicate Counts(memory: Memory) {
    memory.total >= MIB && memory.used >= MIB
  }

  /** The driver's free memory over the GPUs whose total and used are both at least one mebibyte. */
  function DriverFree(memories: seq<Memory>): int {
    if memories == [] then 0
    else
      var m := memories[|memories| - 1];
      DriverFree(memories[..|memories| - 1]) + if Counts(m) then m.total - m.used else 0
  }

  function CountingGpus(memories: seq<Memory>): nat {
    if memories == [] then 0
    else CountingGpus(memories[..|memories| - 1]) + if Counts(memories[|memories| - 1]) then 1 else 0
  }

  predicate Small(memory: Memory) {
    memory.total < 0x10_0000_0000_0000 && memory.used < 0x10_0000_0000_0000
  }

  lemma ErrorOfOne(row: GpuSnapshotRow, memory: Memory)
    requires Shows(row, memory) && Small(memory)
    ensures KnowsVram(row) <==> Counts(memory)
    ensures Counts(memory) ==> -MIB < FreeOf(row) - (memory.total - memory.used) < MIB
  {
    var used, total := memory.used / MIB, memory.total / MIB;
    assert used < U32 && total < U32;
    assert Mebibytes(memory.used) == used && Mebibytes(memory.total) == total;
    assert used > 0 <==> memory.used >= MIB;
    assert total > 0 <==> memory.total >= MIB;
    assert used * MIB <= memory.used < used * MIB + MIB;
    assert total * MIB <= memory.total < total * MIB + MIB;
  }

  /** The free memory the verdict uses is within one mebibyte per such GPU of the driver's figure. */
  lemma {:induction false} VramErrorBound(rows: seq<GpuSnapshotRow>, memories: seq<Memory>)
    requires |rows| == |memories|
    requires forall i :: 0 <= i < |rows| ==> Shows(rows[i], memories[i]) && Small(memories[i])
    ensures var error := FreeVram(rows) - DriverFree(memories);
            -(MIB - 1) * CountingGpus(memories) <= error <= (MIB - 1) * CountingGpus(memories)
  {
    if rows != [] {
      var n := |rows| - 1;
      VramErrorBound(rows[..n], memories[..n]);
      ErrorOfOne(rows[n], memories[n]);
    }
  }

  /** The totals stay far inside 64 bits for as many GPUs as can be enumerated. */
  lemma {:induction false} TotalsFitIn64Bits(rows: seq<GpuSnapshotRow>, memories: seq<Memory>)
    requires |rows| == |memories|
    requires forall i :: 0 <= i < |rows| ==> Shows(rows[i], memories[i])
    ensures 0 <= TotalVram(rows) <= |rows| * 0x10_0000_0000_0000
    ensures -|rows| * 0x10_0000_0000_0000 <= FreeVram(rows) <= |rows| * 0x10_0000_0000_0000
  {
    if rows != [] {
      var n := |rows| - 1;
      TotalsFitIn64Bits(rows[..n], memories[..n]);
      assert Mebibytes(memories[n].used) < U32 && Mebibytes(memories[n].total) < U32;
    }
  }

  // ---- From a pass to the verdict ----

  /** The polls of other GPUs and of the fast tier do not count: the slow attempt is accepted when it is due. */
  lemma SlowIsAcceptedIff(start: seq<LastPoll>, clock: nat -> (int, int), i: nat)
    requires i < |start|
    ensures var mid := After(AfterAll(start, PassAttempts(Full, clock, i)), Attempt(i, Fast, clock(i).0));
            IsAccepted(mid, Attempt(i, Slow, clock(i).1)) <==> SlowDue(start, clock, i)
  {
    PassLeavesLater(start, clock, i, i);
  }

  /** What a pass sees of the driver's memory: nothing when the slow tier is refused or the call fails. */
  function SeenMemory(start: seq<LastPoll>, clock: nat -> (int, int), readings: nat -> Reading, i: nat): Memory
    requires i < |start|
  {
    if SlowDue(start, clock, i) && readings(i).memory.Some? then readings(i).memory.value else Memory(0, 0, 0)
  }

  lemma {:induction false} HelpersWithoutMemory(helpers: seq<Helper>, r: Reading, s: Snapshot)
    requires SlowData !in helpers || r.memory.None?
    ensures var after := RunHelpers(helpers, r, s);
            after.vramUsedMb == s.vramUsedMb && after.vramTotalMb == s.vramTotalMb
  {
    if helpers != [] {
      HelpersWithoutMemory(helpers[..|helpers| - 1], r, s);
    }
  }

  lemma UnseenMemoryIsUnknown(gpus: seq<LastPoll>, gpu: nat, first: int, second: int, r: Reading)
    requires r.memory.None?
          || !IsAccepted(After(gpus, Attempt(gpu, Fast, first)), Attempt(gpu, Slow, second))
    ensures var s := Filled(gpus, AttemptsOf(Full, gpu, first, second), r, EMPTY_SNAPSHOT.(gpuIndex := gpu));
            s.vramUsedMb == 0 && s.vramTotalMb == 0
  {
    var attempts, s := AttemptsOf(Full, gpu, first, second), EMPTY_SNAPSHOT.(gpuIndex := gpu);
    TwoAttempts(gpus, attempts[0], attempts[1], r, s);
    var mid := Filled(gpus, [attempts[0]], r, s);
    OneAttempt(gpus, attempts[0], r, s);
    OneAttempt(After(gpus, attempts[0]), attempts[1], r, mid);
    HelpersWithoutMemory(HelpersOf(Fast), r, Indexed(Fast, gpu, s));
    if r.memory.None? {
      HelpersWithoutMemory(HelpersOf(Slow), r, Indexed(Slow, gpu, mid));
    }
  }

  /** Every row of a pass shows the memory the pass saw. */
  lemma PassShowsMemory(start: seq<LastPoll>, clock: nat -> (int, int), readings: nat -> Reading,
                        samples: seq<Snapshot>, names: seq<string>, i: nat, uid: string)
    requires IsPass(start, Full, clock, readings, samples) && i < |samples|
    ensures Shows(SnapshotRow(GpuEntry(uid, RowOf(samples[i], names))), SeenMemory(start, clock, readings, i))
  {
    var gpus := AfterAll(start, PassAttempts(Full, clock, i));
    assert IsPassSample(start, Full, clock, readings, i, samples[i]);
    SlowIsAcceptedIff(start, clock, i);
    if SlowDue(start, clock, i) && readings(i).memory.Some? {
      AcceptedPollShowsMemory(gpus, i, clock(i).0, clock(i).1, readings(i), names, uid);
    } else {
      UnseenMemoryIsUnknown(gpus, i, clock(i).0, clock(i).1, readings(i));
    }
  }

  lemma {:induction false} SnapshotRowsAt(section: seq<GpuEntry>)
    ensures |SnapshotRows(section)| == |section|
    ensures forall i :: 0 <= i < |section| ==> SnapshotRows(section)[i] == SnapshotRow(section[i])
  {
    if section != [] {
      SnapshotRowsAt(section[..|section| - 1]);
    }
  }

  /** After a pass whose calls succeed and that no call of the pipe interrupts: the verdict's free memory is
      within one mebibyte per counting GPU of what the driver said, over the GPUs whose slow tier was due. */
  lemma PassVramBound(conn: Conn, machineId: string, nowMs: int, start: seq<LastPoll>, clock: nat -> (int, int),
                      readings: nat -> Reading, samples: seq<Snapshot>, names: seq<string>, fate: nat -> Fate,
                      first: nat, section: seq<GpuEntry>, memories: seq<Memory>)
    requires IsPass(start, Full, clock, readings, samples) && samples != []
    requires CallsSucceed(fate, first, |samples| + 1)
    requires forall k :: k in conn.working.gpus && k.machineId == machineId ==> k.tsMs < nowMs
    requires IsGpuSection(ExecuteEach(conn, PassStmts(machineId, nowMs, RowsOf(samples, names)), fate, first).working,
                          machineId, section)
    requires |memories| == |samples| && forall i :: 0 <= i < |samples| ==>
               memories[i] == SeenMemory(start, clock, readings, i) && Small(memories[i])
    ensures var error := FreeVram(SnapshotRows(section)) - DriverFree(memories);
            -(MIB - 1) * CountingGpus(memories) <= error <= (MIB - 1) * CountingGpus(memories)
  {
    forall i | 0 <= i < |samples| ensures samples[i].gpuIndex == i {
      assert IsPassSample(start, Full, clock, readings, i, samples[i]);
    }
    WholePassIsShown(conn, machineId, nowMs, samples, names, fate, first, section);
    SnapshotRowsAt(section);
    forall i | 0 <= i < |samples| ensures Shows(SnapshotRows(section)[i], memories[i]) {
      PassShowsMemory(start, clock, readings, samples, names, i, GpuUid(i));
    }
    VramErrorBound(SnapshotRows(section), memories);
  }
}
