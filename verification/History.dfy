/**
 The timestamps of the store are determined by the history of writes: each is the maximum of the times
 written for it, in whatever order they came. And when that decides staleness, and when it does not.
 */
module History {
  import opened Database
  import opened Interleaving
  import opened Wrappers

  // ---- The maximum of a history ----

  /** Which time, if any, a statement writes. */
  type TimeOf = Stmt -> Option<int>

  /** The latest time written, by merging from the left as the upserts do. */
  function Latest(log: seq<Stmt>, time: TimeOf): Option<int> {
    if log == [] then None
    else LaterTime(time(log[|log| - 1]), Latest(log[..|log| - 1], time))
  }

  /** Independently of any order: `best` is written, and nothing later is. */
  predicate IsMaximum(best: Option<int>, log: seq<Stmt>, time: TimeOf) {
    && (best.None? ==> forall s :: s in log ==> time(s).None?)
    && (best.Some? ==> exists s :: s in log && time(s) == best)
    && (best.Some? ==> forall s :: s in log && time(s).Some? ==> time(s).value <= best.value)
  }

  lemma {:induction false} LatestIsMaximum(log: seq<Stmt>, time: TimeOf)
    ensures IsMaximum(Latest(log, time), log, time)
  {
    if log != [] {
      var front, last := log[..|log| - 1], log[|log| - 1];
      LatestIsMaximum(front, time);
      assert forall s :: s in log <==> s in front || s == last;
    }
  }

  /** Only the set of writes matters for the latest time. */
  lemma LatestIgnoresOrder(a: seq<Stmt>, b: seq<Stmt>, time: TimeOf)
    requires multiset(a) == multiset(b)
    ensures Latest(a, time) == Latest(b, time)
  {
    LatestIsMaximum(a, time);
    LatestIsMaximum(b, time);
    assert forall s :: s in a <==> s in multiset(a);
    assert forall s :: s in b <==> s in multiset(b);
  }

  // ---- The merged columns ----

  function MachineTime(machineId: string): TimeOf {
    (s: Stmt) => if s.UpsertMachine? && s.machineId == machineId then Some(s.seenMs) else None
  }

  function HelloTime(key: string): TimeOf {
    (s: Stmt) => if s.UpsertCollector? && CollectorId(s.machineId, s.source) == key then s.helloMs else None
  }

  function SampleTime(key: string): TimeOf {
    (s: Stmt) => if s.UpsertCollector? && CollectorId(s.machineId, s.source) == key then s.sampleMs else None
  }

  function LastSeen(db: Db, machineId: string): Option<int> {
    if machineId in db.machines then Some(db.machines[machineId].lastSeenMs) else None
  }

  function FirstSeen(db: Db, machineId: string): Option<int> {
    if machineId in db.machines then Some(db.machines[machineId].firstSeenMs) else None
  }

  function LastHello(db: Db, key: string): Option<int> {
    if key in db.collectors then db.collectors[key].lastHelloMs else None
  }

  function LastSample(db: Db, key: string): Option<int> {
    if key in db.collectors then db.collectors[key].lastSampleMs else None
  }

  lemma ApplyMerges(s: Stmt, db: Db, machineId: string, key: string)
    ensures LastSeen(Apply(s, db), machineId)
         == LaterTime(MachineTime(machineId)(s), LastSeen(db, machineId))
    ensures LastHello(Apply(s, db), key) == LaterTime(HelloTime(key)(s), LastHello(db, key))
    ensures LastSample(Apply(s, db), key) == LaterTime(SampleTime(key)(s), LastSample(db, key))
  {
  }

  /** Starting from an empty database, the three merged columns are the latest times written. */
  lemma {:induction false} TimesAreLatest(log: seq<Stmt>, machineId: string, key: string)
    ensures LastSeen(ApplyAll(log, EMPTY_DB), machineId) == Latest(log, MachineTime(machineId))
    ensures LastHello(ApplyAll(log, EMPTY_DB), key) == Latest(log, HelloTime(key))
    ensures LastSample(ApplyAll(log, EMPTY_DB), key) == Latest(log, SampleTime(key))
  {
    if log != [] {
      var front := log[..|log| - 1];
      TimesAreLatest(front, machineId, key);
      ApplyMerges(log[|log| - 1], ApplyAll(front, EMPTY_DB), machineId, key);
    }
  }

  /** After any concurrent run, the committed times are the maxima over the committed writes ... */
  lemma CommittedTimesAreMaxima(events: seq<Event>, machineId: string, key: string)
    ensures var sys := Run(Start(EMPTY_DB), events);
            var log := Stmts(sys.disk.committedLog);
            && IsMaximum(LastSeen(sys.disk.conn.committed, machineId), log, MachineTime(machineId))
            && IsMaximum(LastHello(sys.disk.conn.committed, key), log, HelloTime(key))
            && IsMaximum(LastSample(sys.disk.conn.committed, key), log, SampleTime(key))
  {
    var log := Stmts(Run(Start(EMPTY_DB), events).disk.committedLog);
    RunReplays(EMPTY_DB, events);
    TimesAreLatest(log, machineId, key);
    LatestIsMaximum(log, MachineTime(machineId));
    LatestIsMaximum(log, HelloTime(key));
    LatestIsMaximum(log, SampleTime(key));
  }

  /** ... and any other order of the same writes would have left the same times. */
  lemma TimesIgnoreOrder(a: seq<Stmt>, b: seq<Stmt>, machineId: string, key: string)
    requires multiset(a) == multiset(b)
    ensures var x, y := ApplyAll(a, EMPTY_DB), ApplyAll(b, EMPTY_DB);
            && LastSeen(x, machineId) == LastSeen(y, machineId)
            && LastHello(x, key) == LastHello(y, key)
            && LastSample(x, key) == LastSample(y, key)
  {
    TimesAreLatest(a, machineId, key);
    TimesAreLatest(b, machineId, key);
    LatestIgnoresOrder(a, b, MachineTime(machineId));
    LatestIgnoresOrder(a, b, HelloTime(key));
    LatestIgnoresOrder(a, b, SampleTime(key));
  }

  function First(log: seq<Stmt>, time: TimeOf): Option<int> {
    if log == [] then None
    else if time(log[0]).Some? then time(log[0])
    else First(log[1..], time)
  }

  lemma {:induction false} FirstOfLonger(log: seq<Stmt>, s: Stmt, time: TimeOf)
    ensures First(log + [s], time) == if First(log, time).Some? then First(log, time) else time(s)
  {
    if log == [] {
      assert ([] + [s])[1..] == [];
    } else {
      assert (log + [s])[1..] == log[1..] + [s];
      FirstOfLonger(log[1..], s, time);
    }
  }

  lemma ApplyKeepsFirst(s: Stmt, db: Db, machineId: string)
    ensures FirstSeen(Apply(s, db), machineId)
         == if FirstSeen(db, machineId).Some? then FirstSeen(db, machineId) else MachineTime(machineId)(s)
  {
  }

  /** The first-seen time is the time of the machine's first write ... */
  lemma {:induction false} FirstSeenIsFirst(log: seq<Stmt>, machineId: string)
    ensures FirstSeen(ApplyAll(log, EMPTY_DB), machineId) == First(log, MachineTime(machineId))
  {
    if log != [] {
      var front, last := log[..|log| - 1], log[|log| - 1];
      FirstSeenIsFirst(front, machineId);
      ApplyKeepsFirst(last, ApplyAll(front, EMPTY_DB), machineId);
      FirstOfLonger(front, last, MachineTime(machineId));
      assert front + [last] == log;
    }
  }

  /** ... and is never after the last-seen time. */
  lemma FirstSeenBeforeLastSeen(log: seq<Stmt>, machineId: string)
    requires First(log, MachineTime(machineId)).Some?
    ensures Latest(log, MachineTime(machineId)).Some?
    ensures First(log, MachineTime(machineId)).value <= Latest(log, MachineTime(machineId)).value
  {
    FirstSeenIsFirst(log, machineId);
    TimesAreLatest(log, machineId, "");
    ReplayKeepsValid(log, EMPTY_DB);
  }

  // ---- Who owns a collector row ----

  /** The name a statement gives to a machine, if any. */
  function NameOf(machineId: string, s: Stmt): Option<string> {
    if s.UpsertMachine? && s.machineId == machineId then s.hostname else None
  }

  function Hostname(db: Db, machineId: string): Option<string> {
    if machineId in db.machines then db.machines[machineId].hostname else None
  }

  lemma ApplyCoalesces(s: Stmt, db: Db, machineId: string)
    ensures Hostname(Apply(s, db), machineId) == Coalesce(NameOf(machineId, s), Hostname(db, machineId))
  {
  }

  /** Statement i is the last to name the machine, or i is -1 and none does. */
  predicate IsLastNamed(log: seq<Stmt>, machineId: string, i: int) {
    && -1 <= i < |log| && (i >= 0 ==> NameOf(machineId, log[i]).Some?)
    && forall j :: i < j < |log| ==> NameOf(machineId, log[j]).None?
  }

  /** The COALESCE of the machine upsert: messages without a name keep the last one given. */
  lemma {:induction false} HostnameIsLastGiven(log: seq<Stmt>, machineId: string, i: int)
    requires IsLastNamed(log, machineId, i)
    ensures Hostname(ApplyAll(log, EMPTY_DB), machineId) == if i >= 0 then NameOf(machineId, log[i]) else None
    decreases |log|
  {
    if log != [] {
      var front, last := log[..|log| - 1], log[|log| - 1];
      ApplyCoalesces(last, ApplyAll(front, EMPTY_DB), machineId);
      if i < |front| {
        assert NameOf(machineId, log[|log| - 1]).None?;
        HostnameIsLastGiven(front, machineId, i);
      }
    }
  }

  /** The machine and source of the last write to a collector key: the row's columns. */
  function Owner(log: seq<Stmt>, key: string): Option<(string, string)> {
    if log == [] then None
    else
      var s := log[|log| - 1];
      if s.UpsertCollector? && CollectorId(s.machineId, s.source) == key
      then Some((s.machineId, s.source)) else Owner(log[..|log| - 1], key)
  }

  function RowOwner(db: Db, key: string): Option<(string, string)> {
    if key in db.collectors then Some((db.collectors[key].machineId, db.collectors[key].source)) else None
  }

  lemma WriterOwnsRow(s: Stmt, db: Db, key: string)
    ensures RowOwner(Apply(s, db), key) ==
              if s.UpsertCollector? && CollectorId(s.machineId, s.source) == key
              then Some((s.machineId, s.source)) else RowOwner(db, key)
  {
  }

  lemma {:induction false} RowOwnerIsLastWriter(log: seq<Stmt>, key: string)
    ensures RowOwner(ApplyAll(log, EMPTY_DB), key) == Owner(log, key)
  {
    if log != [] {
      WriterOwnsRow(log[|log| - 1], ApplyAll(log[..|log| - 1], EMPTY_DB), key);
      RowOwnerIsLastWriter(log[..|log| - 1], key);
    }
  }

  /** The times that this machine's own writes for this source carried. */
  function OwnSampleTime(machineId: string, source: string): TimeOf {
    (s: Stmt) => if s.UpsertCollector? && s.machineId == machineId && s.source == source then s.sampleMs else None
  }

  predicate Colon(s: string) {
    ':' in s
  }

  /** Two pairs share a key exactly when one machine continues the other up to a colon and
      the sources make up for it. */
  lemma CollectorIdsCollideIff(machine1: string, source1: string, machine2: string, source2: string)
    requires |machine1| <= |machine2|
    ensures CollectorId(machine1, source1) == CollectorId(machine2, source2) <==>
              (machine1, source1) == (machine2, source2)
              || exists middle :: machine2 == machine1 + ":" + middle && source1 == middle + ":" + source2
  {
    var n1, n2 := |machine1|, |machine2|;
    var key := CollectorId(machine2, source2);
    if CollectorId(machine1, source1) == key && n1 < n2 {
      var middle := machine2[n1 + 1..];
      assert key[..n1] == machine1 && key[n1] == ':' && key[n1 + 1..] == source1;
      assert machine2 == key[..n2] && machine2 == machine2[..n1] + [machine2[n1]] + middle;
      assert key[n1 + 1..] == middle + ":" + source2;
    } else if CollectorId(machine1, source1) == key {
      assert key[..n1] == machine1 && key[..n2] == machine2;
      assert key[n1 + 1..] == source1 && key[n2 + 1..] == source2;
    }
    forall middle | machine2 == machine1 + ":" + middle && source1 == middle + ":" + source2
      ensures CollectorId(machine1, source1) == key
    {
      assert CollectorId(machine1, source1) == machine1 + ":" + (middle + ":" + source2);
    }
  }

  lemma ColonInside(source: string)
    ensures forall middle: string :: Colon(middle + ":" + source)
  {
    forall middle: string
      ensures Colon(middle + ":" + source)
    {
      assert (middle + ":" + source)[|middle|] == ':';
    }
  }

  /** A key made from a colon-free machine and a colon-free source belongs to no other pair. */
  lemma UnsharedKey(machine1: string, source1: string, machine2: string, source2: string)
    requires !Colon(machine2) && !Colon(source2)
    requires CollectorId(machine1, source1) == CollectorId(machine2, source2)
    ensures machine1 == machine2 && source1 == source2
  {
    if |machine1| <= |machine2| {
      CollectorIdsCollideIff(machine1, source1, machine2, source2);
      assert forall middle: string {:trigger machine1 + ":" + middle} :: Colon(machine1 + ":" + middle) by {
        forall middle: string
          ensures Colon(machine1 + ":" + middle)
        {
          assert (machine1 + ":" + middle)[|machine1|] == ':';
        }
      }
    } else {
      CollectorIdsCollideIff(machine2, source2, machine1, source1);
      ColonInside(source1);
    }
  }
}
