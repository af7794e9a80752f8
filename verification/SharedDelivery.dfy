/**
 Delivery on the shared connection: the collectors' statements in between change neither the catalog nor
 the samples.
 */
module SharedDelivery {
  import opened Database
  import opened Delivery
  import opened Interleaving
  import opened Messages
  import Service
  import Session
  import Store
  import opened Subsequence

  predicate LeavesSensors(s: Stmt) {
    !s.UpsertSensor? && !s.InsertSample?
  }

  /** The collectors write GPU rows, runtime rows and health rows. */
  predicate CollectorsLeaveSensors(events: seq<Event>) {
    forall i :: 0 <= i < |events| && events[i].CollectorWrite? ==> LeavesSensors(events[i].stmt)
  }

  predicate Clean(log: seq<Entry>) {
    forall i :: 0 <= i < |log| && !log[i].fromPipe ==> LeavesSensors(log[i].stmt)
  }

  lemma NextIsClean(sys: System, event: Event)
    requires Clean(sys.disk.workingLog) && Clean(sys.disk.committedLog)
    requires event.CollectorWrite? ==> LeavesSensors(event.stmt)
    ensures Clean(Next(sys, event).disk.workingLog) && Clean(Next(sys, event).disk.committedLog)
  {
  }

  lemma {:induction false} RunIsClean(db: Db, events: seq<Event>)
    requires CollectorsLeaveSensors(events)
    ensures var disk := Run(Start(db), events).disk; Clean(disk.workingLog) && Clean(disk.committedLog)
    decreases |events|
  {
    if events != [] {
      var front := events[..|events| - 1];
      assert forall i :: 0 <= i < |front| ==> front[i] == events[i];
      RunIsClean(db, front);
      NextIsClean(Run(Start(db), front), events[|events| - 1]);
    }
  }

  predicate SameSensors(a: Db, b: Db) {
    a.catalog == b.catalog && a.samples == b.samples
  }

  lemma ApplySameSensors(s: Stmt, a: Db, b: Db)
    requires SameSensors(a, b)
    ensures SameSensors(Apply(s, a), Apply(s, b))
    ensures LeavesSensors(s) ==> SameSensors(Apply(s, a), b)
  {
  }

  /** Without the collectors' statements the sensors and samples are the same. */
  lemma {:induction false} PipePartDecides(log: seq<Entry>, db: Db)
    requires Clean(log)
    ensures SameSensors(ApplyAll(Stmts(log), db), ApplyAll(PipePart(log), db))
    decreases |log|
  {
    if log != [] {
      var front, last := log[..|log| - 1], log[|log| - 1];
      PipePartDecides(front, db);
      assert log == front + [last];
      LogAppend(front, last);
      ApplyOne(Stmts(front), last.stmt, db);
      ApplySameSensors(last.stmt, ApplyAll(Stmts(front), db), ApplyAll(PipePart(front), db));
      if last.fromPipe {
        ApplyOne(PipePart(front), last.stmt, db);
      } else {
        assert PipePart(front) + [] == PipePart(front);
      }
    }
  }

  lemma NextStatements(front: seq<BridgeMessage>, last: BridgeMessage, db: Db, mid: Db)
    requires mid == ApplyAll(AllStatements(front), db) == Service.StoreAll(front, db)
    ensures ApplyAll(AllStatements(front + [last]), db) == Service.StoreAll(front + [last], db)
  {
    StoredAppend(front, last);
    ApplyConcat(AllStatements(front), Store.StatementsOf(last), db);
    StoreLast(front, last, db);
  }

  lemma {:induction false} StatementsOfAll(messages: seq<BridgeMessage>, db: Db)
    ensures ApplyAll(AllStatements(messages), db) == Service.StoreAll(messages, db)
    decreases |messages|
  {
    if messages != [] {
      var front, last := SplitLast(messages);
      StatementsOfAll(front, db);
      NextStatements(front, last, db, Service.StoreAll(front, db));
    }
  }

  lemma CommittedIsStored(db: Db, events: seq<Event>)
    requires CollectorsLeaveSensors(events) && NoStray(db, events)
    ensures var sys := Run(Start(db), events);
            SameSensors(sys.disk.conn.committed, Service.StoreAll(sys.stored, db))
  {
    var sys := Run(Start(db), events);
    RunReplays(db, events);
    RunIsClean(db, events);
    MessagesAreWholeIff(db, events);
    PipePartDecides(sys.disk.committedLog, db);
    StatementsOfAll(sys.stored, db);
  }

  /** In every interleaving with the collectors, with any calls failing, while the pipe's transaction is open
      whenever it executes a statement: the committed sample table is the one from before, overwritten in
      order with the samples of the acknowledged batches, each for the sensors that were known by then. */
  lemma SharedTable(db: Db, events: seq<Event>)
    requires CollectorsLeaveSensors(events) && NoStray(db, events)
    ensures var sys := Run(Start(db), events);
            sys.disk.conn.committed.samples
            == LastWins(db.samples, DeliveredWrites(sys.stored, db.catalog.Keys))
  {
    CommittedIsStored(db, events);
    TableOfMessages(Run(Start(db), events).stored, db);
  }

  /** And a key is in it exactly when it was before, or an acknowledged batch carries it for a sensor that was
      known by then. */
  lemma SharedSampleIff(db: Db, events: seq<Event>, key: SampleKey)
    requires CollectorsLeaveSensors(events) && NoStray(db, events)
    ensures var sys := Run(Start(db), events);
            key in sys.disk.conn.committed.samples <==>
              key in db.samples || StoresKey(sys.stored, db.catalog.Keys, key)
  {
    CommittedIsStored(db, events);
    KeyIsStoredIff(Run(Start(db), events).stored, db, key);
  }

  /** When all messages of a session are acknowledged, whatever the collectors write in between, all samples
      sent for known sensors are delivered. */
  lemma SharedSession(db: Db, events: seq<Event>, o: Session.Options, opening: Session.Opening,
                      rounds: seq<Session.Round>, link: Link)
    requires CollectorsLeaveSensors(events) && NoStray(db, events)
    requires Run(Start(db), events).stored
          == ReadAllBack(Session.SessionMessages(o, opening, rounds), ReaderWith(link.printer))
    ensures Run(Start(db), events).disk.conn.committed.samples
         == LastWins(db.samples, Within(SentWrites(o, rounds), KnownUids(opening, db)))
  {
    CommittedIsStored(db, events);
    SessionIsStored(o, opening, rounds, link.printer, db);
  }
}
