/**
 The shared connection under concurrency: the pipe thread runs one message transaction at a time while
 the collectors issue single statements on the same connection, in any order, and any call may fail.
 */
module Interleaving {
  import opened Database
  import opened Engine
  import opened Messages
  import opened Store

  /** The pipe thread: waiting for a message, about to execute statement `next` of `m` (or COMMIT when
      there is none left), or failed and about to ROLLBACK. */
  datatype Pipe = Waiting | Executing(m: BridgeMessage, next: nat) | Abandoned

  /** A statement that succeeded, and whether the pipe thread issued it. */
  datatype Entry = Entry(stmt: Stmt, fromPipe: bool)

  /** The connection, with the statements that make up its two databases. */
  datatype Disk = Disk(conn: Conn, committedLog: seq<Entry>, workingLog: seq<Entry>) {

    /** After a call that wrote nothing. */
    function Follow(after: Conn): Disk {
      if after.inTransaction then this.(conn := after) else Disk(after, committedLog, committedLog)
    }

    function Wrote(after: Conn, entry: Entry): Disk {
      var log := workingLog + [entry];
      Disk(after, if after.inTransaction then committedLog else log, log)
    }

    function Write(s: Stmt, fromPipe: bool, fate: Fate): Disk {
      var (after, ok) := conn.Execute(s, fate);
      if ok then Wrote(after, Entry(s, fromPipe)) else Follow(after)
    }

    function Commit(fate: Fate): (Disk, bool) {
      var (after, ok) := conn.Commit(fate);
      (if ok then Disk(after, workingLog, workingLog) else Follow(after), ok)
    }

    /** The databases are the replays of the logs, and the committed log is a prefix of the other. */
    predicate Replays(db: Db) {
      && conn.committed == ApplyAll(Stmts(committedLog), db)
      && conn.working == ApplyAll(Stmts(workingLog), db)
      && committedLog <= workingLog
      && (!conn.inTransaction ==> committedLog == workingLog)
    }
  }

  /** `stored` lists the messages whose writer returned true. `torn` counts the pipe's statements that
      ran outside a transaction. */
  datatype System = System(disk: Disk, pipe: Pipe, stored: seq<BridgeMessage>, torn: nat)

  datatype Event =
    | PipeBegin(m: BridgeMessage, fate: Fate)
    | PipeExecute(fate: Fate)
    | PipeCommit(fate: Fate)
    | PipeRollback
    | CollectorWrite(stmt: Stmt, fate: Fate)

  function Start(db: Db): System {
    System(Disk(Conn(db, db, false), [], []), Waiting, [], 0)
  }

  function PipeStep(sys: System, m: BridgeMessage, next: nat, event: Event): System
    requires next <= |StatementsOf(m)|
  {
    match event
    case PipeExecute(fate) =>
      if next == |StatementsOf(m)| then sys
      else
        var disk := sys.disk.Write(StatementsOf(m)[next], true, fate);
        if fate.Succeeds? then
          System(disk, Executing(m, next + 1), sys.stored,
                 sys.torn + if sys.disk.conn.inTransaction then 0 else 1)
        else
          sys.(disk := disk, pipe := Abandoned)
    case PipeCommit(fate) =>
      if next < |StatementsOf(m)| then sys
      else
        var (disk, ok) := sys.disk.Commit(fate);
        if ok then System(disk, Waiting, sys.stored + [m], sys.torn)
        else sys.(disk := disk, pipe := Abandoned)
    case _ => sys
  }

  /** One step; an event that is not possible now changes nothing. */
  function Next(sys: System, event: Event): System {
    match event
    case CollectorWrite(s, fate) => sys.(disk := sys.disk.Write(s, false, fate))
    case _ =>
      match sys.pipe
      case Waiting =>
        if event.PipeBegin? then
          var (conn, ok) := sys.disk.conn.Begin(event.fate);
          sys.(disk := sys.disk.Follow(conn), pipe := if ok then Executing(event.m, 0) else Waiting)
        else sys
      case Executing(m, next) =>
        if next <= |StatementsOf(m)| then PipeStep(sys, m, next, event) else sys
      case Abandoned =>
        if event.PipeRollback? then
          sys.(disk := sys.disk.Follow(sys.disk.conn.Rollback()), pipe := Waiting)
        else sys
  }

  function Run(sys: System, events: seq<Event>): System {
    if events == [] then sys
    else Next(Run(sys, events[..|events| - 1]), events[|events| - 1])
  }

  function Stmts(log: seq<Entry>): seq<Stmt> {
    if log == [] then [] else Stmts(log[..|log| - 1]) + [log[|log| - 1].stmt]
  }

  /** The pipe's own statements in a log. */
  function PipePart(log: seq<Entry>): seq<Stmt> {
    if log == [] then []
    else PipePart(log[..|log| - 1])
         + if log[|log| - 1].fromPipe then [log[|log| - 1].stmt] else []
  }

  function AllStatements(messages: seq<BridgeMessage>): seq<Stmt> {
    if messages == [] then []
    else AllStatements(messages[..|messages| - 1]) + StatementsOf(messages[|messages| - 1])
  }

  // ---- Replay ----

  lemma LogAppend(log: seq<Entry>, entry: Entry)
    ensures Stmts(log + [entry]) == Stmts(log) + [entry.stmt]
    ensures PipePart(log + [entry]) == PipePart(log) + if entry.fromPipe then [entry.stmt] else []
  {
    assert (log + [entry])[..|log|] == log;
  }

  lemma ReplayAppend(log: seq<Entry>, entry: Entry, db: Db)
    ensures ApplyAll(Stmts(log + [entry]), db) == Apply(entry.stmt, ApplyAll(Stmts(log), db))
  {
    LogAppend(log, entry);
    ApplyOne(Stmts(log), entry.stmt, db);
  }

  lemma WroteReplays(disk: Disk, after: Db, entry: Entry, db: Db)
    requires disk.Replays(db) && after == ApplyAll(Stmts(disk.workingLog + [entry]), db)
    ensures disk.Wrote(disk.conn.Changed(after), entry).Replays(db)
    ensures disk.committedLog <= disk.Wrote(disk.conn.Changed(after), entry).committedLog
  {
  }

  lemma WriteReplays(disk: Disk, s: Stmt, fromPipe: bool, fate: Fate, db: Db)
    requires disk.Replays(db)
    ensures disk.Write(s, fromPipe, fate).Replays(db)
    ensures disk.committedLog <= disk.Write(s, fromPipe, fate).committedLog
  {
    ReplayAppend(disk.workingLog, Entry(s, fromPipe), db);
    WroteReplays(disk, Apply(s, disk.conn.working), Entry(s, fromPipe), db);
  }

  lemma OtherCallsReplay(disk: Disk, fate: Fate, db: Db)
    requires disk.Replays(db)
    ensures disk.Follow(disk.conn.Begin(fate).0).Replays(db)
    ensures disk.committedLog <= disk.Follow(disk.conn.Begin(fate).0).committedLog
    ensures disk.Follow(disk.conn.Rollback()).Replays(db)
    ensures disk.committedLog <= disk.Follow(disk.conn.Rollback()).committedLog
  {
  }

  lemma CommitReplays(disk: Disk, fate: Fate, db: Db)
    requires disk.Replays(db)
    ensures disk.Commit(fate).0.Replays(db)
    ensures disk.committedLog <= disk.Commit(fate).0.committedLog
  {
  }

  lemma PipeExecuteReplays(sys: System, fate: Fate, db: Db)
    requires sys.disk.Replays(db) && sys.pipe.Executing?
    requires sys.pipe.next < |StatementsOf(sys.pipe.m)|
    ensures PipeStep(sys, sys.pipe.m, sys.pipe.next, PipeExecute(fate)).disk.Replays(db)
    ensures sys.disk.committedLog <= PipeStep(sys, sys.pipe.m, sys.pipe.next, PipeExecute(fate)).disk.committedLog
  {
    WriteReplays(sys.disk, StatementsOf(sys.pipe.m)[sys.pipe.next], true, fate, db);
  }

  lemma PipeStepReplays(sys: System, event: Event, db: Db)
    requires sys.disk.Replays(db) && sys.pipe.Executing?
    requires sys.pipe.next <= |StatementsOf(sys.pipe.m)|
    ensures PipeStep(sys, sys.pipe.m, sys.pipe.next, event).disk.Replays(db)
    ensures sys.disk.committedLog <= PipeStep(sys, sys.pipe.m, sys.pipe.next, event).disk.committedLog
  {
    if event.PipeExecute? && sys.pipe.next < |StatementsOf(sys.pipe.m)| {
      PipeExecuteReplays(sys, event.fate, db);
    } else if event.PipeCommit? {
      CommitReplays(sys.disk, event.fate, db);
    }
  }

  lemma CollectorReplays(sys: System, s: Stmt, fate: Fate, db: Db)
    requires sys.disk.Replays(db)
    ensures Next(sys, CollectorWrite(s, fate)).disk.Replays(db)
    ensures sys.disk.committedLog <= Next(sys, CollectorWrite(s, fate)).disk.committedLog
  {
    WriteReplays(sys.disk, s, false, fate, db);
  }

  lemma PipeReplays(sys: System, event: Event, db: Db)
    requires sys.disk.Replays(db) && !event.CollectorWrite?
    ensures Next(sys, event).disk.Replays(db)
    ensures sys.disk.committedLog <= Next(sys, event).disk.committedLog
  {
    match sys.pipe
    case Waiting =>
      OtherCallsReplay(sys.disk, if event.PipeBegin? then event.fate else Fails, db);
    case Executing(m, next) =>
      if next <= |StatementsOf(m)| {
        PipeStepReplays(sys, event, db);
      }
    case Abandoned =>
      OtherCallsReplay(sys.disk, Fails, db);
  }

  lemma NextReplays(sys: System, event: Event, db: Db)
    requires sys.disk.Replays(db)
    ensures Next(sys, event).disk.Replays(db)
    ensures sys.disk.committedLog <= Next(sys, event).disk.committedLog
  {
    if event.CollectorWrite? {
      CollectorReplays(sys, event.stmt, event.fate, db);
    } else {
      PipeReplays(sys, event, db);
    }
  }

  lemma {:induction false} RunReplays(db: Db, events: seq<Event>)
    ensures Run(Start(db), events).disk.Replays(db)
    decreases |events|
  {
    if events != [] {
      RunReplays(db, events[..|events| - 1]);
      NextReplays(Run(Start(db), events[..|events| - 1]), events[|events| - 1], db);
    }
  }

  // ---- Safety ----

  lemma {:induction false} ReplayKeepsValid(statements: seq<Stmt>, db: Db)
    requires Valid(db)
    ensures Valid(ApplyAll(statements, db))
  {
    if statements != [] {
      ReplayKeepsValid(statements[..|statements| - 1], db);
      ApplyKeepsValid(statements[|statements| - 1], ApplyAll(statements[..|statements| - 1], db));
    }
  }

  /** In every interleaving, with any calls failing, both databases keep every sample's sensor in the
      catalog and every row under its own key. */
  lemma EveryRunIsSafe(db: Db, events: seq<Event>)
    requires Valid(db)
    ensures Valid(Run(Start(db), events).disk.conn.working)
    ensures Valid(Run(Start(db), events).disk.conn.committed)
  {
    var sys := Run(Start(db), events);
    RunReplays(db, events);
    ReplayKeepsValid(Stmts(sys.disk.workingLog), db);
    ReplayKeepsValid(Stmts(sys.disk.committedLog), db);
  }

  lemma {:induction false} ReplayGrows(a: seq<Stmt>, b: seq<Stmt>, db: Db)
    requires a <= b
    ensures Grows(ApplyAll(a, db), ApplyAll(b, db))
    decreases |b|
  {
    if |a| < |b| {
      var front := b[..|b| - 1];
      ReplayGrows(a, front, db);
      ApplyGrows(b[|b| - 1], ApplyAll(front, db));
      GrowsTransitive(ApplyAll(a, db), ApplyAll(front, db), ApplyAll(b, db));
    } else {
      assert a == b;
    }
  }

  lemma {:induction false} PrefixOfLogs(a: seq<Entry>, b: seq<Entry>)
    requires a <= b
    ensures Stmts(a) <= Stmts(b)
    decreases |b|
  {
    if |a| < |b| {
      PrefixOfLogs(a, b[..|b| - 1]);
    } else {
      assert a == b;
    }
  }

  lemma {:induction false} CommittedLogOnlyGrows(db: Db, events: seq<Event>, more: seq<Event>)
    ensures Run(Start(db), events).disk.committedLog <= Run(Start(db), events + more).disk.committedLog
    decreases |more|
  {
    if more == [] {
      assert events + more == events;
    } else {
      var front := more[..|more| - 1];
      assert (events + more)[..|events + more| - 1] == events + front;
      CommittedLogOnlyGrows(db, events, front);
      RunReplays(db, events + front);
      NextReplays(Run(Start(db), events + front), more[|more| - 1], db);
    }
  }

  /** What is committed stays: no row disappears, first-seen times are fixed, and no merged machine or
      collector time ever decreases. */
  lemma CommittedStateNeverShrinks(db: Db, events: seq<Event>, more: seq<Event>)
    ensures Grows(Run(Start(db), events).disk.conn.committed, Run(Start(db), events + more).disk.conn.committed)
  {
    var a, b := Run(Start(db), events), Run(Start(db), events + more);
    CommittedLogOnlyGrows(db, events, more);
    RunReplays(db, events);
    RunReplays(db, events + more);
    PrefixOfLogs(a.disk.committedLog, b.disk.committedLog);
    ReplayGrows(Stmts(a.disk.committedLog), Stmts(b.disk.committedLog), db);
  }

  /** While a transaction is open, only a successful COMMIT changes the committed database. */
  lemma OpenTransactionIsIsolated(db: Db, events: seq<Event>, event: Event)
    requires var sys := Run(Start(db), events); sys.disk.conn.inTransaction
    ensures var sys := Run(Start(db), events);
            Next(sys, event).disk.conn.committed != sys.disk.conn.committed ==>
              event == PipeCommit(Succeeds) && Next(sys, event).stored == sys.stored + [sys.pipe.m]
  {
  }

  // ---- Whole messages ----

  /** Up to torn statements, the pipe's part of the committed log is the stored messages, whole; inside
      a transaction the rest of the log holds the first statements of the current message. */
  predicate Whole(sys: System) {
    && WholeLog(sys.disk, AllStatements(sys.stored), sys.torn)
    && (sys.disk.conn.inTransaction ==> !sys.pipe.Waiting?)
    && (sys.pipe.Executing? ==> Partly(sys.disk, StatementsOf(sys.pipe.m), sys.pipe.next))
  }

  predicate WholeLog(disk: Disk, stored: seq<Stmt>, torn: nat) {
    && |PipePart(disk.committedLog)| == |stored| + torn
    && (torn == 0 ==> PipePart(disk.committedLog) == stored)
    && (!disk.conn.inTransaction ==> disk.committedLog == disk.workingLog)
  }

  predicate Partly(disk: Disk, statements: seq<Stmt>, next: nat) {
    && next <= |statements|
    && (disk.conn.inTransaction ==>
          PipePart(disk.workingLog) == PipePart(disk.committedLog) + statements[..next])
  }

  lemma StoredAppend(messages: seq<BridgeMessage>, m: BridgeMessage)
    ensures AllStatements(messages + [m]) == AllStatements(messages) + StatementsOf(m)
  {
    assert (messages + [m])[..|messages|] == messages;
  }

  lemma ExecuteSucceedsWhole(sys: System)
    requires Whole(sys) && sys.pipe.Executing? && sys.pipe.next < |StatementsOf(sys.pipe.m)|
    ensures Whole(PipeStep(sys, sys.pipe.m, sys.pipe.next, PipeExecute(Succeeds)))
  {
    ExtendWhole(sys.disk, AllStatements(sys.stored), sys.torn, StatementsOf(sys.pipe.m), sys.pipe.next,
                PipeStep(sys, sys.pipe.m, sys.pipe.next, PipeExecute(Succeeds)).disk);
  }

  lemma ExtendWhole(disk: Disk, stored: seq<Stmt>, torn: nat, statements: seq<Stmt>, next: nat, after: Disk)
    requires WholeLog(disk, stored, torn) && Partly(disk, statements, next) && next < |statements|
    requires after.conn.inTransaction == disk.conn.inTransaction
    requires after.workingLog == disk.workingLog + [Entry(statements[next], true)]
    requires after.committedLog == if disk.conn.inTransaction then disk.committedLog else after.workingLog
    ensures WholeLog(after, stored, torn + if disk.conn.inTransaction then 0 else 1)
    ensures Partly(after, statements, next + 1)
  {
    LogAppend(disk.workingLog, Entry(statements[next], true));
    assert statements[..next + 1] == statements[..next] + [statements[next]];
  }

  lemma ExecuteFailsWhole(sys: System, fate: Fate)
    requires Whole(sys) && sys.pipe.Executing? && sys.pipe.next < |StatementsOf(sys.pipe.m)| && !fate.Succeeds?
    ensures Whole(PipeStep(sys, sys.pipe.m, sys.pipe.next, PipeExecute(fate)))
  {
  }

  lemma CommitWhole(sys: System, fate: Fate)
    requires Whole(sys) && sys.pipe.Executing? && sys.pipe.next == |StatementsOf(sys.pipe.m)|
    ensures Whole(PipeStep(sys, sys.pipe.m, sys.pipe.next, PipeCommit(fate)))
  {
    assert StatementsOf(sys.pipe.m)[..sys.pipe.next] == StatementsOf(sys.pipe.m);
    StoredAppend(sys.stored, sys.pipe.m);
  }

  lemma WriteWhole(sys: System, s: Stmt, fate: Fate)
    requires Whole(sys)
    ensures Whole(sys.(disk := sys.disk.Write(s, false, fate)))
  {
    LogAppend(sys.disk.workingLog, Entry(s, false));
  }

  lemma NextWhole(sys: System, event: Event)
    requires Whole(sys)
    ensures Whole(Next(sys, event))
  {
    match event
    case PipeExecute(fate) =>
      if sys.pipe.Executing? && sys.pipe.next < |StatementsOf(sys.pipe.m)| {
        if fate.Succeeds? {
          ExecuteSucceedsWhole(sys);
        } else {
          ExecuteFailsWhole(sys, fate);
        }
      }
    case PipeCommit(fate) =>
      if sys.pipe.Executing? && sys.pipe.next == |StatementsOf(sys.pipe.m)| {
        CommitWhole(sys, fate);
      }
    case CollectorWrite(s, fate) =>
      WriteWhole(sys, s, fate);
    case _ =>
  }

  lemma {:induction false} RunWhole(db: Db, events: seq<Event>)
    ensures Whole(Run(Start(db), events))
    decreases |events|
  {
    if events != [] {
      var front := events[..|events| - 1];
      RunWhole(db, front);
      NextWhole(Run(Start(db), front), events[|events| - 1]);
    }
  }

  /** The pipe executes its next statement, successfully, on a connection that has left its transaction. */
  predicate Strays(sys: System, event: Event) {
    && event == PipeExecute(Succeeds) && !sys.disk.conn.inTransaction
    && sys.pipe.Executing? && sys.pipe.next < |StatementsOf(sys.pipe.m)|
  }

  /** Whenever the pipe executed a statement, its transaction was open. */
  predicate NoStray(db: Db, events: seq<Event>) {
    forall i :: 0 <= i < |events| ==> !StraysAt(db, events, i)
  }

  predicate StraysAt(db: Db, events: seq<Event>, i: nat)
    requires i < |events|
  {
    Strays(Run(Start(db), events[..i]), events[i])
  }

  lemma StrayIsCounted(sys: System, event: Event)
    ensures Next(sys, event).torn == sys.torn + if Strays(sys, event) then 1 else 0
  {
  }

  lemma StraysInFront(db: Db, front: seq<Event>, last: Event, i: nat)
    requires i < |front|
    ensures StraysAt(db, front + [last], i) == StraysAt(db, front, i)
  {
    assert (front + [last])[..i] == front[..i];
  }

  lemma NoStrayStep(db: Db, front: seq<Event>, last: Event)
    ensures NoStray(db, front + [last]) <==> NoStray(db, front) && !StraysAt(db, front + [last], |front|)
  {
    forall i | 0 <= i < |front| ensures StraysAt(db, front + [last], i) == StraysAt(db, front, i) {
      StraysInFront(db, front, last, i);
    }
  }

  lemma {:induction false} TornCountsStrays(db: Db, events: seq<Event>)
    ensures Run(Start(db), events).torn == 0 <==> NoStray(db, events)
    decreases |events|
  {
    if events != [] {
      var front := events[..|events| - 1];
      var last := events[|events| - 1];
      TornCountsStrays(db, front);
      assert events == front + [last];
      NoStrayStep(db, front, last);
      StrayIsCounted(Run(Start(db), front), last);
    }
  }

  /** The pipe's part of the committed log is the acknowledged messages, each whole and in order,
      exactly when the transaction was open before every statement that the pipe executed. */
  lemma MessagesAreWholeIff(db: Db, events: seq<Event>)
    ensures var sys := Run(Start(db), events);
            PipePart(sys.disk.committedLog) == AllStatements(sys.stored) <==> NoStray(db, events)
  {
    RunWhole(db, events);
    TornCountsStrays(db, events);
  }

  /** How a transaction can be lost: a statement of a collector rolled it back while the pipe was in it. */
  predicate CollectorBreaks(sys: System, event: Event) {
    event.CollectorWrite? && event.fate.FailsAndRollsBack? && sys.pipe.Executing?
  }

  /** No collector statement rolls back the pipe's transaction during the run. */
  predicate NoBreak(db: Db, events: seq<Event>) {
    forall i :: 0 <= i < |events| ==> !CollectorBreaks(Run(Start(db), events[..i]), events[i])
  }

  lemma {:induction false} NoBreakNothingTorn(db: Db, events: seq<Event>)
    requires NoBreak(db, events)
    ensures var sys := Run(Start(db), events);
            sys.torn == 0 && (sys.pipe.Executing? ==> sys.disk.conn.inTransaction)
    decreases |events|
  {
    if events != [] {
      var front := events[..|events| - 1];
      forall i | 0 <= i < |front|
        ensures !CollectorBreaks(Run(Start(db), front[..i]), front[i])
      {
        assert front[..i] == events[..i] && front[i] == events[i];
      }
      NoBreakNothingTorn(db, front);
      assert !CollectorBreaks(Run(Start(db), events[..|events| - 1]), events[|events| - 1]);
    }
  }

  /** Without such a break every message is stored whole or not at all, in every interleaving. */
  lemma MessagesAreAtomic(db: Db, events: seq<Event>)
    requires NoBreak(db, events)
    ensures var sys := Run(Start(db), events); PipePart(sys.disk.committedLog) == AllStatements(sys.stored)
  {
    NoBreakNothingTorn(db, events);
    RunWhole(db, events);
  }

  // ---- What does not hold ----

  function SteppedFour(sys: System, a: Event, b: Event, c: Event, d: Event): System {
    Next(Next(Next(Next(sys, a), b), c), d)
  }

  /** A message can be stored in part: its transaction is rolled back under it by a collector, and its
      next statement then commits by itself. No acknowledgement is given. */
  lemma PartialMessage(db: Db, m: BridgeMessage, s: Stmt)
    ensures var sys := SteppedFour(Start(db), PipeBegin(m, Succeeds), PipeExecute(Succeeds),
                                   CollectorWrite(s, FailsAndRollsBack), PipeExecute(Succeeds));
            && sys.stored == [] && sys.torn == 1
            && sys.disk.committedLog == [Entry(CollectorStmt(m), true)]
            && sys.disk.conn.committed == Apply(CollectorStmt(m), db)
  {
    assert StatementsOf(m)[0] == MachineStmt(m) && StatementsOf(m)[1] == CollectorStmt(m);
  }

  /** A collector's write that succeeded can vanish: it joined the pipe's transaction, which failed. */
  lemma AcknowledgedWriteIsLost(db: Db, m: BridgeMessage, s: Stmt)
    ensures var written := Next(Next(Start(db), PipeBegin(m, Succeeds)), CollectorWrite(s, Succeeds));
            && written.disk.workingLog == [Entry(s, false)]
            && Next(Next(written, PipeExecute(Fails)), PipeRollback) == Start(db)
  {
  }

  lemma RunOne(db: Db, events: seq<Event>, event: Event)
    ensures Run(Start(db), events + [event]) == Next(Run(Start(db), events), event)
  {
    assert (events + [event])[..|events|] == events;
  }

  /** How the pipe gives up its message, with plain failures and no automatic rollback. */
  function GiveUp(sys: System): Event {
    if sys.pipe.Executing? && sys.pipe.next < |StatementsOf(sys.pipe.m)| then PipeExecute(Fails) else PipeCommit(Fails)
  }

  /** From any state with an open transaction, one failing call of the pipe and its ROLLBACK take the
      working database back to the committed one. */
  lemma GivingUpUndoes(sys: System)
    requires Whole(sys) && sys.disk.conn.inTransaction
    ensures Next(Next(sys, GiveUp(sys)), PipeRollback).disk.workingLog == sys.disk.committedLog
  {
  }

  /** In every reachable state with an open transaction: a collector's write that succeeds now is gone
      after three more calls, of which only one fails. */
  lemma OpenWriteCanBeLost(db: Db, events: seq<Event>, s: Stmt)
    requires Run(Start(db), events).disk.conn.inTransaction
    ensures var sys := Run(Start(db), events);
            var write := CollectorWrite(s, Succeeds);
            Run(Start(db), events + [write] + [GiveUp(Next(sys, write)), PipeRollback]).disk.workingLog
            == sys.disk.committedLog
  {
    var sys, write := Run(Start(db), events), CollectorWrite(s, Succeeds);
    var written := Next(sys, write);
    var more := [GiveUp(written), PipeRollback];
    RunWhole(db, events);
    NextWhole(sys, write);
    GivingUpUndoes(written);
    RunOne(db, events, write);
    RunOne(db, events + [write], more[0]);
    RunOne(db, events + [write] + [more[0]], more[1]);
    assert events + [write] + more == events + [write] + [more[0]] + [more[1]];
  }

  /** Outside a transaction a collector's write that succeeds is committed, and stays so. */
  lemma ClosedWriteIsKept(db: Db, events: seq<Event>, s: Stmt, more: seq<Event>)
    requires !Run(Start(db), events).disk.conn.inTransaction
    ensures var kept := Run(Start(db), events).disk.workingLog + [Entry(s, false)];
            var later := Run(Start(db), events + [CollectorWrite(s, Succeeds)] + more).disk;
            kept <= later.committedLog <= later.workingLog
  {
    var write := CollectorWrite(s, Succeeds);
    RunOne(db, events, write);
    CommittedLogOnlyGrows(db, events + [write], more);
    RunReplays(db, events + [write] + more);
  }

  /** Whatever happens after it, a collector's write that succeeded survives, exactly when no transaction
      was open at the time. */
  lemma WriteIsDurableIff(db: Db, events: seq<Event>, s: Stmt)
    ensures var sys := Run(Start(db), events);
            var kept := sys.disk.workingLog + [Entry(s, false)];
            !sys.disk.conn.inTransaction <==>
              forall more: seq<Event> ::
                kept <= Run(Start(db), events + [CollectorWrite(s, Succeeds)] + more).disk.workingLog
  {
    var sys := Run(Start(db), events);
    var kept, write := sys.disk.workingLog + [Entry(s, false)], CollectorWrite(s, Succeeds);
    if sys.disk.conn.inTransaction {
      RunReplays(db, events);
      OpenWriteCanBeLost(db, events, s);
      var more := [GiveUp(Next(sys, write)), PipeRollback];
      assert !(kept <= Run(Start(db), events + [write] + more).disk.workingLog);
    } else {
      forall more: seq<Event> ensures kept <= Run(Start(db), events + [write] + more).disk.workingLog {
        ClosedWriteIsKept(db, events, s, more);
      }
    }
  }
}
