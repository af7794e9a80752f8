/**
 One SQLite connection as the store uses it: the database on disk, the database this connection sees,
 and BEGIN, statements, COMMIT and ROLLBACK, each of which may fail.
 */
module Engine {
  import opened Database

  /** An engine call may fail and leave the transaction open, or fail and roll it back by itself. */
  datatype Fate = Succeeds | Fails | FailsAndRollsBack

  predicate CallsSucceed(fate: nat -> Fate, from: nat, count: nat) {
    forall i :: from <= i < from + count ==> fate(i).Succeeds?
  }

  /** How many of `count` calls are made when the first failure is the last call. */
  function CallsUsed(fate: nat -> Fate, from: nat, count: nat): nat
    decreases count
  {
    if count == 0 then 0
    else if !fate(from).Succeeds? then 1
    else 1 + CallsUsed(fate, from + 1, count - 1)
  }

  lemma {:induction false} AllCallsUsed(fate: nat -> Fate, from: nat, count: nat)
    requires CallsSucceed(fate, from, count)
    ensures CallsUsed(fate, from, count) == count
    decreases count
  {
    if count > 0 {
      AllCallsUsed(fate, from + 1, count - 1);
    }
  }

  lemma {:induction false} StopsAtFailure(fate: nat -> Fate, from: nat, count: nat, last: nat)
    requires from <= last < from + count && CallsSucceed(fate, from, last - from) && !fate(last).Succeeds?
    ensures CallsUsed(fate, from, count) == last - from + 1
    decreases count
  {
    if from < last {
      StopsAtFailure(fate, from + 1, count - 1, last);
    }
  }

  /** `working` is what statements on this connection read and write. */
  datatype Conn = Conn(committed: Db, working: Db, inTransaction: bool) {

    predicate Idle() {
      !inTransaction && working == committed
    }

    function Rollback(): Conn {
      if inTransaction then Conn(committed, committed, false) else this
    }

    function AfterFailure(fate: Fate): Conn {
      if fate.FailsAndRollsBack? then Rollback() else this
    }

    /** BEGIN IMMEDIATE; refused inside a transaction. */
    function Begin(fate: Fate): (Conn, bool) {
      if fate.Succeeds? && !inTransaction then (this.(inTransaction := true), true)
      else (AfterFailure(fate), false)
    }

    /** The working database has become `after`; outside a transaction that is committed at once. */
    function Changed(after: Db): Conn {
      Conn(if inTransaction then committed else after, after, inTransaction)
    }

    /** One statement. */
    function Execute(s: Stmt, fate: Fate): (Conn, bool) {
      if fate.Succeeds? then (Changed(Apply(s, working)), true) else (AfterFailure(fate), false)
    }

    /** COMMIT; refused outside a transaction. */
    function Commit(fate: Fate): (Conn, bool) {
      if fate.Succeeds? && inTransaction then (Conn(working, working, false), true)
      else (AfterFailure(fate), false)
    }
  }
}
