/** Transactions: begin, commit, rollback, and joining an enclosing transaction. */
module UnitOfWork {
  import opened Common
  import opened Tables

  /** The database as other connections see it. The two BIGSERIAL sequences hand out values
      at once; a rolled-back transaction leaves a gap. */
  class Database {
    var committed: Store
    var checkSeq: nat
    var outboxSeq: nat

    constructor ()
      ensures committed == EMPTY && checkSeq == 1 && outboxSeq == 1
    {
      committed, checkSeq, outboxSeq := EMPTY, 1, 1;
    }
  }

  /** An open transaction. Once a statement has failed, every later one fails too. */
  class Tx {
    const db: Database
    var view: Store
    var aborted: bool

    constructor (db: Database)
      ensures this.db == db && view == db.committed && !aborted
    {
      this.db, view, aborted := db, db.committed, false;
    }
  }

  datatype Scope = Root(db: Database) | Inside(tx: Tx)

  /** What becomes of COMMIT: acknowledged, refused, or applied with the answer lost. */
  datatype CommitOutcome = Applied | Refused | AppliedUnseen

  /** How the callback ended. */
  datatype Outcome = Returned(err: Option<Error>) | Panicked

  /** WithinTx up to the call of the callback: join the caller's transaction or begin one. */
  method Begin(scope: Scope, fails: bool) returns (r: Result<Tx>, owned: bool)
    ensures scope.Inside? ==> r == Ok(scope.tx) && !owned
    ensures scope.Root? && fails ==> r == Err(BeginFailed)
    ensures scope.Root? && !fails ==>
      r.Ok? && owned && fresh(r.value) && r.value.db == scope.db && r.value.view == scope.db.committed && !r.value.aborted
  {
    match scope
    case Inside(tx) => return Ok(tx), false;
    case Root(db) =>
      if fails { return Err(BeginFailed), true; }
      var tx := new Tx(db);
      return Ok(tx), true;
  }

  /** The transaction is durable exactly if it is ours, the callback returned nil, no
      statement failed on the way, and the server applied the commit. */
  predicate Durable(owned: bool, aborted: bool, outcome: Outcome, commit: CommitOutcome) {
    owned && outcome == Returned(None) && !aborted && !commit.Refused?
  }

  /** WithinTx after the callback: the deferred block. An error or a panic rolls back and is
      passed on; otherwise commit, and report a commit that was not acknowledged. */
  method Finish(tx: Tx, owned: bool, outcome: Outcome, commit: CommitOutcome) returns (result: Outcome)
    modifies tx.db`committed
    ensures tx.db.committed == if Durable(owned, tx.aborted, outcome, commit) then tx.view else old(tx.db.committed)
    ensures owned && outcome == Returned(None) && !tx.aborted && (commit.Applied? || commit.AppliedUnseen?) ==>
      tx.db.committed == tx.view
    ensures !owned || outcome != Returned(None) || tx.aborted || commit.Refused? ==>
      tx.db.committed == old(tx.db.committed)
    ensures !owned || outcome != Returned(None) ==> result == outcome
    ensures owned && outcome == Returned(None) ==>
      result == Returned(if commit.Applied? && !tx.aborted then None else Some(CommitFailed))
  {
    if !owned { return outcome; }
    match outcome
    case Panicked => return Panicked;
    case Returned(err) =>
      if err.Some? { return outcome; }
      if tx.aborted || commit.Refused? { return Returned(Some(CommitFailed)); }
      tx.db.committed := tx.view;
      return Returned(if commit.AppliedUnseen? then Some(CommitFailed) else None);
  }
}
