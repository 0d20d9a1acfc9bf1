/** The end of a transaction: TxHandler decides between rollback and commit from the error
    the work returned and from whatever a panic inside the work was recovered with. */
module Transaction {
  import opened Base

  const ErrRecovered := Text("recovered from panic")
  const CommitContext := "commit transaction"

  /** What recover() returned: nothing, an error value, a string, or any other value. */
  datatype Recovered = NoPanic | PanicError(err: Error) | PanicString(text: string) | PanicOther

  datatype TxCall = RollbackCall | CommitCall

  /** A database transaction. How the driver answers a rollback or a commit of the open
      transaction is fixed when it is begun; a transaction already ended answers
      sql.ErrTxDone. */
  class Tx {
    var open: bool
    var calls: seq<TxCall>
    /** The files loaded inside the transaction, in order. */
    var executed: seq<string>
    const rollbackFailure: Option<Error>
    const commitFailure: Option<Error>
    /** The files whose statements fail, with the error the driver reports. */
    const failingFiles: map<string, Error>

    constructor (rollbackFailure: Option<Error>, commitFailure: Option<Error>, failingFiles: map<string, Error>)
      ensures open && calls == [] && executed == []
      ensures this.rollbackFailure == rollbackFailure && this.commitFailure == commitFailure
      ensures this.failingFiles == failingFiles
    {
      open, calls, executed := true, [], [];
      this.rollbackFailure := rollbackFailure;
      this.commitFailure := commitFailure;
      this.failingFiles := failingFiles;
    }

    method Rollback() returns (err: Option<Error>)
      modifies this`open, this`calls
      ensures !open && calls == old(calls) + [RollbackCall]
      ensures err == (if old(open) then rollbackFailure else Some(ErrTxDone))
    {
      err := if open then rollbackFailure else Some(ErrTxDone);
      open := false;
      calls := calls + [RollbackCall];
    }

    method Commit() returns (err: Option<Error>)
      modifies this`open, this`calls
      ensures !open && calls == old(calls) + [CommitCall]
      ensures err == (if old(open) then commitFailure else Some(ErrTxDone))
    {
      err := if open then commitFailure else Some(ErrTxDone);
      open := false;
      calls := calls + [CommitCall];
    }

    /** sqlx.LoadFile: executes the file's statements in the transaction. */
    method LoadFile(name: string) returns (err: Option<Error>)
      modifies this`executed
      ensures name in failingFiles ==> err == Some(failingFiles[name]) && executed == old(executed)
      ensures name !in failingFiles ==> err.None? && executed == old(executed) + [name]
    {
      if name in failingFiles {
        return Some(failingFiles[name]);
      }
      executed := executed + [name];
      err := None;
    }
  }

  /** The error the transaction ends on: a recovered panic replaces the work's error. */
  function Outcome(err: Option<Error>, recovery: Recovered): (e: Option<Error>)
    ensures recovery.NoPanic? ==> e == err
    ensures !recovery.NoPanic? ==> e.Some?
    ensures recovery.PanicError? ==> e == Some(recovery.err)
    ensures recovery.PanicString? ==> e == Some(Text(recovery.text))
    ensures recovery.PanicOther? ==> e == Some(ErrRecovered)
  {
    match recovery
    case NoPanic => err
    case PanicError(v) => Some(v)
    case PanicString(v) => Some(Text(v))
    case PanicOther => Some(ErrRecovered)
  }

  /** TxHandler: on an error, rolls back (and never commits) and returns the error, wrapped
      with the rollback's message when the rollback fails too; without one, commits (and
      never rolls back) and returns the commit's error wrapped, or nil. */
  method TxHandler(tx: Tx, err: Option<Error>, recovery: Recovered) returns (r: Option<Error>)
    modifies tx`open, tx`calls
    ensures !tx.open
    ensures var e := Outcome(err, recovery);
      && (e.Some? ==>
            && tx.calls == old(tx.calls) + [RollbackCall]
            && var rollbackErr := if old(tx.open) then tx.rollbackFailure else Some(ErrTxDone);
            && r == (if rollbackErr.Some? then Some(Wrapped(e.value, Message(rollbackErr.value))) else e))
      && (e.None? ==>
            && tx.calls == old(tx.calls) + [CommitCall]
            && var commitErr := if old(tx.open) then tx.commitFailure else Some(ErrTxDone);
            && r == (if commitErr.Some? then Some(Wrapped(commitErr.value, CommitContext)) else None))
    ensures r.None? <==> Outcome(err, recovery).None? && old(tx.open) && tx.commitFailure.None?
  {
    var e := Outcome(err, recovery);
    match e {
      case Some(failure) =>
        var rollbackErr := tx.Rollback();
        match rollbackErr {
          case Some(re) => return Some(Wrapped(failure, Message(re)));
          case None => return e;
        }
      case None =>
        var commitErr := tx.Commit();
        match commitErr {
          case Some(ce) => return Some(Wrapped(ce, CommitContext));
          case None => return None;
        }
    }
  }
}
