/** Go's error values and the (value, error) results the repository passes around.
    A Go function returning (*T, error) with nil on failure is modelled as a Result<T>;
    one returning (int64, error) keeps both halves, with the error as an Option<Error>. */
module Base {

  datatype Option<+T> = None | Some(value: T)

  datatype Result<+T> = Success(value: T) | Failure(error: Error)

  /** The error values that occur in the modelled code. */
  datatype Error =
    | Text(text: string)                                  // errors.New, fmt.Errorf
    | Wrapped(cause: Error, context: string)              // errors.Wrap(cause, context) of github.com/pkg/errors
    | NumError(fn: string, num: string, reason: string)   // *strconv.NumError
    | MissingParam(parameter: string)                     // request.MissingParamError

  /** What err.Error() returns. Go's strconv.Quote escaping of the offending input is not modelled. */
  function Message(e: Error): string
  {
    match e
    case Text(t) => t
    case Wrapped(c, ctx) => ctx + ": " + Message(c)
    case NumError(fn, num, reason) => "strconv." + fn + ": parsing \"" + num + "\": " + reason
    case MissingParam(k) => "Missing parameter: " + k
  }

  /** errors.Is: the target is the error itself or sits somewhere down its chain of causes. */
  predicate Is(e: Error, target: Error)
  {
    e == target || (e.Wrapped? && Is(e.cause, target))
  }

  /** errors.Wrap keeps the cause identifiable and prefixes the context to the message. */
  lemma {:induction false} WrapKeepsCause(e: Error, target: Error, context: string)
    requires Is(e, target)
    ensures Is(Wrapped(e, context), target)
    ensures Message(Wrapped(e, context)) == context + ": " + Message(e)
  {
  }

  /** A non-empty set has an element: the witness a such-that choice over a set needs. */
  lemma ElementOf<T>(s: set<T>) returns (x: T)
    requires s != {}
    ensures x in s
  {
    x :| x in s;
  }

  // Errors of database/sql that the in-memory store reports.
  const ErrConnDone := Text("sql: connection is already closed")
  const ErrNoRows := Text("sql: no rows in result set")
  const ErrTxDone := Text("sql: transaction has already been committed or rolled back")
}
