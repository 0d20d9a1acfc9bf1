/** UserError: an error meant for the client, carrying the HTTP status to answer with, the
    message to show, an optional application error code and an optional internal cause that
    is never shown. Status codes and their sections: RFC 9110 section 15.5 (client errors)
    and section 15.6 (server errors); 425 Too Early is section 5.2 of RFC 8470 and 451
    Unavailable For Legal Reasons is section 3 of RFC 7725. */
module ResponseErrors {
  import opened Base

  const StatusBadRequest := 400              // RFC 9110 section 15.5.1
  const StatusUnauthorized := 401            // RFC 9110 section 15.5.2
  const StatusPaymentRequired := 402         // RFC 9110 section 15.5.3
  const StatusForbidden := 403               // RFC 9110 section 15.5.4
  const StatusNotFound := 404                // RFC 9110 section 15.5.5
  const StatusNotAcceptable := 406           // RFC 9110 section 15.5.7
  const StatusConflict := 409                // RFC 9110 section 15.5.10
  const StatusUnsupportedMediaType := 415    // RFC 9110 section 15.5.16
  const StatusTooEarly := 425                // RFC 8470 section 5.2
  const StatusUnavailableForLegalReasons := 451  // RFC 7725 section 3
  const StatusInternalServerError := 500     // RFC 9110 section 15.6.1
  const StatusServiceUnavailable := 503      // RFC 9110 section 15.6.4

  datatype UserError = UserError(code: int, message: string, errorCode: Option<int>, internal: Option<Error>)
  {
    /** Error(): the message, and only the message. */
    function Error(): string
    {
      message
    }

    /** A copy with the internal cause set; the receiver is a value and is not changed. */
    function WithInternal(err: Error): (e: UserError)
      ensures e.internal == Some(err)
      ensures e.code == code && e.message == message && e.errorCode == errorCode
      ensures e.Error() == Error()
    {
      this.(internal := Some(err))
    }

    /** A copy whose error code points at the given value. */
    function WithErrorCode(errorCode: int): (e: UserError)
      ensures e.errorCode == Some(errorCode)
      ensures e.code == code && e.message == message && e.internal == internal
      ensures e.Error() == Error()
    {
      this.(errorCode := Some(errorCode))
    }
  }

  /** A status is a client error (section 15.5 of RFC 9110) or a server error (section 15.6). */
  predicate IsClientError(code: int) { 400 <= code < 500 }
  predicate IsServerError(code: int) { 500 <= code < 600 }

  /** The struct every constructor returns: code and message, nothing else set. */
  function Plain(code: int, msg: string): (e: UserError)
    ensures e.code == code && e.message == msg && e.Error() == msg
    ensures e.errorCode.None? && e.internal.None?
  {
    UserError(code, msg, None, None)
  }

  function NewValidationError(msg: string): UserError { Plain(StatusBadRequest, msg) }
  function NewForbiddenError(msg: string): UserError { Plain(StatusForbidden, msg) }
  function NewConflictError(msg: string): UserError { Plain(StatusConflict, msg) }
  function NewNotAcceptableError(msg: string): UserError { Plain(StatusNotAcceptable, msg) }
  function NewNotAcceptableForLegalReasonsError(msg: string): UserError { Plain(StatusUnavailableForLegalReasons, msg) }
  function NewPaymentRequiredError(msg: string): UserError { Plain(StatusPaymentRequired, msg) }
  function NewUnauthorizedError(msg: string): UserError { Plain(StatusUnauthorized, msg) }
  function NewTooEarlyError(msg: string): UserError { Plain(StatusTooEarly, msg) }
  function NewNotFoundError(msg: string): UserError { Plain(StatusNotFound, msg) }
  function NewInternalServerError(msg: string): UserError { Plain(StatusInternalServerError, msg) }
  function NewServiceUnavailableError(msg: string): UserError { Plain(StatusServiceUnavailable, msg) }
  function NewUnsupportMediaTypeError(msg: string): UserError { Plain(StatusUnsupportedMediaType, msg) }
  function NewBadRequestError(msg: string): UserError { Plain(StatusBadRequest, msg) }

  /** Each constructor answers with its own status: eleven with a client error, two with a
      server error, the validation and bad-request constructors both with 400. Each shows
      exactly its message and sets neither error code nor cause. */
  lemma ConstructorsClassify(msg: string)
    ensures NewValidationError(msg).code == 400 && NewBadRequestError(msg).code == 400
    ensures NewUnauthorizedError(msg).code == 401 && NewPaymentRequiredError(msg).code == 402
    ensures NewForbiddenError(msg).code == 403 && NewNotFoundError(msg).code == 404
    ensures NewNotAcceptableError(msg).code == 406 && NewConflictError(msg).code == 409
    ensures NewUnsupportMediaTypeError(msg).code == 415 && NewTooEarlyError(msg).code == 425
    ensures NewNotAcceptableForLegalReasonsError(msg).code == 451
    ensures NewInternalServerError(msg).code == 500 && NewServiceUnavailableError(msg).code == 503
    ensures var clientErrors := [NewValidationError(msg), NewForbiddenError(msg), NewConflictError(msg),
                                 NewNotAcceptableError(msg), NewNotAcceptableForLegalReasonsError(msg),
                                 NewPaymentRequiredError(msg), NewUnauthorizedError(msg), NewTooEarlyError(msg),
                                 NewNotFoundError(msg), NewUnsupportMediaTypeError(msg), NewBadRequestError(msg)];
      forall i :: 0 <= i < |clientErrors| ==>
        IsClientError(clientErrors[i].code) && clientErrors[i].Error() == msg
        && clientErrors[i].errorCode.None? && clientErrors[i].internal.None?
    ensures IsServerError(NewInternalServerError(msg).code) && IsServerError(NewServiceUnavailableError(msg).code)
    ensures NewValidationError(msg) == NewBadRequestError(msg)
  {
  }
}
