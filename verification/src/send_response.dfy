/**
 * internal/api/hooks/send_response.go: the JSON envelope every handler of the
 * newer API writes, and the rule that picks its HTTP status from an error.
 */
module SendResponse {
  import opened Wrappers
  import opened WrapErrors

  const StatusBadRequest := 400
  const StatusUnauthorized := 401
  const StatusNotFound := 404
  const StatusConflict := 409
  const StatusInternalServerError := 500

  const UnexpectedMessage: string := "Unexpected error ocurred"

  /** `models.ErrorData`; an empty `Details` is omitted from the JSON. */
  datatype ErrorData = ErrorData(message: string, details: string)

  /** `models.Response` with its `interface{}` payload as a type parameter. */
  datatype Response<D> = Response(success: bool, data: Option<D>, error: Option<ErrorData>)

  /** What `WriteJSON` puts on the wire: a status and a body. */
  datatype Reply<D> = Reply(status: int, body: Response<D>)

  /** `processError`: the message and details shown to the client. */
  function ProcessError(err: Error): (d: ErrorData)
    ensures AsApp(err).Some? ==> d.message == AsApp(err).value.message
    ensures AsApp(err).Some? && AsApp(err).value.cause.Some? ==> d.details == Text(AsApp(err).value.cause.value)
    ensures AsApp(err).Some? && AsApp(err).value.cause.None? ==> d.details == ""
    ensures AsApp(err).None? ==> d == ErrorData(UnexpectedMessage, Text(err))
  {
    match AsApp(err)
    case Some(a) => ErrorData(a.message, if a.cause.Some? then Text(a.cause.value) else "")
    case None => ErrorData(UnexpectedMessage, Text(err))
  }

  /** `determineErrorStatus`. */
  function DetermineErrorStatus(err: Error): (status: int)
    ensures AsApp(err).Some? ==> status == AsApp(err).value.code
    ensures AsApp(err).None? ==> status in {StatusNotFound, StatusBadRequest, StatusUnauthorized, StatusConflict, StatusInternalServerError}
    ensures AsApp(err).None? && IsNotFoundError(err) ==> status == StatusNotFound
    ensures AsApp(err).None? && !IsNotFoundError(err) && IsValidationError(err) ==> status == StatusBadRequest
    ensures AsApp(err).None? && !IsNotFoundError(err) && !IsValidationError(err) && IsUnauthorizedError(err) ==>
      status == StatusUnauthorized
    ensures AsApp(err).None? && !IsNotFoundError(err) && !IsValidationError(err) && !IsUnauthorizedError(err) ==>
      (status == StatusConflict <==> IsAlreadyExistsError(err) || IsUniqueViolation(Some(err)))
    ensures (AsApp(err).None? && !IsNotFoundError(err) && !IsValidationError(err) && !IsUnauthorizedError(err) &&
      !IsAlreadyExistsError(err) && !IsUniqueViolation(Some(err))) ==> status == StatusInternalServerError
  {
    match AsApp(err)
    case Some(a) => a.code
    case None =>
      if IsNotFoundError(err) then StatusNotFound
      else if IsValidationError(err) then StatusBadRequest
      else if IsUnauthorizedError(err) then StatusUnauthorized
      else if IsAlreadyExistsError(err) || IsUniqueViolation(Some(err)) then StatusConflict
      else StatusInternalServerError
  }

  /** `SendResponse(w, status, data, err)`. */
  function Send<D>(status: int, data: Option<D>, err: Option<Error>): (r: Reply<D>)
    ensures err.None? ==> r == Reply(status, Response(true, data, None))
    ensures err.Some? ==> !r.body.success && r.body.data.None? && r.body.error == Some(ProcessError(err.value))
    ensures err.Some? ==> r.status == DetermineErrorStatus(err.value)
  {
    if err.None? then Reply(status, Response(true, data, None))
    else Reply(DetermineErrorStatus(err.value), Response(false, None, Some(ProcessError(err.value))))
  }

  /** An error reply's status never depends on the status the caller passed. */
  lemma ErrorStatusIgnoresCaller<D>(s1: int, s2: int, d1: Option<D>, d2: Option<D>, err: Error)
    ensures Send(s1, d1, Some(err)) == Send(s2, d2, Some(err))
  {
  }

  /** An `*AppError` built without a code (UniqueViolationErr) is answered with status 0. */
  lemma CodelessAppErrorGivesZero(msg: string)
    ensures DetermineErrorStatus(UniqueViolationErr(msg)) == 0
    ensures ProcessError(UniqueViolationErr(msg)) == ErrorData(msg, msg)
  {
  }

  /** Every error constructor of errors.go is answered with its own code. */
  lemma ConstructedErrorsKeepTheirCodes(msg: string, cause: Option<Error>)
    ensures DetermineErrorStatus(NotFoundErr(msg)) == 404
    ensures DetermineErrorStatus(ValidationErr(msg)) == 400
    ensures DetermineErrorStatus(UnauthorizedErr(msg)) == 401
    ensures DetermineErrorStatus(AlreadyExistsErr(msg)) == 409
    ensures DetermineErrorStatus(InternalErr(msg, cause)) == 500
  {
  }

  /** Without an `*AppError` in the chain, the sentinel kinds are checked in order. */
  lemma {:induction false} SentinelStatuses(msg: string)
    ensures DetermineErrorStatus(Wrapped(msg, Sentinel(NotFound))) == 404
    ensures DetermineErrorStatus(Wrapped(msg, Sentinel(Validation))) == 400
    ensures DetermineErrorStatus(Wrapped(msg, Sentinel(Unauthorized))) == 401
    ensures DetermineErrorStatus(Sentinel(UniqueViolation)) == 409
    ensures !Contains(msg, "unique constraint") ==> DetermineErrorStatus(Plain(msg)) == 500
    ensures Contains(msg, "unique constraint") ==> DetermineErrorStatus(Plain(msg)) == 409
  {
    forall k: Kind, t: Kind
      ensures AsApp(Wrapped(msg, Sentinel(k))).None?
      ensures ChainIs(Wrapped(msg, Sentinel(k)), Sentinel(t)) <==> k == t
    {
      assert ChainIs(Sentinel(k), Sentinel(t)) <==> k == t;
    }
  }
}
