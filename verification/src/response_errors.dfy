/**
 * The second generation of `AppError`, in pkg/wrap_errors/response.go: the
 * kind is a string constant instead of a sentinel error, and there is a
 * Forbidden kind. It shares its package with errors.go and cannot be built
 * together with it, so it is modelled as a datatype of its own.
 */
module ResponseErrors {
  import opened Wrappers
  import WrapErrors

  const NotFound: string := "NOT_FOUND"
  const AlreadyExists: string := "ALREADY_EXISTS"
  const ValidationFailed: string := "VALIDATION_FAILED"
  const Unauthorized: string := "UNAUTHORIZED"
  const Forbidden: string := "FORBIDDEN"
  const Internal: string := "INTERNAL"

  /** `*AppError` of response.go; its cause is any Go error. */
  datatype AppError = AppError(code: int, message: string, typ: string, cause: Option<WrapErrors.Error>)

  /** `Error()` is the message. */
  function Text(e: AppError): string { e.message }

  /** `Unwrap()` is the cause. */
  function Unwrap(e: AppError): Option<WrapErrors.Error> { e.cause }

  function New(message: string, typ: string, code: int, cause: Option<WrapErrors.Error>): AppError {
    AppError(code, message, typ, cause)
  }

  function NotFoundErr(msg: string): AppError { New(msg, NotFound, 404, None) }
  function AlreadyExistsErr(msg: string): AppError { New(msg, AlreadyExists, 409, None) }
  function ValidationErr(msg: string): AppError { New(msg, ValidationFailed, 400, None) }
  function UnauthorizedErr(msg: string): AppError { New(msg, Unauthorized, 401, None) }
  function ForbiddenErr(msg: string): AppError { New(msg, Forbidden, 403, None) }
  function InternalErr(msg: string, cause: Option<WrapErrors.Error>): AppError { New(msg, Internal, 500, cause) }

  /** Each constructor's code and type; only InternalErr keeps a cause, and Error()/Unwrap() give back message and cause. */
  lemma ConstructorCodes(msg: string, cause: Option<WrapErrors.Error>)
    ensures NotFoundErr(msg) == AppError(404, msg, "NOT_FOUND", None)
    ensures AlreadyExistsErr(msg) == AppError(409, msg, "ALREADY_EXISTS", None)
    ensures ValidationErr(msg) == AppError(400, msg, "VALIDATION_FAILED", None)
    ensures UnauthorizedErr(msg) == AppError(401, msg, "UNAUTHORIZED", None)
    ensures ForbiddenErr(msg) == AppError(403, msg, "FORBIDDEN", None)
    ensures InternalErr(msg, cause) == AppError(500, msg, "INTERNAL", cause)
    ensures Text(InternalErr(msg, cause)) == msg && Unwrap(InternalErr(msg, cause)) == cause
  {
  }
}
