/** The error values thrown across the backend, the four custom error classes,
    and the Express error handler that turns any of them into an HTTP reply. */
module Errors {
  import opened Wrappers

  /** A thrown JavaScript error as the handler sees it: its `name`, its
      optional `status` and its `message`. */
  datatype ErrorValue = ErrorValue(name: string, status: Option<int>, message: string)

  function ValidationError(message: string): ErrorValue {
    ErrorValue("ValidationError", Some(400), message)
  }

  function UnauthorizedError(message: string): ErrorValue {
    ErrorValue("UnauthorizedError", Some(401), message)
  }

  function ForbiddenError(message: string): ErrorValue {
    ErrorValue("ForbiddenError", Some(403), message)
  }

  function NotFoundError(message: string): ErrorValue {
    ErrorValue("NotFoundError", Some(404), message)
  }

  /** `new Error(message)`: named `Error`, no status. */
  function PlainError(message: string): ErrorValue {
    ErrorValue("Error", None, message)
  }

  /** The status the handler derives from an error's name alone. */
  function StatusForName(name: string): int {
    if name == "ValidationError" then 400
    else if name == "UnauthorizedError" then 401
    else if name == "ForbiddenError" then 403
    else if name == "NotFoundError" then 404
    else 500
  }

  /** `err.status || <status for err.name>`; a status of 0 is falsy. */
  function StatusCode(err: ErrorValue): (code: int)
    ensures code != 0
    ensures err.status.Some? && err.status.value != 0 ==> code == err.status.value
    ensures !(err.status.Some? && err.status.value != 0) ==>
      && (err.name == "ValidationError" ==> code == 400)
      && (err.name == "UnauthorizedError" ==> code == 401)
      && (err.name == "ForbiddenError" ==> code == 403)
      && (err.name == "NotFoundError" ==> code == 404)
      && (err.name !in {"ValidationError", "UnauthorizedError", "ForbiddenError", "NotFoundError"} ==> code == 500)
  {
    if err.status.Some? && err.status.value != 0 then err.status.value
    else StatusForName(err.name)
  }

  const DefaultMessage: string := "An unexpected error occurred"

  /** The fields added to the reply body only when NODE_ENV is `development`. */
  datatype DebugInfo = DebugInfo(name: string, details: ErrorValue)

  /** `{ success, error: { message, ...debug } }` sent with status `status`. */
  datatype ErrorReply = ErrorReply(status: int, success: bool, message: string, debug: Option<DebugInfo>)

  predicate IsDevelopment(nodeEnv: Option<string>) {
    nodeEnv == Some("development")
  }

  /** The Express error-handling middleware. */
  function HandleError(err: ErrorValue, nodeEnv: Option<string>): (reply: ErrorReply)
    ensures !reply.success
    ensures reply.status == StatusCode(err)
    ensures reply.message != ""
    ensures err.message != "" ==> reply.message == err.message
    ensures reply.debug.Some? <==> IsDevelopment(nodeEnv)
    ensures reply.debug.Some? ==> reply.debug.value == DebugInfo(err.name, err)
  {
    ErrorReply(
      StatusCode(err),
      false,
      if err.message != "" then err.message else DefaultMessage,
      if IsDevelopment(nodeEnv) then Some(DebugInfo(err.name, err)) else None)
  }

  /** Each custom class sets a status that agrees with its name, so mapping by
      status and mapping by name give the same code. */
  lemma CustomClassesAgree(message: string)
    ensures StatusCode(ValidationError(message)) == StatusForName("ValidationError") == 400
    ensures StatusCode(UnauthorizedError(message)) == StatusForName("UnauthorizedError") == 401
    ensures StatusCode(ForbiddenError(message)) == StatusForName("ForbiddenError") == 403
    ensures StatusCode(NotFoundError(message)) == StatusForName("NotFoundError") == 404
  {
  }

  /** An error without a status whose name is not one of the four classes is a 500. */
  lemma UnknownErrorsAre500(err: ErrorValue)
    requires err.status.None?
    requires err.name !in {"ValidationError", "UnauthorizedError", "ForbiddenError", "NotFoundError"}
    ensures HandleError(err, None).status == 500
  {
  }
}
