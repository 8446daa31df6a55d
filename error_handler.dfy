/** Error response shaping (server/src/middleware/errorHandler.ts). A handler that throws, or
    a route that matches nothing, ends in `errorHandler`, which picks the status and message
    and adds the stack trace only in development. */
module ErrorHandler {
  import opened Wrappers
  import opened Config

  /** An Error with the optional `statusCode` the server sets on its own errors. */
  datatype ApiError = ApiError(statusCode: Option<int>, message: string, stack: string)

  /** The JSON body: `stack` is present only in development. */
  datatype ErrorBody = ErrorBody(success: bool, error: string, stack: Option<string>)

  datatype ErrorResponse = ErrorResponse(status: int, body: ErrorBody)

  const DefaultMessage := "Internal Server Error"

  /** `errorHandler`: a missing or zero status code gives 500, an empty message the default
      text; success is always false. */
  function HandleError(err: ApiError, env: Env): (r: ErrorResponse)
    ensures r.status == (if err.statusCode.Some? && err.statusCode.value != 0 then err.statusCode.value else 500)
    ensures r.body.error == (if err.message != "" then err.message else DefaultMessage)
    ensures !r.body.success
    ensures r.body.stack.Some? <==> env.nodeEnv == "development"
    ensures r.body.stack.Some? ==> r.body.stack.value == err.stack
  {
    var status := if err.statusCode.Some? && err.statusCode.value != 0 then err.statusCode.value else 500;
    var message := if err.message != "" then err.message else DefaultMessage;
    ErrorResponse(status, ErrorBody(false, message, if env.nodeEnv == "development" then Some(err.stack) else None))
  }

  /** `notFound`: the error it forwards for an unmatched URL. */
  function NotFound(url: string, stack: string): (err: ApiError)
    ensures err.statusCode == Some(404) && err.message == "Not Found - " + url
  {
    ApiError(Some(404), "Not Found - " + url, stack)
  }

  /** An unmatched URL is answered with 404 and its own message, in every environment. */
  lemma NotFoundAnswered(url: string, stack: string, env: Env)
    ensures var r := HandleError(NotFound(url, stack), env);
      r.status == 404 && r.body.error == "Not Found - " + url && !r.body.success
  {
  }

  /** A plain Error thrown by a handler (no status code) is answered with 500 and its message;
      the route handlers state such errors as `Failure(500, message)`. */
  lemma ThrownErrorIs500(message: string, stack: string, env: Env)
    requires message != ""
    ensures var r := HandleError(ApiError(None, message, stack), env);
      r.status == 500 && r.body.error == message
  {
  }

  /** The stack is withheld outside development, whatever the error. */
  lemma StackOnlyInDevelopment(err: ApiError, env: Env)
    requires env.nodeEnv != "development"
    ensures HandleError(err, env).body.stack.None?
  {
  }
}
