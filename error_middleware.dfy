/**
 * The boundary translator: turns whatever was thrown into a status, a
 * message and whether the stack trace goes into the response body.
 */
module ErrorMiddleware {
  import opened Errors

  /** `NODE_ENV`. */
  datatype Mode = Development | Production | Test

  /** The JSON error response `{ status: 'error', message, stack? }` and its HTTP status. */
  datatype ErrorResponse = ErrorResponse(status: int, message: string, includeStack: bool)

  /**
   * `errorMiddleware`: an `ApiError` keeps its status and message and shows
   * its stack in development or when it is not operational; anything else is
   * a 500 with a fixed message and shows its stack only in development.
   */
  function HandleError(err: Thrown, mode: Mode): (r: ErrorResponse)
    ensures err.Api? ==> r.status == err.error.statusCode && r.message == err.error.message
    ensures err.Api? ==> (r.includeStack <==> mode == Development || !err.error.isOperational)
    ensures err.Plain? ==> r.status == 500 && r.message == "Internal Server Error"
    ensures err.Plain? ==> (r.includeStack <==> mode == Development)
  {
    match err
    case Api(e) =>
      ErrorResponse(e.statusCode, e.message, mode == Development || !e.isOperational)
    case Plain(_) =>
      ErrorResponse(500, "Internal Server Error", mode == Development)
  }

  /** `notFoundMiddleware`: 404 naming the method and the URL. */
  function NotFoundRoute(httpMethod: string, url: string): (r: ErrorResponse)
    ensures r.status == 404 && !r.includeStack
    ensures r.message == "Cannot " + httpMethod + " " + url
  {
    ErrorResponse(404, "Cannot " + httpMethod + " " + url, false)
  }

  /**
   * As written, the stack test is `development || !isOperational`, so an
   * `internalServerError()` would show its stack trace in production. No
   * code path builds one today, so the defect is latent.
   */
  lemma InternalErrorShowsStackInProduction()
    ensures HandleError(Api(InternalServerError(Wrappers.None)), Production).includeStack
  {
  }

  /**
   * The error middleware with the stack confined to development, as the
   * comment above the stack test intends: same status and message as
   * `HandleError`, stack only in development.
   */
  function HandleErrorDevStackOnly(err: Thrown, mode: Mode): (r: ErrorResponse)
    ensures r.status == HandleError(err, mode).status && r.message == HandleError(err, mode).message
    ensures r.includeStack <==> mode == Development
  {
    match err
    case Api(e) => ErrorResponse(e.statusCode, e.message, mode == Development)
    case Plain(_) => ErrorResponse(500, "Internal Server Error", mode == Development)
  }

  /**
   * Outside development the corrected translator never shows a stack, every
   * constructor's error keeps its status and message, and a foreign error's
   * message never reaches the client; the two translators differ only on
   * non-operational errors outside development.
   */
  lemma NoLeakOutsideDevelopment(k: Kind, message: Wrappers.Option<string>, mode: Mode, foreign: string)
    requires mode != Development
    ensures var e := Construct(k, message);
            HandleErrorDevStackOnly(Api(e), mode) == ErrorResponse(e.statusCode, e.message, false)
    ensures HandleErrorDevStackOnly(Plain(foreign), mode) == ErrorResponse(500, "Internal Server Error", false)
    ensures (HandleError(Api(Construct(k, message)), mode) == HandleErrorDevStackOnly(Api(Construct(k, message)), mode))
            <==> k != InternalKind
  {
  }
}
