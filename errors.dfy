/**
 * The error taxonomy: `ApiError` and its six constructors. Each constructor
 * fixes a status code and an operational flag; its message defaults to a
 * fixed text when the caller gives none.
 */
module Errors {
  import opened Wrappers

  /** An `ApiError`: the HTTP status it renders as, its message, and whether it was anticipated. */
  datatype ApiError = ApiError(statusCode: int, message: string, isOperational: bool)

  /** Anything that reaches the error middleware: an `ApiError` or some other `Error`. */
  datatype Thrown = Api(error: ApiError) | Plain(message: string)

  /** The outcome of a service call that either returns a value or throws an `ApiError`. */
  datatype Result<+T> = Ok(value: T) | Err(error: ApiError)

  /** `new ApiError(statusCode, message, isOperational)`; an omitted flag means operational. */
  function NewApiError(statusCode: int, message: string, isOperational: Option<bool>): (e: ApiError)
    ensures e.statusCode == statusCode && e.message == message
    ensures e.isOperational <==> isOperational != Some(false)
  {
    ApiError(statusCode, message, isOperational.GetOr(true))
  }

  function BadRequest(message: Option<string>): (e: ApiError)
    ensures e.statusCode == 400 && e.isOperational
    ensures e.message == if message.Some? then message.value else "Bad Request"
  {
    NewApiError(400, message.GetOr("Bad Request"), None)
  }

  function Unauthorized(message: Option<string>): (e: ApiError)
    ensures e.statusCode == 401 && e.isOperational
    ensures e.message == if message.Some? then message.value else "Unauthorized"
  {
    NewApiError(401, message.GetOr("Unauthorized"), None)
  }

  function Forbidden(message: Option<string>): (e: ApiError)
    ensures e.statusCode == 403 && e.isOperational
    ensures e.message == if message.Some? then message.value else "Forbidden"
  {
    NewApiError(403, message.GetOr("Forbidden"), None)
  }

  function NotFound(message: Option<string>): (e: ApiError)
    ensures e.statusCode == 404 && e.isOperational
    ensures e.message == if message.Some? then message.value else "Resource Not Found"
  {
    NewApiError(404, message.GetOr("Resource Not Found"), None)
  }

  function Conflict(message: Option<string>): (e: ApiError)
    ensures e.statusCode == 409 && e.isOperational
    ensures e.message == if message.Some? then message.value else "Conflict"
  {
    NewApiError(409, message.GetOr("Conflict"), None)
  }

  /** The one constructor whose errors are not operational. */
  function InternalServerError(message: Option<string>): (e: ApiError)
    ensures e.statusCode == 500 && !e.isOperational
    ensures e.message == if message.Some? then message.value else "Internal Server Error"
  {
    NewApiError(500, message.GetOr("Internal Server Error"), Some(false))
  }

  /** The six constructors, by name. */
  datatype Kind = BadRequestKind | UnauthorizedKind | ForbiddenKind | NotFoundKind | ConflictKind | InternalKind

  function Construct(k: Kind, message: Option<string>): ApiError
  {
    match k
    case BadRequestKind => BadRequest(message)
    case UnauthorizedKind => Unauthorized(message)
    case ForbiddenKind => Forbidden(message)
    case NotFoundKind => NotFound(message)
    case ConflictKind => Conflict(message)
    case InternalKind => InternalServerError(message)
  }

  /** The status codes are pairwise distinct, so the status alone tells which constructor built an error. */
  lemma StatusIdentifiesConstructor(k1: Kind, k2: Kind, m1: Option<string>, m2: Option<string>)
    ensures Construct(k1, m1).statusCode == Construct(k2, m2).statusCode <==> k1 == k2
  {
  }

  /** Exactly the 5xx constructor yields a non-operational error, whatever the message. */
  lemma OperationalUnlessInternal(k: Kind, message: Option<string>)
    ensures Construct(k, message).isOperational <==> k != InternalKind
    ensures Construct(k, message).isOperational <==> Construct(k, message).statusCode < 500
  {
  }
}
