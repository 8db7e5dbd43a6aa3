/** Optional values and error returns shared by every component. */
module Wrappers {

  datatype Option<+T> = None | Some(value: T) {
    function UnwrapOr(fallback: T): T {
      match this
      case Some(v) => v
      case None => fallback
    }
  }

  datatype Result<+T, +E> = Ok(value: T) | Err(error: E)

  /** The error kinds the server reports (src/error.rs). */
  datatype AppError =
    | Validation
    | NotFound
    | Unauthorized
    | Forbidden
    | RateLimited
    | Database
    | Storage
}
