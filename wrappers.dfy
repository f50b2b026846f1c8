/** Failure-compatible wrappers used throughout the model. */
module Wrappers {

  /** An optional value: Python's `None` or a present value. */
  datatype Option<+T> = None | Some(value: T)

  /** The outcome of an operation that may raise. */
  datatype Result<+R, +E> = Success(value: R) | Failure(error: E)
}

/** What a request body looks like field by field before validation. */
module Requests {
  import opened Wrappers

  /** A request field: left out (`Unset`), sent as null (`Set(None)`) or sent with a value. */
  datatype Patch<+T> = Unset | Set(value: Option<T>)

  /** What the request validator reports for a rejected body (HTTP 422). */
  datatype ValidationError = ValidationError(field: string, reason: string)
}

/** The HTTP error shape FastAPI produces from an `HTTPException`. */
module Http {

  datatype HttpError = HttpError(status: int, detail: string)

  const Ok := 200
  const Created := 201
  const NoContent := 204
  const BadRequest := 400
  const Unauthorized := 401
  const NotFound := 404
  const UnprocessableEntity := 422
  const InternalServerError := 500

  /** The body FastAPI sends for an exception no handler catches. */
  const UnhandledDetail := "Internal Server Error"
}
