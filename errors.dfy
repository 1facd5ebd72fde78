/**
 * The exceptions the pipeline raises or catches, as values.  Every Python
 * `raise` of the modelled code becomes an `Err`/`Fail` carrying one of these,
 * so that each `except` clause is a case split over `Error`.
 */
module Errors {

  datatype Error =
    /** `FileNotFoundError`, which the loader catches and logs with the document path. */
    | FileNotFoundError(path: string)
    /** `ValueError`, which the loader catches and logs with its message. */
    | ValueError(message: string)
    /** `IndexError`, raised by indexing an empty list. */
    | IndexError
    /** FastAPI's `HTTPException`, with its status code and detail text. */
    | HTTPException(statusCode: int, detail: string)
    /** Any other exception raised by a library or remote service. */
    | ServiceError(message: string)

  /** A value, or the exception raised instead of returning it. */
  datatype Result<+T> = Ok(value: T) | Err(error: Error)

  /** A call that returns `None`, or the exception it raised. */
  datatype Outcome = Pass | Fail(error: Error)

  datatype Option<+T> = None | Some(value: T)
}
