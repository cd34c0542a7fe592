/** Failure-carrying results: Python exceptions and `None` returns of the
    pipeline become values of these types instead of preconditions. */
module Wrappers {

  datatype Option<+T> = None | Some(value: T)

  /** `Err` carries a short description of the exception the source raises. */
  datatype Result<+T> = Ok(value: T) | Err(error: string)
}
