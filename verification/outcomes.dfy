/** Failure-carrying wrappers shared by the other modules: Go's nil pointers
    become `Option`, its `(value, error)` pairs become `Result`, and an
    error-only return becomes `Outcome`. */
module Outcomes {

  /** An optional value: `None` stands for a nil pointer. */
  datatype Option<+T> = None | Some(value: T)

  /** A value or the error that prevented it. */
  datatype Result<+T, +E> = Ok(value: T) | Err(error: E)

  /** A check that either passes or reports an error. */
  datatype Outcome<+E> = Pass | Fail(error: E)

  /** The string a possibly-nil string pointer denotes, nil reading as "". */
  function StringValue(s: Option<string>): string
  {
    match s
    case Some(v) => v
    case None => ""
  }
}
