/** Results of controller code: a value, a returned error, or a Go panic. */
module Outcomes {

  datatype Option<+T> = None | Some(value: T)

  /** What an API call or a foreign function answers. */
  datatype Result<+T> = Success(value: T) | Failure(message: string)

  /** `Panic` is a nil dereference or a write to a nil map: the process stops there. */
  datatype Outcome<+T> = Ok(value: T) | Err(message: string) | Panic
}
