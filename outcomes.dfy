// The two shapes a Go call's results take here: a value that may be absent
// (a nil pointer or a nil error) and a value-or-error pair.

module Outcomes {

  datatype Option<T> = None | Some(value: T)

  /** A Go `(value, error)` pair where exactly one of the two is meaningful. */
  datatype Result<T> = Ok(value: T) | Err(message: string)
}
