/** Failure-compatible return types shared by the model. */
module Wrappers {

  /** A value that may be missing. In the backend, None also stands for a Rust panic
      (an out-of-bounds index into the result of a string split). */
  datatype Option<+T> = None | Some(value: T) {
    predicate IsFailure() {
      None?
    }

    function PropagateFailure<U>(): Option<U>
      requires None?
    {
      None
    }

    function Extract(): T
      requires Some?
    {
      value
    }
  }

  /** Rust's Result<T, E>. */
  datatype Result<+T, +E> = Ok(value: T) | Err(error: E) {
    predicate IsFailure() {
      Err?
    }

    function PropagateFailure<U>(): Result<U, E>
      requires Err?
    {
      Err(error)
    }

    function Extract(): T
      requires Ok?
    {
      value
    }
  }
}
