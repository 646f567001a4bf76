/** Result types shared by every component. */
module Wrappers {
  datatype Option<+T> = None | Some(value: T)

  /** The value of an operation, or the reason the source raises for. */
  datatype Result<+T, +E> = Ok(value: T) | Err(error: E) {
    predicate IsFailure() {
      Err?
    }

    function PropagateFailure<U>(): Result<U, E>
      requires Err?
    {
      Err(error)
    }

    function Extract(): T
      requires Ok?
    {
      value
    }
  }

  /**
   * How a call that changes the disk ends: it returns, the process dies at one
   * of its changes, or it raises.
   */
  datatype Outcome = Pass | Crash | Fail(reason: string) {
    predicate IsFailure() {
      !Pass?
    }

    function PropagateFailure(): Outcome
      requires !Pass?
    {
      this
    }
  }
}
