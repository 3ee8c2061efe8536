/**
 Shared result types.

 A call into a device, a file or another process is one step. It may answer, it
 may fail, and the process may be killed at that step. `Killed` is propagated by
 `:-` exactly like an error, so a postcondition that holds whatever outcome a
 method returns holds at every point where the process can die inside it.
 */
module Outcomes {

  datatype Option<+T> = None | Some(value: T)

  datatype Result<+T, +E> = Success(value: T) | Failure(error: E) {
    predicate IsFailure() {
      Failure?
    }

    function PropagateFailure<U>(): Result<U, E>
      requires Failure?
    {
      Failure(error)
    }

    function Extract(): T
      requires Success?
    {
      value
    }
  }

  datatype Outcome<+T> = Ok(value: T) | Err | Killed {
    predicate IsFailure() {
      !Ok?
    }

    function PropagateFailure<U>(): Outcome<U>
      requires !Ok?
    {
      if Err? then Err else Killed
    }

    function Extract(): T
      requires Ok?
    {
      value
    }
  }
}
