/** Optional values, and results that carry the reason of a rejection. */
module Wrappers {

  datatype Option<+T> = None | Some(value: T) {
    predicate IsFailure() { None? }

    function PropagateFailure<U>(): Option<U>
      requires None?
    {
      None
    }

    function Extract(): T
      requires Some?
    {
      value
    }
  }

  datatype Result<+T, +E> = Ok(value: T) | Err(error: E) {
    predicate IsFailure() { Err? }

    function PropagateFailure<U>(): Result<U, E>
      requires Err?
    {
      Err(error)
    }

    function Extract(): T
      requires Ok?
    {
      value
    }
  }

  /** Passes when `condition` holds; otherwise rejects with `reason`. */
  function Need<E>(condition: bool, reason: E): (r: Result<(), E>) {
    if condition then Ok(()) else Err(reason)
  }
}
