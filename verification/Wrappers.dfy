/** Optional values and success/error results, used by every other module. */
module Wrappers {

  datatype Option<+T> = None | Some(value: T)

  /** A result that works with Dafny's `:-` operator. */
  datatype Result<+T, +E> = Ok(value: T) | Err(error: E) {
    predicate IsFailure() { Err? }

    function PropagateFailure<U>(): Result<U, E>
      requires Err?
    {
      Err(error)
    }

    function Extract(): T
      requires Ok?
    {
      value
    }
  }
}
