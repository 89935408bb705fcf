/** Optional values and results; both work with `:-`. */
module Wrappers {
  datatype Option<+T> = None | Some(value: T)

  datatype Result<+T, +E> = Ok(value: T) | Err(error: E) {
    predicate IsFailure() {
      Err?
    }

    function PropagateFailure<U>(): Result<U, E>
      requires Err?
    {
      Err(error)
    }

    function Extract(): T
      requires Ok?
    {
      value
    }
  }

  datatype Outcome<+E> = Pass | Fail(error: E) {
    predicate IsFailure() {
      Fail?
    }

    function PropagateFailure<U>(): Result<U, E>
      requires Fail?
    {
      Err(error)
    }
  }

  function Need<E>(condition: bool, error: E): Outcome<E> {
    if condition then Pass else Fail(error)
  }
}
