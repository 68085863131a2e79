/** What every module shares: Option, Result, checks that throw, sequences without repetition. */
module Prelude {

  datatype Option<+T> = None | Some(value: T)

  /** A call either answers with a value or throws; usable with `:-`. */
  datatype Result<+T, +E> = Ok(value: T) | Err(error: E) {

    predicate IsFailure() {
      Err?
    }

    function PropagateFailure<U>(): Result<U, E>
      requires Err?
    {
      Err(error)
    }

    function Extract(): T
      requires Ok?
    {
      value
    }
  }

  /** A check of the source that throws `error` when it does not hold. */
  datatype Check<+E> = Pass | Fail(error: E) {

    predicate IsFailure() {
      Fail?
    }

    function PropagateFailure<U>(): Result<U, E>
      requires Fail?
    {
      Err(error)
    }
  }

  function Need<E>(condition: bool, error: E): Check<E> {
    if condition then Pass else Fail(error)
  }

  predicate Distinct<T(==)>(items: seq<T>) {
    forall i, j :: 0 <= i < j < |items| ==> items[i] != items[j]
  }
}
