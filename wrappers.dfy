/** Failure-compatible result type: `Fail` carries the message of the
    `std::runtime_error` the C++ code throws. */
module Wrappers {

  datatype Result<T> = Ok(value: T) | Fail(message: string) {

    predicate IsFailure() {
      Fail?
    }

    function PropagateFailure<U>(): Result<U>
      requires Fail?
    {
      Fail(message)
    }

    function Extract(): T
      requires Ok?
    {
      value
    }
  }
}
