/** Stock result types. */
module Prelude {
  datatype Option<+T> = None | Some(value: T)

  /** `Failure` stands for the Python exception that ends the call. */
  datatype Result<+T> = Failure | Success(value: T) {
    predicate IsFailure() { Failure? }

    function PropagateFailure<U>(): Result<U>
      requires Failure?
    {
      Failure
    }

    function Extract(): T
      requires Success?
    {
      value
    }
  }
}
