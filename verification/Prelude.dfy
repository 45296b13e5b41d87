/** Option and Result values shared by the modules of the model. */
module Prelude {

  datatype Option<+T> = None | Some(value: T)

  /** A value, or the reason why there is none. Lua's `nil, err` returns and
      raised errors are both modelled this way. */
  datatype Result<+T, +E> = Success(value: T) | Failure(error: E) {
    predicate IsFailure() {
      Failure?
    }

    function PropagateFailure<U>(): Result<U, E>
      requires Failure?
    {
      Failure(error)
    }

    function Extract(): T
      requires Success?
    {
      value
    }
  }
}
