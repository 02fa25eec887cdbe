/** Failure-compatible results. The engines refuse an input by raising one exception type whose
    message is not part of the model, so a refusal carries no payload. */
module Wrappers {

  datatype Option<+T> = None | Some(value: T)

  datatype Result<+T> = Ok(value: T) | Refused {

    predicate IsFailure() {
      Refused?
    }

    function PropagateFailure<U>(): Result<U>
      requires Refused?
    {
      Refused
    }

    function Extract(): T
      requires Ok?
    {
      value
    }
  }
}
