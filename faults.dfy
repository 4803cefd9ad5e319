/** Python exceptions raised by the rewrite passes and the outcome of a step that may raise one. */
module Faults {

  /** The exception a step raises; raising aborts the whole pass. */
  datatype Error =
    | KeyError(key: string)   // dict lookup of a missing key
    | IndexError              // list or tuple index out of range
    | ValueError              // list.remove of an absent element, or a numpy reshape whose sizes disagree
    | TypeError               // len(), tuple() or indexing applied to a scalar attribute
    | AssertionError          // an `assert` statement failed
    | ShapeMismatch           // an elementwise numpy operation on tensors of different shapes

  datatype Result<+T> = Ok(value: T) | Fail(error: Error) {
    predicate IsFailure() { Fail? }

    function PropagateFailure<U>(): Result<U>
      requires Fail?
    {
      Fail(error)
    }

    function Extract(): T
      requires Ok?
    {
      value
    }
  }

}
