/** Failure-compatible result types shared by every part of the model.
    Python exceptions raised by the modelled code become `Err` values. */
module Results {

  /** The Python exception class that a failing operation raises. */
  datatype Error =
    | ValueError
    | KeyError
    | IndexError
    | ZeroDivisionError
    | UnboundLocalError

  datatype Option<+T> = None | Some(value: T)

  datatype Result<+T> = Ok(value: T) | Err(error: Error) {
    predicate IsFailure() { Err? }

    function PropagateFailure<U>(): Result<U>
      requires Err?
    {
      Err(error)
    }

    function Extract(): T
      requires Ok?
    {
      value
    }
  }
}
