/** Failure-carrying results. The Python source signals its error conditions
    with exceptions (failed `assert`, `IndexError`, `KeyError`,
    `ZeroDivisionError`); the model returns `Err` with the exception's text,
    or `Err(Diverges)` where the source would never return. */
module Results {

  datatype Result<+T> = Ok(value: T) | Err(error: string) {

    predicate IsFailure() {
      Err?
    }

    function PropagateFailure<U>(): Result<U>
      requires Err?
    {
      Err(error)
    }

    function Extract(): T
      requires Ok?
    {
      value
    }
  }

  datatype Option<+T> = None | Some(value: T)

  /** The outcome a model reports where the source would loop forever. */
  const Diverges: string := "does not terminate"
}
