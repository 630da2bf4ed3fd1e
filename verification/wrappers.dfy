/** Failure-compatible result types shared by every other module. */
module Wrappers {

  datatype Option<+T> = None | Some(value: T)

  /** The Python exception the modelled code can raise on malformed input. */
  datatype Error =
    | IndexError   // `xs[0]`, `xs[-1]` or `parts[5]` on a list that is too short

  datatype Result<+T> = Ok(value: T) | Err(error: Error) {
    predicate IsFailure() { Err? }

    function PropagateFailure<U>(): Result<U>
      requires Err?
    {
      Err(error)
    }

    function Extract(): T
      requires Ok?
    {
      value
    }
  }
}
