/** Optional values and the outcome of a store call that may throw. */
module Outcomes {

  /** An optional field: `None` is the JavaScript `undefined`. */
  datatype Option<+T> = None | Some(value: T)

  /** The settled value of an awaited repository call: its value, or the message of what it threw. */
  datatype Outcome<+T> = Ok(value: T) | Err(message: string) {

    predicate IsFailure() {
      Err?
    }

    function PropagateFailure<U>(): Outcome<U>
      requires Err?
    {
      Err(message)
    }

    function Extract(): T
      requires Ok?
    {
      value
    }
  }
}
