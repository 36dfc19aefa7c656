/** Failure-compatible results shared by the whole model.

    The library reports failures by raising Python exceptions; the model returns
    them as values. Each `Error` names the cause rather than the exception class.
 */
module Wrappers {

  datatype Option<+T> = None | Some(value: T)

  /** Why an operation failed. */
  datatype Error =
    | EmptyPath              // `points[0]` of a path without points (IndexError)
    | UnknownDirection       // `cardinal` called with a key outside its table (KeyError)
    | NameNotFound(name: string)  // `connect_outer` asserting that a name is present
    | DivisionByZero         // a float division by zero (ZeroDivisionError)

  datatype Result<+T> = Ok(value: T) | Err(error: Error) {

    predicate IsFailure() {
      Err?
    }

    function PropagateFailure<U>(): Result<U>
      requires Err?
    {
      Err(error)
    }

    function Extract(): T
      requires Ok?
    {
      value
    }
  }
}
