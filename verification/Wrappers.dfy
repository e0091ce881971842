/** Result types shared by the models of fallible operations. */
module Wrappers {

  datatype Option<+T> = None | Some(value: T)

  /** Rust's `Result` and Python's raised exceptions, with the message left out. */
  datatype Result<+T> = Ok(value: T) | Err
  {
    predicate IsFailure() {
      Err?
    }

    function PropagateFailure<U>(): Result<U>
      requires Err?
    {
      Err
    }

    function Extract(): T
      requires Ok?
    {
      value
    }
  }
}
