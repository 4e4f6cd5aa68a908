/** Result and option types shared by every module. */
module Common {

  datatype Option<+T> = None | Some(value: T)

  /** A source operation either returns a value or throws an error code. */
  datatype Result<+T, +E> = Ok(value: T) | Err(error: E) {

    predicate IsFailure() {
      Err?
    }

    function PropagateFailure<U>(): Result<U, E>
      requires Err?
    {
      Err(error)
    }

    function Extract(): T
      requires Ok?
    {
      value
    }
  }
}
