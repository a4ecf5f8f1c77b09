/** Small value wrappers shared by the whole model. */
module Wrappers {

  /** A value that may be absent: JavaScript's `null` and `undefined` both read as `None`. */
  datatype Option<+T> = None | Some(value: T) {
    function GetOr(default: T): T {
      if Some? then value else default
    }
  }

  /** The outcome of a call that can throw. */
  datatype Result<+T, +E> = Ok(value: T) | Err(error: E)

  /** A property of a partial update object (`Partial<T>`): left `undefined`, or given a value
      (which may itself be `null` when the value type is an `Option`). */
  datatype Field<+T> = Undefined | Defined(value: T)
}
