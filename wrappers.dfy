/** Small failure-carrying datatypes shared by the model. */
module Wrappers {

  /** Python's `None` or a present value. */
  datatype Option<T> = None | Some(value: T)

  /** The result of a call that either returns normally or raises an
      exception carrying a message (the text `str(e)` would give). */
  datatype Outcome<T> = Returned(value: T) | Raised(message: string)
}
