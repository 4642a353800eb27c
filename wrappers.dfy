/** Small result types shared by the modules of the model. */
module Wrappers {

  /** Python's `Optional[T]`: a value or `None`. */
  datatype Option<T> = None | Some(value: T) {

    /** `x if x is not None else default`, the shape of `d.get(k, default)`. */
    function GetOr(default: T): T {
      match this
      case Some(v) => v
      case None => default
    }
  }

  /**
   * The outcome of a call that may raise: either the value it returned or
   * the text `str(e)` of the exception it raised.
   */
  datatype Outcome<T> = Returned(value: T) | Raised(error: string)
}
