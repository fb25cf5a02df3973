/** Small shared value types: an optional value, standing for a JavaScript
    property that may be `undefined`, and the outcome of an operation that
    can fail (a rejected promise or a thrown error). */
module Common {

  datatype Option<+T> = None | Some(value: T) {

    /** The value, or `default` when absent (the `??` operator). */
    function GetOr(default: T): T {
      match this
      case Some(v) => v
      case None => default
    }
  }

  datatype Result<+T, +E> = Ok(value: T) | Err(error: E)
}
