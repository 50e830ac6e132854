/** The optional value and the success-or-error result shared by the rest of the model. */
module Wrappers {

  /** A value that may be absent: JavaScript's `null` / `undefined` results. */
  datatype Option<+T> = None | Some(value: T)

  /** The outcome of an operation that can fail with an error value. */
  datatype Result<+T, +E> = Ok(value: T) | Err(error: E) {
    function ToOption(): (o: Option<T>)
      ensures o.Some? <==> Ok?
      ensures Ok? ==> o.value == value
    {
      match this
      case Ok(v) => Some(v)
      case Err(_) => None
    }
  }
}
