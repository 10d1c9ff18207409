/** Option and Result, the two failure-carrying types the Rust code returns. */
module Wrappers {

  datatype Option<+T> = None | Some(value: T)

  datatype Result<+T, +E> = Ok(value: T) | Err(error: E) {
    /** Rust's `Result::ok`: drops the error. */
    function ToOption(): (o: Option<T>)
      ensures o.Some? <==> Ok?
      ensures Ok? ==> o == Some(value)
    {
      match this
      case Ok(v) => Some(v)
      case Err(_) => None
    }
  }
}
