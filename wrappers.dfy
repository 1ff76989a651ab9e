/** Failure-carrying values used for the source's exceptions and `None` returns. */
module Wrappers {

  datatype Option<+T> = None | Some(value: T) {
    /** The value, or `default` when there is none. */
    function GetOr(default: T): T {
      match this
      case Some(v) => v
      case None => default
    }
  }

  datatype Result<+T, +E> = Ok(value: T) | Err(error: E)

  /** A successful result is determined by its value. */
  lemma OkOf<T, E>(r: Result<T, E>, v: T)
    requires r.Ok? && r.value == v
    ensures r == Ok(v)
  {
  }
}
