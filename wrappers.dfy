/** Option, Result and Outcome datatypes shared by every module of the model. */
module Wrappers {

  datatype Option<+T> = None | Some(value: T)

  /** A value or an error, as a Rust `Result<T, E>`. */
  datatype Result<+T, +E> = Success(value: T) | Failure(error: E)

  /** A step that either passes or fails with an error and carries no value. */
  datatype Outcome<+E> = Pass | Fail(error: E)

  /** Rust's `Result::map_err`. */
  function MapError<T, E, F>(r: Result<T, E>, f: E -> F): (m: Result<T, F>)
    ensures m.Success? <==> r.Success?
    ensures r.Success? ==> m.value == r.value
    ensures r.Failure? ==> m.error == f(r.error)
  {
    match r
    case Success(v) => Success(v)
    case Failure(e) => Failure(f(e))
  }
}

/** Machine integer and byte types that appear in the service's records. */
module Types {

  newtype byte = b: int | 0 <= b < 256

  /** `usize` on a 64-bit target. */
  type Usize = x: int | 0 <= x < 0x1_0000_0000_0000_0000
}
