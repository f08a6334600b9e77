/** Small value types shared by every module of the balance monitor model. */
module Wrappers {

  /** A value that may be absent: a missing JSON key, a `dict.get` miss. */
  datatype Option<+T> = None | Some(value: T)

  /** The outcome of an operation that can abort the whole projection. */
  datatype Result<+R, +E> = Success(value: R) | Failure(error: E)

  function Min(a: int, b: int): int
  {
    if a <= b then a else b
  }

  function Abs(a: int): int
  {
    if a < 0 then -a else a
  }
}
