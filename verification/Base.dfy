/** Option, Result and byte strings, shared by every component. */
module Base {
  datatype Option<+T> = None | Some(value: T)

  datatype Result<+T, +E> = Ok(value: T) | Err(error: E)

  /** What a loop that has `done` some of a list ends with, when `more` is what the rest gives. */
  function Behind<T, E>(done: seq<T>, more: Result<seq<T>, E>): Result<seq<T>, E> {
    if more.Err? then more else Ok(done + more.value)
  }

  type byte = b: int | 0 <= b < 256

  type bytes = seq<byte>
}
