/** Option and Result values, and the Python exception that a failing step raises. */
module Wrappers {

  datatype Option<+T> = None | Some(value: T)

  /** A Python exception: its class name (`type(e).__name__`) and its formatted
      traceback. For exceptions raised by the Python runtime or a library the text
      holds only what the message names (a path, a key, a column); the rest of the
      runtime's wording is not modelled. */
  datatype Error = Error(name: string, trace: string)

  datatype Result<+R> = Success(value: R) | Failure(error: Error)

  /** `d.get(key, default)`, where `o` is what `d` holds under `key`: the value when
      the key is present (even an empty one), else the default. */
  function GetOr<T>(o: Option<T>, default: T): T
  {
    match o
    case Some(v) => v
    case None => default
  }

  /** Python's `IndexError` raised by indexing an empty list. */
  const IndexOutOfRange: Error := Error("IndexError", "")
}
