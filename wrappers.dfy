/** Option and Result: the model's stand-ins for Java's null and for thrown exceptions. */
module Wrappers {

  datatype Option<+T> = None | Some(value: T)

  datatype Result<+R, +E> = Success(value: R) | Failure(error: E)

  /** Java's `"" + x` and `String.format("%s", x)` render a null reference as "null". */
  function OrNull(s: Option<string>): string
  {
    match s
    case Some(v) => v
    case None => "null"
  }
}
