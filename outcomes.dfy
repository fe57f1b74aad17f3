/** Optional values and the exceptions the parsing core can throw. */
module Outcomes {

  datatype Option<T> = None | Some(value: T)

  /** The .NET exceptions that escape the parsing core. */
  datatype Exception =
    | FormatException            // int.Parse given text that is not a number
    | OverflowException          // int.Parse given a number outside the 32-bit range
    | InvalidOperationException  // Enumerable.Last() on an empty sequence

  /** The result of a call that either returns a value or throws. */
  datatype Outcome<T> = Returned(value: T) | Threw(exception: Exception)
}
