/** Nullable values of the C# code (`T?`) as an option type. */
module Wrappers {
  datatype Option<+T> = None | Some(value: T)
}
