/** The nullable values of the C# source: a string-typed configuration value that
    may be absent (null), or a lookup that may find nothing. */
module Wrappers {

  datatype Option<+T> = None | Some(value: T)
}
