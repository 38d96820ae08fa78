/** The optional-value type used for Python operations that either produce a
    value or raise (parsing an integer, lexing, decoding) and for a file that
    may be absent. */
module Wrappers {
  datatype Option<+T> = None | Some(value: T)
}
