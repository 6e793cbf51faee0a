/** The optional value used for "no error" / "first error found" and for an
    optional saved document. */
module Wrappers {
  datatype Option<+T> = None | Some(value: T)
}
