/** The optional-value datatype used wherever the Go code works with a
    value that may be nil (an unresolved callee, a missing enclosing
    declaration, a package-less object). */
module Wrappers {
  datatype Option<+T> = None | Some(value: T)
}
