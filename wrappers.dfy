/** An optional value: a field that may be absent, a remote call that may fail. */
module Wrappers {
  datatype Option<+T> = None | Some(value: T)
}
