/** A value that may be absent, used for `None` results and for errors that carry no payload. */
module Wrappers {
  datatype Option<T> = None | Some(value: T)
}
