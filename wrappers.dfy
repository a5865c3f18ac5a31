/** Small helper datatypes shared by the relay model. */
module Wrappers {

  /** A value that may be absent: an unreadable file, an unparsable frame. */
  datatype Option<+T> = None | Some(value: T)
}
