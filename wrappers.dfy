/** The usual optional-value datatype, used for the outcomes of decoding and file reads. */
module Wrappers {
  datatype Option<+T> = None | Some(value: T)
}
