/** The usual optional-value datatype, used for the results of lookups and decoders. */
module Wrappers {
  datatype Option<+T> = None | Some(value: T)
}
