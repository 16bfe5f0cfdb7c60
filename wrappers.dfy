/** The optional value used for lookups and for parses that can fail. */
module Wrappers {

  datatype Option<+T> = None | Some(value: T)
}
