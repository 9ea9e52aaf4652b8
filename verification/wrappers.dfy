/** The optional-value type used for a match that may fail and for text that may not parse. */
module Wrappers {

  datatype Option<+T> = None | Some(value: T)
}
