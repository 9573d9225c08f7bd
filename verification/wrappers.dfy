/** The optional values the application passes around: a nullable JavaScript value. */
module Wrappers {
  datatype Option<+T> = None | Some(value: T)
}
