/** The optional result a rule returns: `None` plays the part of a null alert. */
module Wrappers {
  datatype Option<+T> = None | Some(value: T)
}
