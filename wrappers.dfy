/** Values that may be absent, shared by the date parser and the label encoder. */
module Wrappers {
  datatype Option<T> = None | Some(value: T)
}
