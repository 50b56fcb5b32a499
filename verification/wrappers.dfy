/** An optional value: a JSON field that may be missing, a parse that may fail. */
module Wrappers {
  datatype Option<+T> = None | Some(value: T)
}
