/** An optional value, used wherever the platform stores NULL or returns None. */
module Wrappers {
  datatype Option<+T> = None | Some(value: T)
}
