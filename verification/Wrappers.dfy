/** Values that may be absent, shared by every component's model. */
module Wrappers {
  datatype Option<+T> = None | Some(value: T)
}
