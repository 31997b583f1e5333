/** The optional value used wherever the widget reads something that may be absent. */
module Wrappers {
  datatype Option<+T> = None | Some(value: T)
}
