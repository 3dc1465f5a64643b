/** The optional value used wherever the services pass `None` or leave a key out. */
module Wrappers {
  datatype Option<+T> = None | Some(value: T)
}
