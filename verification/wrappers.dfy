/** An optional value: `None` is a missing entry, `Some` a present one. */
module Wrappers {

  datatype Option<T> = None | Some(value: T)
}
