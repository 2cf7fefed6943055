/** The optional value used for the source's nullable fields (`null` is `None`). */
module Wrappers {
  datatype Option<+T> = None | Some(value: T)
}
