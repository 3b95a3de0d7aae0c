/** Option datatype used for the source's nullable references (`null` in JavaScript). */
module Wrappers {
  datatype Option<+T> = None | Some(value: T)
}
