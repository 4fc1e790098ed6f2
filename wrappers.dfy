/** The optional value used for an empty cell and for "no winner" (`null` in the server). */
module Wrappers {
  datatype Option<+T> = None | Some(value: T)
}
