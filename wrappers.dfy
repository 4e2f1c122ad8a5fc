/** The optional value used by the readers of generated SQL text. */
module Wrappers {
  datatype Option<+T> = None | Some(value: T)
}
