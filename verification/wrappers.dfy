/** Small shared value wrappers used by several modules of the model. */
module Wrappers {
  /** A value that may be absent: a NULL pointer, a missing table entry. */
  datatype Option<T> = None | Some(value: T)
}
