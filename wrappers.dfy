/** The optional value shared by every module of the model. */
module Wrappers {

  /** `None` stands for Python's `None`, or for an operation that raised. */
  datatype Option<+T> = None | Some(value: T)
}
