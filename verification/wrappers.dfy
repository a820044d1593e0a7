/** The optional value used for lookups that can find nothing and for
    operations that can fail. */
module Wrappers {

  /** `None` stands for Python's `None` result or for a raised exception. */
  datatype Option<+T> = None | Some(value: T)
}
