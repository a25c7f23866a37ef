/** Small failure-compatible wrapper used across the model. */
module Wrappers {

  /** An optional value: `None` stands for Python's implicit `None` result. */
  datatype Option<+T> = None | Some(value: T)
}
