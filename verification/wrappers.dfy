/** The optional-value type shared by both models. */
module Wrappers {

  /** `None` stands for an outcome the program never produces normally:
      a Python exception, or a scan that finds nothing. */
  datatype Option<+T> = None | Some(value: T)
}
