/** Java's nullable references and "null means failure" returns, as a value. */
module Wrappers {

  /** `None` stands for Java's `null`. */
  datatype Option<T> = None | Some(value: T)
}
