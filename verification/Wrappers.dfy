/** The stock option type used wherever the program stores a nullable value. */
module Wrappers {
  datatype Option<+T> = None | Some(value: T)
}
