/** Small value wrappers shared by the other modules. */
module Wrappers {

  /** A value that may be absent, such as a storage key that was never written. */
  datatype Option<+T> = None | Some(value: T)
}
