/** The optional-result type used by every recognizer and entry point. */
module Wrappers {

  /** `None` is a recognizer failure (nom's recoverable error); `Some` carries the value. */
  datatype Option<+T> = None | Some(value: T)
}
