/** The one wrapper the model needs: a value that may be absent (the source's `null`). */
module Wrappers {
  datatype Option<+T> = None | Some(value: T)
}
