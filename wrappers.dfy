/** The one wrapper the model needs: a value that may be absent. */
module Wrappers {

  /** `None` stands for JavaScript's `undefined`: a value that is not there. */
  datatype Option<+T> = None | Some(value: T)
}
