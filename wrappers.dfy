/** The optional-value wrapper used throughout the model: JavaScript's
    `null`/`undefined`/`NaN` results become `None`. */
module Wrappers {
  datatype Option<+T> = None | Some(value: T)
}
