/** The optional-value datatype used throughout the model for JavaScript's
    `undefined`/`null` fields. */
module Wrappers {

  datatype Option<+T> = None | Some(value: T)
}
