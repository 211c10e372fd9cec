/** The optional value used for parsed form fields: `None` stands for the
    `NaN` that `parseInt` and `parseFloat` return on malformed input. */
module Wrappers {
  datatype Option<+T> = None | Some(value: T)
}
