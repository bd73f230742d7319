/** The optional value used wherever the source can produce `NaN`,
    `null` or "no entry". */
module Wrappers {
  datatype Option<+T> = None | Some(value: T)
}
