/** A possibly missing value: pandas' NaN in an object or float column. */
module Wrappers {
  datatype Option<+T> = None | Some(value: T)
}
