/** The optional value a single-row query (`fetchone()`) returns: no row, or one row. */
module Wrappers {
  datatype Option<+T> = None | Some(value: T)
}
