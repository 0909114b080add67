/**
  A value or none: the pass results, lookups and indices that may be missing.
 */
module Options {
  datatype Option<+T> = None | Some(value: T)
}
