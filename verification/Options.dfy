/** A value that may be missing: a NULL column, an absent parameter, a search without a result. */
module Options {
  datatype Option<+T> = None | Some(value: T)
}
