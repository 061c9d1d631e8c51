/** A value that may be missing: undefined, null or unset in the source. */
module Options {

  datatype Option<+T> = None | Some(value: T)
}
