/** A value that may be missing: a failed assertion, a symbol that is not there. */
module Options {

  datatype Option<T> = None | Some(value: T)
}
