/** A value that may be missing: a null pointer, a key not found, an error return. */
module Options {

  datatype Option<T> = None | Some(value: T)
}
