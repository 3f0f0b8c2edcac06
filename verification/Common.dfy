/** Types shared by the other modules. */
module Common {

  /** A pointer that may be NULL, or a value that may be missing. */
  datatype Option<T> = None | Some(value: T)
}
