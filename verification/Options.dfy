/** Values that may be absent: Go's nil results and lookups that miss. */
module Options {

  datatype Option<T> = None | Some(value: T)
}
