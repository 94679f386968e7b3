/** Optional values. */
module Options {

  /** A value that may be absent: a request header, a dictionary entry, ... */
  datatype Option<+T> = None | Some(value: T)
}
