/** Optional values, for the Go results that may be nil (an entry, an error). */
module Maybe {
  datatype Option<+T> = None | Some(value: T)
}
