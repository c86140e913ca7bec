/** Optional values: `undefined`/`null` in the original code. */
module Optional {
  datatype Option<+T> = None | Some(value: T)
}
