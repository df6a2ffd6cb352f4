/** Optional values: an absent column, argument or lookup. */
module Options {

  datatype Option<T> = None | Some(value: T)
}
