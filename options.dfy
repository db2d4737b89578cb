/** Optional values and error results shared by the scraper modules. */
module Options {

  /** A lookup that may find nothing (Python's `None`). */
  datatype Option<T> = None | Some(value: T)

  /** An operation that either produces a value or raises. */
  datatype Result<T, E> = Ok(value: T) | Err(error: E)
}
