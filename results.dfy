/** Optional values and results with an error, used where the source has a
    failed regex search, a `ValueError` or an `IndexError`. */
module Results {

  datatype Option<+T> = None | Some(value: T)

  datatype Result<+T, +E> = Ok(value: T) | Err(error: E)
}
