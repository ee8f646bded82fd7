/** Optional values and results with an error, for the Go functions that return `(value, err)`. */
module Results {

  datatype Option<+T> = None | Some(value: T)

  datatype Result<+T, +E> = Ok(value: T) | Err(error: E)
}
