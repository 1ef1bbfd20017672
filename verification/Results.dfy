/** Optional values, and results of operations that can fail. */
module Results {

  datatype Option<T> = None | Some(value: T)

  datatype Result<T> = Ok(value: T) | Err
}
