/** Optional values and failures, used where the Python code returns None or raises. */
module Results {

  datatype Option<+T> = None | Some(value: T)

  /** `Err` carries the text of the exception that the Python code would raise, as `str(e)` gives it. */
  datatype Result<+T> = Ok(value: T) | Err(message: string)
}
