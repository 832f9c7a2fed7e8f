/** Outcomes of operations that throw. */
module Results {
  datatype Result<+T, +E> = Ok(value: T) | Err(error: E)
}
