/** Outcomes that may be absent or refused: Python's None and its raised ValueError. */
module Results {
  datatype Option<+T> = None | Some(value: T)

  datatype Result<+T> = Ok(value: T) | ValueError
}
