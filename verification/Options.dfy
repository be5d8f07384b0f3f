/** The two failure shapes the other modules share: an absent value, and a refusal by name. */
module Options {
  datatype Option<+T> = None | Some(value: T)

  datatype Result<+T, +E> = Ok(value: T) | Refused(error: E)
}
