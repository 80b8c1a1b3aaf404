/** What several components share. */
module Common {
  type Byte = x: int | 0 <= x < 256

  datatype Option<T> = None | Some(value: T)

  /** The error number of a cancelled request. */
  const ECANCELED := 125
}
