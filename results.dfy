/** The optional value used wherever the wrapper returns either nothing or an error. */
module Results {
  datatype Option<+T> = None | Some(value: T)
}
