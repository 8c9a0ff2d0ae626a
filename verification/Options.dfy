/** The optional value used wherever the bridge's records may lack a field. */
module Options {
  datatype Option<+T> = None | Some(value: T)
}
