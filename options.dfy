/** A value that may be absent: what a NULL result or argument is modelled by. */
module Options {

  datatype Option<+T> = None | Some(value: T)
}
