/** The usual optional value, for attributes and entries that may be absent. */
module Optional {

  datatype Option<+T> = None | Some(value: T)
}
