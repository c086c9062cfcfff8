/** The optional value the source expresses with a null pointer. */
module Optional {

  datatype Option<+T> = None | Some(value: T)
}
