/** The source's "None or a value" arguments. */
module Optional {

  datatype Option<+T> = None | Some(value: T)
}
