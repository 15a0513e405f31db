/** An optional value, used for the optional fields of the catalog records. */
module Optional {
  datatype Option<+T> = None | Some(value: T)
}
