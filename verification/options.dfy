/** An optional value: the index a scan finds, or none. */
module Options {

  datatype Option<T> = None | Some(value: T)
}
