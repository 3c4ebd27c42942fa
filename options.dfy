/** A value that may be absent: a missing form control or storage entry. */
module Options {
  datatype Option<T> = None | Some(value: T)
}
