/** Values that may be absent: Redis replies, parsed fields, enabled steps. */
module Options {
  datatype Option<+T> = None | Some(value: T)
}
