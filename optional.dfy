// The absent-or-present value used for nullable columns and lookups.

module Optional {

  datatype Option<T> = None | Some(value: T)
}
