// An optional value, for a decode that may find no named meaning.
module GpfifoOption {
  datatype Option<T> = None | Some(value: T)
}
