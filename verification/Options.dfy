// A result that may be absent: the encoders' raised errors and empty searches.
module Options {
  datatype Option<+T> = None | Some(value: T)
}
