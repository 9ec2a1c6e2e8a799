// The option type every other module shares.

module Options {
  datatype Option<+T> = None | Some(value: T)
}
