/** The stock option type, for values the program may find missing. */
module Options {
  datatype Option<+T> = None | Some(value: T)
}
