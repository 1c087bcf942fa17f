/** The option type used wherever the simulator marks absence with an all-ones value. */
module Options {
  datatype Option<+T> = None | Some(value: T)
}
