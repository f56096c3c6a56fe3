/** The optional value used for "no peer" and for an absent correlation token. */
module Options {
  datatype Option<+T> = None | Some(value: T)
}
