/** An optional value: a limit that may be absent, a message that may not parse. */
module Options {

  datatype Option<+T> = None | Some(value: T)
}
