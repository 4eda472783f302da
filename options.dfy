/** The optional value the game uses where the source stores `null`. */
module Options {

  datatype Option<+T> = None | Some(value: T)
}
