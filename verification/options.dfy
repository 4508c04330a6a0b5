/** The optional value used for Swift's `T?`: an absent second operand, a
    display text that does not parse, an evaluation that yields no result. */
module Options {

  datatype Option<+T> = None | Some(value: T)
}
