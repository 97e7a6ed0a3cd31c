/** The optional value used for the calculator's absent fields.
    JavaScript's `null` and `undefined` are both `None` here, since the
    calculator only ever tests them with `== null`. */
module Options {

  datatype Option<+T> = None | Some(value: T)
}
