/** The optional result of a lookup (`None` in the source). */
module Options {

  datatype Option<+T> = None | Some(value: T)
}
