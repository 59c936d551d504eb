/** The absent-or-present value that Python expresses with `None`. */
module Options {

  datatype Option<+T> = None | Some(value: T)
}
