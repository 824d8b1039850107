/** The absent-or-present value that Python expresses with `None`. */
module Opt {
  datatype Option<+T> = None | Some(value: T)
}
