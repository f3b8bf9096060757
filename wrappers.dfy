/** The optional value shared by the modules of this model: it stands for a
    null reference, an absent array or a failed bounds check. */
module Wrappers {

  datatype Option<+T> = None | Some(value: T)
}
