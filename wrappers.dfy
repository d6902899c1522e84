/** The optional value the model uses for a mean that does not exist. */
module Wrappers {

  datatype Option<+T> = None | Some(value: T)
}
