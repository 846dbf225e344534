/** The optional value the model uses for C#'s nullable results. */
module Wrappers {
  datatype Option<+T> = None | Some(value: T)
}
