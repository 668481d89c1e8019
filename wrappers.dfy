/** The optional-value datatype the rest of the model uses for absent
    command-line arguments and for lookups that can miss. */
module Wrappers {

  datatype Option<+T> = None | Some(value: T)
}
