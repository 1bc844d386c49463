/** The optional value used for the unset password, the missing store file,
    the absent caption and a line that does not parse. */
module Wrappers {

  datatype Option<+T> = None | Some(value: T)
}
