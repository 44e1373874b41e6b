/** The optional value used by the model's partial readings and lookups. */
module Wrappers {

  datatype Option<+T> = None | Some(value: T)

}
