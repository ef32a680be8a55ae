/** The optional value the relay uses for absent query parameters, absent
    elements and a regular-expression match that did not happen (`null`). */
module Wrappers {

  datatype Option<+T> = None | Some(value: T)
}
