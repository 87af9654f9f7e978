/** The optional value used where the page reads a DOM reference that may be null
    or searches a list that may hold no match. */
module Wrappers {

  datatype Option<+T> = None | Some(value: T)
}
