/** The optional value shared by all pages: a query answer that may be null, a
    number that may not parse. */
module Wrappers {

  datatype Option<+T> = None | Some(value: T)
}
