/** The optional value used for data that may be absent: a translation that
    failed to load, a book that was not found, a path segment that is not an
    integer. */
module Wrappers {

  datatype Option<+T> = None | Some(value: T)
}
