/** Option and Result values, and the built-in Python exceptions that the
    scraper lets escape to its caller (it never catches them). */
module Wrappers {

  datatype Option<+T> = None | Some(value: T)

  datatype Result<+R, +E> = Success(value: R) | Failure(error: E)

  /** Exceptions raised by the Python runtime itself, as opposed to the
      scraper's own typed errors. */
  datatype PyException =
    | ValueError          // randint(0, -1) on an empty user-agent pool
    | AttributeError      // attribute read on None (a missing element or record)
    | KeyError(key: string)  // a tag read by a missing attribute name
    | IndexError          // a list index past the end
}
