/** Optional values (a JavaScript value that may be undefined) and the one exception the core can throw. */
module Wrappers {

  datatype Option<+T> = None | Some(value: T)

  /** The result of an operation that either returns a value or throws a TypeError. */
  datatype Outcome<+T> = Ok(value: T) | TypeError
}
