/**
 * The outcome of a pandas operation that looks up a column by name.
 */
module Errors {
  /** The value, or the KeyError that names the missing column. */
  datatype Result<T> = Ok(value: T) | KeyError(key: string)
}
