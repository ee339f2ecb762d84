/** Option and Result values: a nullable column, and a run that may abort. */
module Wrappers {

  /** A column value that pandas may hold as None (SQL NULL). */
  datatype Option<T> = None | Some(value: T)

  /** The outcome of a step that either yields a value or stops the script with an error. */
  datatype Result<T, E> = Ok(value: T) | Err(error: E)
}
