/** Identifiers and optional values. */
module Options {

  /** Identifiers are strings in the program; only their order and equality matter. */
  type Id = int

  datatype Option<T> = None | Some(value: T)
}
