module Options {

  /** Some value, or None where the source returns None or raises without a distinguishable reason. */
  datatype Option<+T> = None | Some(value: T)
}
