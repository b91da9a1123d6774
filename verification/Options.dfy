/** The Some/None value used for Python's `None`, SQL's `null` and TypeScript's `null`. */
module Options {
  datatype Option<+T> = None | Some(value: T)
}
