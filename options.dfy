/** The absence signal of the indicator helpers, which return `None` when a series is too short. */
module Options {
  datatype Option<+T> = None | Some(value: T)
}
