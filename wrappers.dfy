/** The nullable values of the dashboard (`string | null`, a `find` that may miss). */
module Wrappers {
  datatype Option<+T> = None | Some(value: T)
}
