/** The optional value the search code signals "nothing" with (Python's None). */
module Wrappers {
  datatype Option<+T> = None | Some(value: T)
}
