/** Python's `Optional[...]`: a value that may be absent (`None`). */
module Wrappers {

  datatype Option<+T> = None | Some(value: T)
}
