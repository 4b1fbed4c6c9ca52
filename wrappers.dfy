/** The optional value used wherever the Python code returns `None` for "no result". */
module Wrappers {

  datatype Option<+T> = None | Some(value: T)

}
