/** Optional values, standing for Python's `Optional[...]` results and `None`. */
module Wrappers {

  datatype Option<+T> = None | Some(value: T)
}
