/** Optional values: `None` stands for Python's `None` and for an attribute that has been deleted. */
module Wrappers {

  datatype Option<T> = None | Some(value: T)
}
