/** Optional values: `None` also stands for the places where the original
    program unwraps a missing value or otherwise aborts on its input. */
module Wrappers {
  datatype Option<+T> = None | Some(value: T)
}
