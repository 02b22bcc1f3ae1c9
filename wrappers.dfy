/** Optional values, shared by the history engine and the dialog logic. */
module Wrappers {

  /** `None` stands for JavaScript's `undefined` or for "nothing to do". */
  datatype Option<+T> = None | Some(value: T)
}
