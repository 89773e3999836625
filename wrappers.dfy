/** Optional values and error-or-value results, shared by every module. */
module Wrappers {

  /** A nullable value: `None` stands for Python's `None`. */
  datatype Option<+T> = None | Some(value: T)

  /** Either a value or the domain error the operation raised instead. */
  datatype Result<+R, +E> = Success(value: R) | Failure(error: E)
}
