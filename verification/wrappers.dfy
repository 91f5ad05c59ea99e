/** Optional values and error results, standing in for Python's None and raised exceptions. */
module Wrappers {

  datatype Option<+T> = None | Some(value: T)

  datatype Result<+T, +E> = Ok(value: T) | Err(error: E)

  /** The Python exceptions the modelled code can raise. */
  datatype PyException = IndexError | KeyError | ValueError | AttributeError | TypeError
}
