/** Option and Result, used for the fallible operations of the model:
    the padding step (`pad_with` returns a `Result`) and the construction
    of a variable-size Groestl hasher (`InvalidOutputSize`). */
module Wrappers {

  datatype Option<+T> = None | Some(value: T)

  datatype Result<+R, +E> = Ok(value: R) | Err(error: E)
}
