/** Shared result types: the source's null returns become `Option`, its thrown or
    rejected errors become `Err`. */
module Wrappers {

  datatype Option<+T> = None | Some(value: T)

  datatype Result<+T, +E> = Ok(value: T) | Err(error: E)
}
