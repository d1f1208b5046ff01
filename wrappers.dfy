/** Failure-carrying results shared by the data loader and the ensembler.
    An `Err` stands for the Python exception that the modelled code raises. */
module Wrappers {

  datatype Option<+T> = None | Some(value: T)

  datatype Result<+R, +E> = Ok(value: R) | Err(error: E)
}
