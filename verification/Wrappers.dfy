/** Result types shared by the models: every expected failure of the program is
    a value here, never a precondition. */
module Wrappers {

  datatype Option<+T> = None | Some(value: T)

  datatype Result<+T> = Success(value: T) | Failure(error: string)
}
