/** Small result types shared by every module of the model. */
module Wrappers {

  datatype Option<+T> = None | Some(value: T)

  /** Why an operation on the labyrinth refused its arguments. The source raises
      `ValueError` with three different messages and lets `IndexError` escape
      from plain list indexing; each message is one constructor here. */
  datatype Error =
    | InvalidDirection   // "Invalid Direction ..."
    | InvalidPosition    // "Invalid Position ..." for the starting position
    | LeavesGrid         // "... leaves the grid." for the stepped-to position
    | IndexError         // list index out of range

  datatype Result<+T> = Ok(value: T) | Err(error: Error)
}
