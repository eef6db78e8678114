/** Result shapes shared by every module: an optional value, and a value or a failure message. */
module Outcomes {

  datatype Option<+T> = None | Some(value: T)

  datatype Result<+T> = Ok(value: T) | Err(error: string)
}
