/** Absent-or-present values, used wherever the payload may lack a field or
    the handler may finish without sending a response. */
module Wrappers {

  datatype Option<+T> = None | Some(value: T)
}
