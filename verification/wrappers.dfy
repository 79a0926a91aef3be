/** Option type shared by the modules of this model. */
module Wrappers {

  /** A value that may be absent: `null`/`undefined` in the frontend, `None` in the backend. */
  datatype Option<+T> = None | Some(value: T)
}
