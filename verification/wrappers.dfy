/** Small value wrappers shared by every module of the model. */
module Wrappers {

  /** A JavaScript/SQL value that may be `null`. */
  datatype Option<+T> = None | Some(value: T)

  /** A key of a JSON request body: either left out (`undefined`) or given. */
  datatype Field<+T> = Absent | Given(value: T)
}
