/** The optional value used across the model: a stored key that may be absent,
    a roster lookup that may find nothing. */
module Wrappers {

  datatype Option<+T> = None | Some(value: T)
}
