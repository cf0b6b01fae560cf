/** The usual result carriers. */
module Wrappers {

  datatype Option<+T> = None | Some(value: T)

  // A call that answers, or is refused and leaves its target as it was.
  datatype Outcome<+T> = Ok(value: T) | Refused
}
