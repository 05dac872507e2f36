/** Types shared by every component of the model. */
module Basics {

  datatype Option<+T> = None | Some(value: T)

  /** A call that either completes with a value or is refused with a reason. */
  datatype Reply<+T, +E> = Done(value: T) | Refuse(why: E)
}
