/** Types that every part of the system uses. */
module Basics {

  datatype Option<+T> = None | Some(value: T)

  type Uuid = nat

  /** A clock reading, in whatever unit the clock has. */
  type Time = int
}
