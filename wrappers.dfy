/** The optional-value type shared by the physics and race modules. */
module Wrappers {

  /** `None` stands for the source's `null` (no winner yet, no force to apply). */
  datatype Option<+T> = None | Some(value: T)
}
