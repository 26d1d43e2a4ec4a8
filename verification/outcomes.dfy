/** Small failure-carrying datatypes shared by the whole model. */
module Outcomes {

  /** A value that may be absent. */
  datatype Option<+T> = None | Some(value: T)

  /** The result of a call that may raise: either it returns `value`, or an
      exception described by `error` escapes from it. */
  datatype Outcome<+T> = Done(value: T) | Raised(error: string)
}
