/** Result shapes shared by the model. */
module Outcomes {

  /** An optional value: `None` stands for JavaScript's `null` result. */
  datatype Option<+T> = None | Some(value: T)

  /** How a JavaScript call completes: it returns a value, or it throws the
      TypeError raised by reading a property of `null` or `undefined`. */
  datatype Completion<+T> = Normal(value: T) | TypeError
}
