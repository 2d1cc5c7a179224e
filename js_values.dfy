/** JavaScript values that the modelled code can produce. */
module JsValues {

  /** A value that may be `undefined`: reading past the end of an array,
      or at a missing index, gives `None`. */
  datatype Option<+T> = None | Some(value: T)

  /** The result of `parseInt`: `NaN` or an integer. The model does not keep
      the sign of a negative zero, which the modelled code never observes. */
  datatype Num = NaN | Int(value: int)
}
