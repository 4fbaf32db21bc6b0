/** The optional-value datatype used by the parsers that invert the renderers. */
module Wrappers {

  /** Some value, or none when the input does not have the expected shape. */
  datatype Option<+T> = None | Some(value: T)
}
