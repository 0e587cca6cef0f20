/** The optional result used for "no contact", "no hit" and a failed ramp sample. */
module Wrappers {
  datatype Option<+T> = None | Some(value: T)
}
