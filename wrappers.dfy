/** The "value or nothing" type used for the calculator's `number | null` payment. */
module Wrappers {

  datatype Option<+T> = None | Some(value: T)
}
