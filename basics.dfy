/** The optional value used wherever pandas would hold NaN ("no usable value"). */
module Basics {
  datatype Option<+T> = None | Some(value: T)
}
