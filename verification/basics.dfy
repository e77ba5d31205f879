/** Small shared vocabulary: octets and optional values. */
module Basics {

  /** One octet, the unit PHP strings and Base64 input are made of. */
  type uint8 = x: int | 0 <= x < 256

  /** A value that may be absent. */
  datatype Option<+T> = None | Some(value: T)
}
