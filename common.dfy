/** Machine integers used by the driver and a minimal Option type. */
module CInt {
  const INT32_MIN: int := -0x8000_0000
  const INT32_MAX: int := 0x7fff_ffff

  /** A C `int32_t`. */
  type int32 = x: int | INT32_MIN <= x <= INT32_MAX
}

module Wrappers {
  datatype Option<+T> = None | Some(value: T)
}
