/** Byte strings as the C code sees them: `mb_slice` and `pb_slice` are a pointer and a length. */
module Bytes {

  type byte = x: int | 0 <= x < 256

  type Slice = seq<byte>

  const TAB: byte := 9
  const NL: byte := 10
  const CR: byte := 13
  const SPACE: byte := 32
  const STAR: byte := 42
  const DOT: byte := 46
  const COLON: byte := 58
  const GT: byte := 62

  datatype Option<+T> = None | Some(value: T)
}
