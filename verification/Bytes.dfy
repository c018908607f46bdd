/** Bytes, for code that works below the level of characters. */
module Bytes {
  newtype byte = x: int | 0 <= x < 256
}
