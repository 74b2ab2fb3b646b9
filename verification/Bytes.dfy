/** Bytes as the C++ sources handle them, unsigned. */
module Bytes {
  type byte = b: int | 0 <= b < 256
}
