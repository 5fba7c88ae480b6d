// The machine number ranges the model needs.
module Bytes {

  type Byte = b: int | 0 <= b < 256

  // An unsigned 32-bit machine word.
  type U32 = x: int | 0 <= x < 0x1_0000_0000
}
