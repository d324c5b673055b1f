/** Bytes, shared by the encoders. */
module Bytes {
  type Byte = b: nat | b < 256
}
