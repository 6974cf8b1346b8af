/** Bytes as the encoders and the memory routines see them. */
module ByteType {
  type Byte = x: int | 0 <= x < 256
}
