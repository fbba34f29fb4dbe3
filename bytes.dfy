/** The byte type shared by the encoders. */
module Bytes {

  /** An octet, as Node's `Buffer` holds them. */
  type byte = x: int | 0 <= x < 256
}
