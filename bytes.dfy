/** Octets, as held by a JavaScript `Uint8Array`. */
module Bytes {
  newtype byte = x: int | 0 <= x < 256
}
