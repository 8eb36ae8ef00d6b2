/** Octets, as produced by TextEncoder and consumed by btoa. */
module Bytes {
  type byte = b: int | 0 <= b < 256
}
