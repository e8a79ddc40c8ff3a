/** Machine words shared by the breakpoint masks and the trace levels. */
module Bits {

  /** An `unsigned int` (or an `int` read as its two's-complement bits). */
  type Word = bv32

  /** Exactly one bit of `w` is set. */
  predicate IsSingleBit(w: Word) {
    w != 0 && w & (w - 1) == 0
  }
}
