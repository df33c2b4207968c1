/** The values a spin history holds. */
module Pockets {

  /** A pocket label: a number, or the double-zero token, which the source keeps as
      the string "00". Datatype equality reproduces the source's strict equality,
      under which the number 0 and the string "00" differ. */
  datatype Pocket = Num(n: int) | DoubleZero

  /** The labels of an American wheel: 0 to 36 and 00. */
  predicate IsPocket(p: Pocket) {
    p.DoubleZero? || 0 <= p.n <= 36
  }
}
