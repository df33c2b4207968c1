/** The two pocket classifiers of script.js (`getQuadrant`, `getHalf`). */
module Classifiers {
  import opened Pockets

  /** What `getQuadrant` returns: a 9-number block 1..4, the sentinels 0 and "00",
      or `null`. */
  datatype Quadrant = Quad(index: int) | QuadZero | QuadDoubleZero | QuadNull

  /** What `getHalf` returns: "1-18", "19-36", the sentinels 0 and "00", or `null`. */
  datatype Half = LowHalf | HighHalf | HalfZero | HalfDoubleZero | HalfNull

  /** `getQuadrant`: the branches in source order. The last one, the fallback
      `return null`, cannot be reached once 1..36 is known. */
  function QuadrantOf(p: Pocket): (q: Quadrant)
    ensures q.Quad? <==> p.Num? && 1 <= p.n <= 36
    ensures q.Quad? ==> 1 <= q.index <= 4
    ensures q == QuadZero <==> p == Num(0)
    ensures q == QuadDoubleZero <==> p == DoubleZero
  {
    match p
    case DoubleZero => QuadDoubleZero
    case Num(n) =>
      if n == 0 then QuadZero
      else if n < 1 || n > 36 then QuadNull
      else if 1 <= n <= 9 then Quad(1)
      else if 10 <= n <= 18 then Quad(2)
      else if 19 <= n <= 27 then Quad(3)
      else if 28 <= n <= 36 then Quad(4)
      else assert false; QuadNull
  }

  /** `getHalf`, with the same treatment of 0, "00" and out-of-range values. */
  function HalfOf(p: Pocket): (h: Half)
    ensures h == LowHalf <==> p.Num? && 1 <= p.n <= 18
    ensures h == HighHalf <==> p.Num? && 19 <= p.n <= 36
    ensures h == HalfZero <==> p == Num(0)
    ensures h == HalfDoubleZero <==> p == DoubleZero
  {
    match p
    case DoubleZero => HalfDoubleZero
    case Num(n) =>
      if n == 0 then HalfZero
      else if n < 1 || n > 36 then HalfNull
      else if 1 <= n <= 18 then LowHalf
      else if 19 <= n <= 36 then HighHalf
      else assert false; HalfNull
  }

  /** The quadrant is the 9-number block that holds the pocket, counted from 1. */
  lemma QuadrantIsBlockOfNine(n: int)
    requires 1 <= n <= 36
    ensures QuadrantOf(Num(n)) == Quad((n - 1) / 9 + 1)
  {
  }

  /** The half is the 18-number block that holds the pocket, and it agrees with
      the quadrant: quadrants 1 and 2 lie in "1-18", quadrants 3 and 4 in "19-36". */
  lemma HalfAgreesWithQuadrant(p: Pocket)
    ensures HalfOf(p) == LowHalf <==> QuadrantOf(p) in {Quad(1), Quad(2)}
    ensures HalfOf(p) == HighHalf <==> QuadrantOf(p) in {Quad(3), Quad(4)}
  {
  }

  /** 0 and "00" are told apart by both classifiers. */
  lemma ZeroIsNotDoubleZero()
    ensures QuadrantOf(Num(0)) != QuadrantOf(DoubleZero)
    ensures HalfOf(Num(0)) != HalfOf(DoubleZero)
  {
  }
}
