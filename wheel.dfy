/** The wheel ring of script.js (`wheelData`, `getSurroundingNumbersString`). */
module WheelTopology {
  import opened Pockets

  /** `wheelData`: the pockets in the order they sit on the wheel. */
  const WheelData: seq<Pocket> := [
    Num(0), Num(28), Num(9), Num(26), Num(30), Num(11), Num(7), Num(20), Num(32), Num(17),
    Num(5), Num(22), Num(34), Num(15), Num(3), Num(24), Num(36), Num(13), Num(1),
    DoubleZero,
    Num(27), Num(10), Num(25), Num(29), Num(12), Num(8), Num(19), Num(31), Num(18), Num(6),
    Num(21), Num(33), Num(16), Num(4), Num(23), Num(35), Num(14), Num(2)
  ]

  /** `wheelSize`. */
  const WheelSize: nat := |WheelData|

  /** How far the opposite pocket lies, as the source fixes it. */
  const OppositeOffset: nat := 19

  /** Pockets shown on each side of a centre. */
  const Radius: nat := 5

  /** The outcome of the neighbour lookup: the spin is not on the wheel, or the
      eleven pockets around it and the eleven around its opposite. */
  datatype Neighbours = SpinNotFound | Rings(self: seq<Pocket>, opposite: seq<Pocket>)

  /** Index of the polar opposite pocket on a wheel of `size` pockets:
      `(i + 19) % wheelSize`. */
  function Opposite(size: nat, i: nat): (j: nat)
    requires i < size
    ensures j < size
  {
    (i + OppositeOffset) % size
  }

  /** The wheel position `offset` steps from `center`, wrapping past both ends:
      `(center + offset + wheelSize) % wheelSize`. The sum is never negative on a
      wheel of at least `Radius` pockets, so the remainder agrees with the
      source's `%`. */
  function Step(size: nat, center: nat, offset: int): (p: nat)
    requires Radius <= size && center < size && 0 <= offset + Radius
    ensures p < size
  {
    (center + offset + size) % size
  }

  /** Zero steps from a position lead back to it. */
  lemma StepZero(size: nat, center: nat)
    requires Radius <= size && center < size
    ensures Step(size, center, 0) == center
  {
  }

  /** The eleven pockets around position `center` of `wheel`, five on either
      side, wrapping past both ends. */
  function Ring(wheel: seq<Pocket>, center: nat): (r: seq<Pocket>)
    requires Radius <= |wheel| && center < |wheel|
    ensures |r| == 2 * Radius + 1
    ensures r[Radius] == wheel[center]
  {
    var r := seq(2 * Radius + 1, k requires 0 <= k < 2 * Radius + 1 => wheel[Step(|wheel|, center, k - Radius)]);
    StepZero(|wheel|, center);
    r
  }

  /** The search from position `i` on: the first position at or after `i` that
      holds the spin under strict equality, or -1. */
  function PositionFrom(wheel: seq<Pocket>, spin: Pocket, i: nat): (r: int)
    requires i <= |wheel|
    ensures r == -1 <==> spin !in wheel[i..]
    ensures r != -1 ==> i <= r < |wheel| && wheel[r] == spin && spin !in wheel[i..r]
    decreases |wheel| - i
  {
    if i == |wheel| then -1
    else if wheel[i] == spin then i
    else
      var r := PositionFrom(wheel, spin, i + 1);
      assert wheel[i..] == [wheel[i]] + wheel[i + 1..];
      assert r != -1 ==> wheel[i..r] == [wheel[i]] + wheel[i + 1..r];
      r
  }

  /** What the source's search loop finds: the first position of the spin on
      the wheel, or -1. */
  function PositionOf(wheel: seq<Pocket>, spin: Pocket): (r: int)
    ensures -1 <= r < |wheel|
    ensures r == -1 <==> spin !in wheel
    ensures r >= 0 ==> wheel[r] == spin && spin !in wheel[..r]
  {
    assert wheel[0..] == wheel;
    PositionFrom(wheel, spin, 0)
  }

  /** What `getSurroundingNumbersString` reports, before it joins the rings into text. */
  function NeighboursOf(wheel: seq<Pocket>, spin: Pocket): (r: Neighbours)
    requires Radius <= |wheel|
    ensures r.SpinNotFound? <==> spin !in wheel
  {
    var i := PositionOf(wheel, spin);
    if i == -1 then SpinNotFound else Rings(Ring(wheel, i), Ring(wheel, Opposite(|wheel|, i)))
  }

  /** The search loop of `getSurroundingNumbersString`: scan the wheel from the
      start and stop at the first pocket strictly equal to the spin. */
  method FindSpinIndex(wheel: seq<Pocket>, spin: Pocket) returns (spinMatchIndex: int)
    ensures spinMatchIndex == PositionOf(wheel, spin)
  {
    spinMatchIndex := -1;
    var i := 0;
    while i < |wheel|
      invariant 0 <= i <= |wheel|
      invariant spinMatchIndex == -1
      invariant PositionFrom(wheel, spin, i) == PositionOf(wheel, spin)
    {
      if wheel[i] == spin {
        spinMatchIndex := i;
        break;
      }
      i := i + 1;
    }
  }

  /** `getSurroundingNumbersString`: find the spin, then push the pockets at
      offsets -5..5 around it and around its opposite. */
  method SurroundingNumbers(wheel: seq<Pocket>, spin: Pocket) returns (r: Neighbours)
    requires Radius <= |wheel|
    ensures r == NeighboursOf(wheel, spin)
  {
    var wheelSize := |wheel|;
    var spinMatchIndex := FindSpinIndex(wheel, spin);
    if spinMatchIndex == -1 {
      return SpinNotFound;
    }
    var oppositeMatchIndex := (spinMatchIndex + 19) % wheelSize;

    var surroundingNumbers := [];
    for i := -5 to 6
      invariant surroundingNumbers == Ring(wheel, spinMatchIndex)[..i + 5]
    {
      var position := (spinMatchIndex + i + wheelSize) % wheelSize;
      assert position == Step(wheelSize, spinMatchIndex, i + 5 - Radius);
      assert Ring(wheel, spinMatchIndex)[i + 5] == wheel[position];
      assert Ring(wheel, spinMatchIndex)[..i + 6] == Ring(wheel, spinMatchIndex)[..i + 5] + [wheel[position]];
      surroundingNumbers := surroundingNumbers + [wheel[position]];
    }

    var oppositeNumbers := [];
    for i := -5 to 6
      invariant oppositeNumbers == Ring(wheel, oppositeMatchIndex)[..i + 5]
    {
      var position := (oppositeMatchIndex + i + wheelSize) % wheelSize;
      assert position == Step(wheelSize, oppositeMatchIndex, i + 5 - Radius);
      assert Ring(wheel, oppositeMatchIndex)[i + 5] == wheel[position];
      assert Ring(wheel, oppositeMatchIndex)[..i + 6] == Ring(wheel, oppositeMatchIndex)[..i + 5] + [wheel[position]];
      oppositeNumbers := oppositeNumbers + [wheel[position]];
    }
    assert spinMatchIndex == PositionOf(wheel, spin);
    return Rings(surroundingNumbers, oppositeNumbers);
  }

  /** The remainder of a number below three turns of the wheel: subtract the
      whole turns it holds. */
  lemma ModOfFewTurns(x: int, m: int)
    requires 0 < m && 0 <= x < 3 * m
    ensures x % m == if x < m then x else if x < 2 * m then x - m else x - 2 * m
  {
    var d := x / m;
    assert x == d * m + x % m;
    // Splitting on the quotient around its one possible value is all the
    // solver needs to rule out the others.
    if x < m {
      if d <= -1 { } else if d >= 1 { }
    } else if x < 2 * m {
      if d <= 0 { } else if d >= 2 { }
    } else {
      if d <= 1 { } else if d >= 3 { }
    }
  }

  /** Consecutive entries of a ring are neighbours on the wheel: the position of
      entry `k + 1` is one step clockwise from that of entry `k`, also where the
      ring wraps past either end of the wheel. */
  lemma RingIsContiguous(size: nat, center: nat, k: int)
    requires Radius <= size && center < size && 0 <= k < 2 * Radius
    ensures Step(size, center, k + 1 - Radius) == Step(size, Step(size, center, k - Radius), 1)
  {
    var a := center + k - Radius + size;
    ModOfFewTurns(a, size);
    ModOfFewTurns(a + 1, size);
    ModOfFewTurns(a % size + 1 + size, size);
  }

  /** On the 38-pocket wheel the opposite of the opposite is the pocket itself. */
  lemma OppositeIsInvolution(i: nat)
    requires i < WheelSize
    ensures Opposite(WheelSize, Opposite(WheelSize, i)) == i
  {
  }

  /** Every pocket of an American wheel (0..36 and 00) is on `wheelData`, so the
      lookup never reports a validated spin as missing. */
  lemma EveryPocketIsOnTheWheel(p: Pocket)
    requires IsPocket(p)
    ensures p in WheelData
  {
  }

  /** A number for every pocket of an American wheel: its own number, and 37 for "00". */
  function Key(p: Pocket): int {
    match p
    case Num(n) => n
    case DoubleZero => 37
  }

  /** Where each key sits on `wheelData`: the inverse of the table, used in proofs only. */
  ghost const PositionByKey: seq<nat> := [
    0, 18, 37, 14, 33, 10, 29, 6, 25, 2, 21, 5, 24, 17, 36, 13, 32, 9, 28,
    26, 7, 30, 11, 34, 15, 22, 3, 20, 1, 23, 4, 27, 8, 31, 12, 35, 16, 19
  ]

  /** `PositionByKey` undoes the table: looking up the key of the pocket at
      position `i` gives `i` back. */
  lemma PositionByKeyInvertsWheel(i: nat)
    requires i < WheelSize
    ensures 0 <= Key(WheelData[i]) < |PositionByKey|
    ensures PositionByKey[Key(WheelData[i])] == i
  {
  }

  /** No pocket appears twice on `wheelData`. */
  lemma WheelHasNoRepeats(i: nat, j: nat)
    requires i < WheelSize && j < WheelSize && WheelData[i] == WheelData[j]
    ensures i == j
  {
    PositionByKeyInvertsWheel(i);
    PositionByKeyInvertsWheel(j);
  }

  /** The search finds every pocket at its one place on the wheel. */
  lemma PositionOfIsThePlace(i: nat)
    requires i < WheelSize
    ensures PositionOf(WheelData, WheelData[i]) == i
  {
    var r := PositionOf(WheelData, WheelData[i]);
    WheelHasNoRepeats(r, i);
  }

  /** Where 0 and "00" sit on `wheelData`. */
  lemma ZeroLandmarks()
    ensures WheelSize == 38
    ensures WheelData[0] == Num(0) && WheelData[19] == DoubleZero
  {
  }

  /** 0 is found at the start of `wheelData`. */
  lemma ZeroIsFirst()
    ensures PositionOf(WheelData, Num(0)) == 0
  {
    ZeroLandmarks();
    PositionOfIsThePlace(0);
  }

  /** "00" is found nineteen pockets further, distinct from 0 under strict equality. */
  lemma DoubleZeroIsNineteenth()
    ensures PositionOf(WheelData, DoubleZero) == 19
  {
    ZeroLandmarks();
    PositionOfIsThePlace(19);
  }

  /** 0 and "00" are each other's opposite pocket. */
  lemma ZeroAndDoubleZeroAreOpposite()
    ensures Opposite(WheelSize, PositionOf(WheelData, Num(0))) == PositionOf(WheelData, DoubleZero)
    ensures Opposite(WheelSize, PositionOf(WheelData, DoubleZero)) == PositionOf(WheelData, Num(0))
  {
    ZeroIsFirst();
    DoubleZeroIsNineteenth();
    OppositeIsInvolution(0);
    ModOfFewTurns(19, WheelSize);
  }

  /** Away from both ends of the wheel a ring is the plain slice around its centre. */
  lemma RingInside(wheel: seq<Pocket>, center: nat)
    requires Radius <= center && center + Radius < |wheel|
    ensures Ring(wheel, center) == wheel[center - Radius..center + Radius + 1]
  {
    forall k | 0 <= k < 2 * Radius + 1
      ensures Ring(wheel, center)[k] == wheel[center - Radius..center + Radius + 1][k]
    {
      ModOfFewTurns(center + k - Radius + |wheel|, |wheel|);
      assert Ring(wheel, center)[k] == wheel[Step(|wheel|, center, k - Radius)];
    }
  }

  /** The ring around the first position wraps: its left side is the last
      `Radius` pockets of the wheel, in wheel order. */
  lemma RingAtStart(wheel: seq<Pocket>)
    requires 2 * Radius + 1 <= |wheel|
    ensures Ring(wheel, 0) == wheel[|wheel| - Radius..] + wheel[..Radius + 1]
  {
    forall k | 0 <= k < 2 * Radius + 1
      ensures Ring(wheel, 0)[k] == (wheel[|wheel| - Radius..] + wheel[..Radius + 1])[k]
    {
      ModOfFewTurns(k - Radius + |wheel|, |wheel|);
      assert Ring(wheel, 0)[k] == wheel[Step(|wheel|, 0, k - Radius)];
    }
  }

  /** The ring around the last position ends with the first five pockets of
      the wheel, in wheel order. */
  lemma RingAtEnd(wheel: seq<Pocket>)
    requires 2 * Radius + 1 <= |wheel|
    ensures Ring(wheel, |wheel| - 1) == wheel[|wheel| - 1 - Radius..] + wheel[..Radius]
  {
    var last := |wheel| - 1;
    var ring, expected := Ring(wheel, last), wheel[last - Radius..] + wheel[..Radius];
    forall k | 0 <= k < 2 * Radius + 1 ensures ring[k] == expected[k] {
      ModOfFewTurns(last + k - Radius + |wheel|, |wheel|);
      assert ring[k] == wheel[Step(|wheel|, last, k - Radius)];
    }
  }

  /** Once the search has found the spin, the lookup shows the rings around its
      position and around the opposite one. */
  lemma NeighboursFound(wheel: seq<Pocket>, spin: Pocket, i: nat)
    requires Radius <= |wheel| && i < |wheel| && PositionOf(wheel, spin) == i
    ensures NeighboursOf(wheel, spin) == Rings(Ring(wheel, i), Ring(wheel, Opposite(|wheel|, i)))
  {
  }

  /** The rings shown for spin 0: the last five pockets of `wheelData`, 0, and the
      next five; opposite it, the eleven pockets centred on "00". */
  lemma RingsAroundZero()
    ensures NeighboursOf(WheelData, Num(0))
         == Rings(WheelData[33..] + WheelData[..6], WheelData[14..25])
  {
    ZeroIsFirst();
    ZeroLandmarks();
    ModOfFewTurns(19, WheelSize);
    NeighboursFound(WheelData, Num(0), 0);
    RingAtStart(WheelData);
    RingInside(WheelData, 19);
  }

  /** The rings of `RingsAroundZero` pocket by pocket, as the display lists them:
      4, 23, 35, 14, 2 lead up to 0 in wheel order. */
  lemma RingsAroundZeroListed()
    ensures WheelData[33..] + WheelData[..6]
         == [Num(4), Num(23), Num(35), Num(14), Num(2), Num(0), Num(28), Num(9), Num(26), Num(30), Num(11)]
    ensures WheelData[14..25]
         == [Num(3), Num(24), Num(36), Num(13), Num(1), DoubleZero, Num(27), Num(10), Num(25), Num(29), Num(12)]
  {
    assert WheelData[33..] == [Num(4), Num(23), Num(35), Num(14), Num(2)];
    assert WheelData[..6] == [Num(0), Num(28), Num(9), Num(26), Num(30), Num(11)];
    forall k | 0 <= k < 11 ensures WheelData[14..25][k] == WheelData[14 + k] {}
  }
}
