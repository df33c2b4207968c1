/** The two threshold ladders of script.js (`classifyE3`, `classifyE4`). */
module Buckets {
  import opened Wrappers

  /** The seven ordinal classes; the source spells them "E3_Low", "E4_Low", ...
      and `""` stands for no class, which is `None` here. */
  datatype Bucket = ExtremeLow | Low | MidLow | Medium | MidHigh | High | ExtremeHigh

  /** Position of a class on the ladder, lowest first. */
  function Rank(b: Bucket): nat {
    match b
    case ExtremeLow => 0
    case Low => 1
    case MidLow => 2
    case Medium => 3
    case MidHigh => 4
    case High => 5
    case ExtremeHigh => 6
  }

  /** `classifyE3`: the tests in source order. Every integer passes one of them,
      so the fallback `return ""` is unreachable: the class is empty exactly when
      the sum is missing. */
  function ClassifyE3(sum4: Option<int>): (c: Option<Bucket>)
    ensures c.None? <==> sum4.None?
  {
    match sum4
    case None => None
    case Some(s) =>
      if s <= 4 then Some(ExtremeLow)
      else if s >= 16 then Some(ExtremeHigh)
      else if 5 <= s <= 6 then Some(Low)
      else if 14 <= s <= 15 then Some(High)
      else if 7 <= s <= 8 then Some(MidLow)
      else if 12 <= s <= 13 then Some(MidHigh)
      else if 9 <= s <= 11 then Some(Medium)
      else assert false; None
  }

  /** `classifyE4`: the tests in source order, on the exact average. Every number
      passes one of them (Medium is closed at both ends, MidHigh and High are
      open below), so the fallback `return ""` is unreachable. */
  function ClassifyE4(avg10: Option<real>): (c: Option<Bucket>)
    ensures c.None? <==> avg10.None?
  {
    match avg10
    case None => None
    case Some(a) =>
      if a < 14.0 then Some(ExtremeLow)
      else if a > 23.0 then Some(ExtremeHigh)
      else if 14.0 <= a < 16.0 then Some(Low)
      else if 21.0 < a <= 23.0 then Some(High)
      else if 17.0 <= a <= 20.0 then Some(Medium)
      else if 16.0 <= a < 17.0 then Some(MidLow)
      else if 20.0 < a <= 21.0 then Some(MidHigh)
      else assert false; None
  }

  /** The E3 classes as bands of the sum, lowest first: the source tests them out
      of order, but the bands do not overlap, so each sum has exactly one class. */
  lemma ClassifyE3Bands(s: int)
    ensures ClassifyE3(Some(s)) == Some(ExtremeLow) <==> s <= 4
    ensures ClassifyE3(Some(s)) == Some(Low) <==> 5 <= s <= 6
    ensures ClassifyE3(Some(s)) == Some(MidLow) <==> 7 <= s <= 8
    ensures ClassifyE3(Some(s)) == Some(Medium) <==> 9 <= s <= 11
    ensures ClassifyE3(Some(s)) == Some(MidHigh) <==> 12 <= s <= 13
    ensures ClassifyE3(Some(s)) == Some(High) <==> 14 <= s <= 15
    ensures ClassifyE3(Some(s)) == Some(ExtremeHigh) <==> s >= 16
  {
  }

  /** The E4 classes as bands of the average, lowest first. Medium is closed at
      both ends; MidHigh and High are closed above and open below. */
  lemma ClassifyE4Bands(a: real)
    ensures ClassifyE4(Some(a)) == Some(ExtremeLow) <==> a < 14.0
    ensures ClassifyE4(Some(a)) == Some(Low) <==> 14.0 <= a < 16.0
    ensures ClassifyE4(Some(a)) == Some(MidLow) <==> 16.0 <= a < 17.0
    ensures ClassifyE4(Some(a)) == Some(Medium) <==> 17.0 <= a <= 20.0
    ensures ClassifyE4(Some(a)) == Some(MidHigh) <==> 20.0 < a <= 21.0
    ensures ClassifyE4(Some(a)) == Some(High) <==> 21.0 < a <= 23.0
    ensures ClassifyE4(Some(a)) == Some(ExtremeHigh) <==> a > 23.0
  {
  }

  /** The E3 ladder is monotone: a larger sum never gets a lower class. */
  lemma ClassifyE3Monotone(s: int, t: int)
    requires s <= t
    ensures Rank(ClassifyE3(Some(s)).value) <= Rank(ClassifyE3(Some(t)).value)
  {
  }

  /** The E4 ladder is monotone: a larger average never gets a lower class. */
  lemma ClassifyE4Monotone(a: real, b: real)
    requires a <= b
    ensures Rank(ClassifyE4(Some(a)).value) <= Rank(ClassifyE4(Some(b)).value)
  {
  }

  /** The E4 ladder read on the integer sum of ten spins: every threshold on the
      average is the same threshold, times ten, on the sum. */
  function ClassifyTenSum(sum: int): (b: Bucket)
  {
    if sum < 140 then ExtremeLow
    else if sum > 230 then ExtremeHigh
    else if sum < 160 then Low
    else if sum > 210 then High
    else if 170 <= sum <= 200 then Medium
    else if sum < 170 then MidLow
    else MidHigh
  }

  /** Dividing the sum of ten spins by ten and classifying the quotient gives the
      class of the integer ladder: no rounding can move a spin history across a
      boundary. */
  lemma ClassifyE4OfTenSum(sum: int)
    ensures ClassifyE4(Some(sum as real / 10.0)) == Some(ClassifyTenSum(sum))
  {
  }
}
