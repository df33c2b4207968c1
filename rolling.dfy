/** The two all-or-nothing window aggregates of script.js
    (`calculateSumLast4Quads`, `calculateAvgLast10Raw`). */
module RollingStatistics {
  import opened Wrappers
  import opened Pockets
  import opened Classifiers

  /** `history.slice(-n)` for a positive `n`: the last `n` entries, or all of
      them when there are fewer. (`slice(-0)` would return the whole array.) */
  function Trailing(h: seq<Pocket>, n: nat): (w: seq<Pocket>)
    requires n > 0
    ensures |w| == if |h| < n then |h| else n
    ensures w == h[|h| - |w|..]
  {
    if |h| <= n then h else h[|h| - n..]
  }

  /** A spin that counts towards the quadrant sum: one with a quadrant 1..4. */
  predicate HasQuadrant(p: Pocket) {
    QuadrantOf(p).Quad?
  }

  /** A spin that counts towards the raw average: a number 1..36. */
  predicate IsRawNumber(p: Pocket) {
    p.Num? && 1 <= p.n <= 36
  }

  /** Sum of the quadrants of a window, left to right. */
  function QuadrantSum(w: seq<Pocket>): int
    requires forall i | 0 <= i < |w| :: HasQuadrant(w[i])
  {
    if w == [] then 0
    else
      assert HasQuadrant(w[|w| - 1]);
      QuadrantSum(w[..|w| - 1]) + QuadrantOf(w[|w| - 1]).index
  }

  /** Sum of the numbers of a window, left to right. */
  function RawSum(w: seq<Pocket>): int
    requires forall i | 0 <= i < |w| :: IsRawNumber(w[i])
  {
    if w == [] then 0
    else
      assert IsRawNumber(w[|w| - 1]);
      RawSum(w[..|w| - 1]) + w[|w| - 1].n
  }

  /** Every quadrant is 1..4, so a window's quadrant sum lies between its length
      and four times its length. */
  lemma {:induction false} QuadrantSumBounds(w: seq<Pocket>)
    requires forall i | 0 <= i < |w| :: HasQuadrant(w[i])
    ensures |w| <= QuadrantSum(w) <= 4 * |w|
  {
    if w != [] {
      QuadrantSumBounds(w[..|w| - 1]);
    }
  }

  /** Every number is 1..36, so a window's sum lies between its length and 36
      times its length. */
  lemma {:induction false} RawSumBounds(w: seq<Pocket>)
    requires forall i | 0 <= i < |w| :: IsRawNumber(w[i])
    ensures |w| <= RawSum(w) <= 36 * |w|
  {
    if w != [] {
      RawSumBounds(w[..|w| - 1]);
    }
  }

  /** What `calculateSumLast4Quads` returns: the sum of the quadrants of the last
      four spins, or `null` when there are fewer than four spins or any of the
      last four (0, "00", out of range) has no quadrant. */
  function SumLast4(h: seq<Pocket>): (r: Option<int>)
    ensures r.Some? <==> |h| >= 4 && forall i | |h| - 4 <= i < |h| :: HasQuadrant(h[i])
    ensures r.Some? ==> 4 <= r.value <= 16
  {
    var w := Trailing(h, 4);
    if |w| < 4 || exists i | 0 <= i < |w| :: !HasQuadrant(w[i]) then None
    else
      QuadrantSumBounds(w);
      Some(QuadrantSum(w))
  }

  /** What `calculateAvgLast10Raw` returns: the exact mean of the last ten spins,
      or `null` when there are fewer than ten spins or any of the last ten is 0,
      "00" or outside 1..36. */
  function AvgLast10(h: seq<Pocket>): (r: Option<real>)
    ensures r.Some? <==> |h| >= 10 && forall i | |h| - 10 <= i < |h| :: IsRawNumber(h[i])
    ensures r.Some? ==> 1.0 <= r.value <= 36.0
  {
    var w := Trailing(h, 10);
    if |w| < 10 || exists i | 0 <= i < |w| :: !IsRawNumber(w[i]) then None
    else
      RawSumBounds(w);
      Some(RawSum(w) as real / 10.0)
  }

  /** `calculateSumLast4Quads`: walk the last four spins, adding quadrants and
      giving up at the first spin without one. */
  method CalculateSumLast4Quads(history: seq<Pocket>) returns (r: Option<int>)
    ensures r == SumLast4(history)
  {
    var last4 := Trailing(history, 4);
    if |last4| < 4 {
      return None;
    }
    var sum := 0;
    var count := 0;
    for i := 0 to |last4|
      invariant forall j | 0 <= j < i :: HasQuadrant(last4[j])
      invariant sum == QuadrantSum(last4[..i])
      invariant count == i
    {
      var quad := QuadrantOf(last4[i]);
      if quad.Quad? && 1 <= quad.index <= 4 {
        assert last4[..i + 1][..i] == last4[..i];
        sum := sum + quad.index;
        count := count + 1;
      } else {
        return None;
      }
    }
    assert last4[..|last4|] == last4;
    return Some(sum);
  }

  /** `calculateAvgLast10Raw`: walk the last ten spins, adding numbers 1..36 and
      giving up at the first other spin; the mean is taken when ten were added. */
  method CalculateAvgLast10Raw(history: seq<Pocket>) returns (r: Option<real>)
    ensures r == AvgLast10(history)
  {
    var last10 := Trailing(history, 10);
    if |last10| < 10 {
      return None;
    }
    var sum := 0;
    var count := 0;
    for i := 0 to |last10|
      invariant forall j | 0 <= j < i :: IsRawNumber(last10[j])
      invariant sum == RawSum(last10[..i])
      invariant count == i
    {
      var spin := last10[i];
      if spin.Num? && 1 <= spin.n <= 36 {
        assert last10[..i + 1][..i] == last10[..i];
        sum := sum + spin.n;
        count := count + 1;
      } else {
        return None;
      }
    }
    assert last10[..|last10|] == last10;
    return if count == 10 then Some(sum as real / 10.0) else None;
  }

  /** The sum of four quadrants depends on the last four spins only: older
      history never changes it. */
  lemma SumLast4IgnoresOlderSpins(older: seq<Pocket>, h: seq<Pocket>)
    requires |h| >= 4
    ensures SumLast4(older + h) == SumLast4(h)
  {
    assert Trailing(older + h, 4) == Trailing(h, 4);
  }

  /** The average of ten depends on the last ten spins only. */
  lemma AvgLast10IgnoresOlderSpins(older: seq<Pocket>, h: seq<Pocket>)
    requires |h| >= 10
    ensures AvgLast10(older + h) == AvgLast10(h)
  {
    assert Trailing(older + h, 10) == Trailing(h, 10);
  }

  /** Both windows disqualify the same spins: a spin has a quadrant exactly when
      it is a number 1..36, so 0 and "00" void either window. */
  lemma WindowsAgreeOnQualifyingSpins(p: Pocket)
    ensures HasQuadrant(p) <==> IsRawNumber(p)
    ensures !HasQuadrant(Num(0)) && !HasQuadrant(DoubleZero)
  {
  }
}
