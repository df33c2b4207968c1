/** What `updateAnalysisDisplay` in script.js shows for a history once the
    latest spin has been accepted: the indicators, the suggestion, the wheel
    neighbours and the three last-ten lists, most recent first. */
module Analysis {
  import opened Wrappers
  import opened Pockets
  import opened Classifiers
  import opened Buckets
  import opened SuggestionEngine
  import opened RollingStatistics
  import opened WheelTopology

  /** The values written to the output elements after an accepted spin. */
  datatype Snapshot = Snapshot(
    lastQuadrant: Quadrant,
    lastHalf: Half,
    sum4: Option<int>,
    avg10: Option<real>,
    suggestion: Option<Advice>,
    neighbours: Neighbours,
    spins: seq<Pocket>,
    quadrants: seq<Quadrant>,
    halves: seq<Half>)

  /** The state of the output elements after a press of the button: all blank
      (blank input), blank with the validation message (rejected input), or
      filled in from the history. */
  datatype Display = Cleared | InvalidInput | Shown(snapshot: Snapshot)

  /** `slice().reverse()`: the same entries, last first. */
  function Reversed<T>(s: seq<T>): (r: seq<T>)
    ensures |r| == |s|
    ensures forall k | 0 <= k < |s| :: r[k] == s[|s| - 1 - k]
  {
    if s == [] then [] else [s[|s| - 1]] + Reversed(s[..|s| - 1])
  }

  /** `last10Spins.slice().reverse()`: up to ten spins, the latest first. */
  function DisplayedSpins(h: seq<Pocket>): (d: seq<Pocket>)
    ensures |d| == if |h| < 10 then |h| else 10
    ensures forall k | 0 <= k < |d| :: d[k] == h[|h| - 1 - k]
  {
    Reversed(Trailing(h, 10))
  }

  /** `last10Spins.map(getQuadrant)`, with the sentinels shown as they are. */
  function QuadrantsOf(w: seq<Pocket>): (q: seq<Quadrant>)
    ensures |q| == |w| && forall i | 0 <= i < |w| :: q[i] == QuadrantOf(w[i])
  {
    seq(|w|, i requires 0 <= i < |w| => QuadrantOf(w[i]))
  }

  /** `last10Spins.map(getHalf)`, with the sentinels shown as they are. */
  function HalvesOf(w: seq<Pocket>): (r: seq<Half>)
    ensures |r| == |w| && forall i | 0 <= i < |w| :: r[i] == HalfOf(w[i])
  {
    seq(|w|, i requires 0 <= i < |w| => HalfOf(w[i]))
  }

  /** `last10Quads.slice().reverse()`: the quadrants of the last ten spins,
      mapped first and reversed afterwards, as the source does. */
  function DisplayedQuadrants(h: seq<Pocket>): (q: seq<Quadrant>)
    ensures |q| == if |h| < 10 then |h| else 10
    ensures forall k | 0 <= k < |q| :: q[k] == QuadrantOf(h[|h| - 1 - k])
  {
    QuadrantsThenReverse(Trailing(h, 10));
    Reversed(QuadrantsOf(Trailing(h, 10)))
  }

  /** `last10Halves.slice().reverse()`, in the same way. */
  function DisplayedHalves(h: seq<Pocket>): (r: seq<Half>)
    ensures |r| == if |h| < 10 then |h| else 10
    ensures forall k | 0 <= k < |r| :: r[k] == HalfOf(h[|h| - 1 - k])
  {
    HalvesThenReverse(Trailing(h, 10));
    Reversed(HalvesOf(Trailing(h, 10)))
  }

  /** Mapping a window to quadrants then reversing it is reversing then mapping. */
  lemma QuadrantsThenReverse(w: seq<Pocket>)
    ensures |Reversed(QuadrantsOf(w))| == |Reversed(w)|
    ensures forall k | 0 <= k < |w| :: Reversed(QuadrantsOf(w))[k] == QuadrantOf(Reversed(w)[k])
  {
    var qs, ws := QuadrantsOf(w), Reversed(w);
    forall k | 0 <= k < |w| ensures Reversed(qs)[k] == QuadrantOf(ws[k]) {
      assert ws[k] == w[|w| - 1 - k];
      assert Reversed(qs)[k] == qs[|w| - 1 - k];
    }
  }

  /** Mapping a window to halves then reversing it is reversing then mapping. */
  lemma HalvesThenReverse(w: seq<Pocket>)
    ensures |Reversed(HalvesOf(w))| == |Reversed(w)|
    ensures forall k | 0 <= k < |w| :: Reversed(HalvesOf(w))[k] == HalfOf(Reversed(w)[k])
  {
    var hs, ws := HalvesOf(w), Reversed(w);
    forall k | 0 <= k < |w| ensures Reversed(hs)[k] == HalfOf(ws[k]) {
      assert ws[k] == w[|w| - 1 - k];
      assert Reversed(hs)[k] == hs[|w| - 1 - k];
    }
  }

  /** Mapping before reversing lines the lists up: the k-th quadrant and half
      shown are those of the k-th spin shown. */
  lemma DisplayedListsLineUp(h: seq<Pocket>)
    ensures |DisplayedQuadrants(h)| == |DisplayedSpins(h)| == |DisplayedHalves(h)|
    ensures forall k | 0 <= k < |DisplayedSpins(h)| ::
      DisplayedQuadrants(h)[k] == QuadrantOf(DisplayedSpins(h)[k])
      && DisplayedHalves(h)[k] == HalfOf(DisplayedSpins(h)[k])
  {
    QuadrantsThenReverse(Trailing(h, 10));
    HalvesThenReverse(Trailing(h, 10));
  }

  /** What the display shows for a non-empty history: every output is computed
      from the whole history, the last spin, or its last ten entries. */
  function SnapshotOf(h: seq<Pocket>): Snapshot
    requires |h| > 0
  {
    var last := h[|h| - 1];
    var sum4 := SumLast4(h);
    var avg10 := AvgLast10(h);
    Snapshot(
      QuadrantOf(last),
      HalfOf(last),
      sum4,
      avg10,
      Suggest(ClassifyE3(sum4), ClassifyE4(avg10)),
      NeighboursOf(WheelData, last),
      DisplayedSpins(h),
      DisplayedQuadrants(h),
      DisplayedHalves(h))
  }

  /** A suggestion is shown exactly when both windows are full of qualifying
      spins; otherwise the suggestion element is left blank. */
  lemma SuggestionNeedsBothWindows(h: seq<Pocket>)
    requires |h| > 0
    ensures SnapshotOf(h).suggestion.Some? <==> SumLast4(h).Some? && AvgLast10(h).Some?
  {
  }

  /** With fewer than ten spins there is no average, so no suggestion. */
  lemma NoSuggestionBeforeTenSpins(h: seq<Pocket>)
    requires 0 < |h| < 10
    ensures SnapshotOf(h).avg10 == None
    ensures SnapshotOf(h).suggestion == None
  {
    SuggestionNeedsBothWindows(h);
  }

  /** A last spin that is a pocket of the wheel is always found: the rings are
      shown, centred on the spin and on the pocket opposite it. */
  lemma PocketsAreAlwaysFound(h: seq<Pocket>)
    requires |h| > 0 && IsPocket(h[|h| - 1])
    ensures SnapshotOf(h).neighbours.Rings?
    ensures SnapshotOf(h).neighbours.self[Radius] == h[|h| - 1]
    ensures SnapshotOf(h).neighbours.opposite[Radius]
         == WheelData[Opposite(WheelSize, PositionOf(WheelData, h[|h| - 1]))]
  {
    EveryPocketIsOnTheWheel(h[|h| - 1]);
  }

  /** Ten distinct spins: the last four lie in quadrants 1, 2, 3, 4 and the ten
      average 18.5. */
  const SampleHistory: seq<Pocket> :=
    [Num(15), Num(25), Num(10), Num(28), Num(14), Num(26), Num(5), Num(12), Num(20), Num(30)]

  /** The last four quadrants of the sample add up to 10. */
  lemma SampleSum4()
    ensures SumLast4(SampleHistory) == Some(10)
  {
    var w := Trailing(SampleHistory, 4);
    assert w == [Num(5), Num(12), Num(20), Num(30)];
    assert w[..3] == [Num(5), Num(12), Num(20)];
    assert w[..3][..2] == [Num(5), Num(12)];
    assert w[..3][..2][..1] == [Num(5)];
    assert HasQuadrant(w[0]) && HasQuadrant(w[1]) && HasQuadrant(w[2]) && HasQuadrant(w[3]);
    assert QuadrantSum([Num(5)]) == 1;
    assert QuadrantSum([Num(5), Num(12)]) == 3;
    assert QuadrantSum([Num(5), Num(12), Num(20)]) == 6;
  }

  /** The running sums of the sample's first five spins. */
  lemma SampleFirstFive()
    ensures forall i | 0 <= i < 5 :: IsRawNumber(SampleHistory[i])
    ensures RawSum(SampleHistory[..5]) == 92
  {
    assert RawSum(SampleHistory[..1]) == 15;
    assert SampleHistory[..2][..1] == SampleHistory[..1];
    assert RawSum(SampleHistory[..2]) == 40;
    assert SampleHistory[..3][..2] == SampleHistory[..2];
    assert RawSum(SampleHistory[..3]) == 50;
    assert SampleHistory[..4][..3] == SampleHistory[..3];
    assert RawSum(SampleHistory[..4]) == 78;
    assert SampleHistory[..5][..4] == SampleHistory[..4];
    assert RawSum(SampleHistory[..5]) == 92;
  }

  /** The sample's ten numbers add up to 185, an average of 18.5. */
  lemma SampleAvg10()
    ensures AvgLast10(SampleHistory) == Some(18.5)
  {
    SampleFirstFive();
    assert forall i | 0 <= i < 10 :: IsRawNumber(SampleHistory[i]);
    assert SampleHistory[..6][..5] == SampleHistory[..5];
    assert RawSum(SampleHistory[..6]) == 118;
    assert SampleHistory[..7][..6] == SampleHistory[..6];
    assert RawSum(SampleHistory[..7]) == 123;
    assert SampleHistory[..8][..7] == SampleHistory[..7];
    assert RawSum(SampleHistory[..8]) == 135;
    assert SampleHistory[..9][..8] == SampleHistory[..8];
    assert RawSum(SampleHistory[..9]) == 155;
    assert SampleHistory[..9] == SampleHistory[..|SampleHistory| - 1];
    assert RawSum(SampleHistory) == 185;
    assert Trailing(SampleHistory, 10) == SampleHistory;
  }

  /** Both indicators of the sample are Medium, so the balanced call is shown. */
  lemma SampleIsBalanced()
    ensures Suggest(ClassifyE3(SumLast4(SampleHistory)), ClassifyE4(AvgLast10(SampleHistory))) == Some(Balanced)
  {
    SampleSum4();
    SampleAvg10();
  }

  /** The analysis steps of `updateAnalysisDisplay` for a non-empty history:
      the last spin's classes, the two loops, the ladders, the suggestion, the
      neighbour rings and the last-ten lists. */
  method Analyze(spinHistory: seq<Pocket>) returns (d: Snapshot)
    requires |spinHistory| > 0
    ensures d == SnapshotOf(spinHistory)
  {
    var lastSpinFromHistory := spinHistory[|spinHistory| - 1];
    var lastSpinQuad := QuadrantOf(lastSpinFromHistory);
    var lastSpinHalf := HalfOf(lastSpinFromHistory);
    var sum4 := CalculateSumLast4Quads(spinHistory);
    var avg10 := CalculateAvgLast10Raw(spinHistory);
    var e3Class := ClassifyE3(sum4);
    var e4Class := ClassifyE4(avg10);
    var suggestion := Suggest(e3Class, e4Class);
    var surrounding := SurroundingNumbers(WheelData, lastSpinFromHistory);
    d := Snapshot(lastSpinQuad, lastSpinHalf, sum4, avg10, suggestion, surrounding,
                  DisplayedSpins(spinHistory), DisplayedQuadrants(spinHistory),
                  DisplayedHalves(spinHistory));
  }
}
