/** The spin history of script.js: validation of the typed input, the
    adjacent-duplicate guard, the append to `spinHistory`, its reset by the
    clear button, and what `updateAnalysisDisplay` then shows. */
module HistoryManager {
  import opened Wrappers
  import opened Pockets
  import opened WheelTopology
  import opened Analysis

  /** The trimmed text of the input box, as far as validation looks at it: blank,
      exactly "00", text `parseFloat` reads as a finite number, or text it reads
      as NaN. */
  datatype RawInput = Blank | DoubleZeroToken | Numeric(value: real) | NotANumber

  /** The verdict of validation: nothing typed, rejected, or an accepted spin. */
  datatype Parsed = Empty | Invalid | Spin(spin: Pocket)

  /** `Number.isInteger` on a finite number. */
  predicate IsInteger(x: real) {
    x.Floor as real == x
  }

  /** Validation in `updateAnalysisDisplay`: "00" stays the string "00"; any
      other text must be an integer from 0 to 36, which becomes that number. */
  function Parse(input: RawInput): (r: Parsed)
    ensures r.Empty? <==> input.Blank?
    ensures r.Spin? <==> input.DoubleZeroToken?
                         || (input.Numeric? && IsInteger(input.value) && 0.0 <= input.value <= 36.0)
    ensures r.Spin? ==> IsPocket(r.spin)
    ensures r.Spin? && input.Numeric? ==> r.spin.Num? && r.spin.n as real == input.value
    ensures r == Spin(DoubleZero) <==> input.DoubleZeroToken?
  {
    match input
    case Blank => Empty
    case DoubleZeroToken => Spin(DoubleZero)
    case NotANumber => Invalid
    case Numeric(num) =>
      if !IsInteger(num) || num < 0.0 || num > 36.0 then Invalid else Spin(Num(num.Floor))
  }

  /** The guard against rapid repeated clicks: an accepted spin strictly equal
      to the last entry is dropped, any other one becomes the new last entry. */
  function Admit(h: seq<Pocket>, p: Pocket): (r: seq<Pocket>)
    ensures |h| <= |r| <= |h| + 1 && 0 < |r| && r[..|h|] == h
    ensures r[|r| - 1] == p
    ensures |r| == |h| <==> |h| > 0 && h[|h| - 1] == p
  {
    var lastHistoryEntry := if |h| > 0 then Some(h[|h| - 1]) else None;
    var isInputSameAsLastValid := lastHistoryEntry.Some? && p == lastHistoryEntry.value;
    if |h| == 0 || !isInputSameAsLastValid then h + [p] else h
  }

  /** No two neighbouring entries of the history are equal. */
  predicate NoAdjacentRepeats(h: seq<Pocket>) {
    forall i | 0 < i < |h| :: h[i - 1] != h[i]
  }

  /** What the history can hold: validated pockets, no two in a row the same. */
  predicate WellFormed(h: seq<Pocket>) {
    NoAdjacentRepeats(h) && forall i | 0 <= i < |h| :: IsPocket(h[i])
  }

  /** Admitting a spin never puts two equal entries side by side. */
  lemma AdmitKeepsNoAdjacentRepeats(h: seq<Pocket>, p: Pocket)
    requires NoAdjacentRepeats(h)
    ensures NoAdjacentRepeats(Admit(h, p))
  {
    var r := Admit(h, p);
    forall i | 0 < i < |r| ensures r[i - 1] != r[i] {
      if i < |h| {
        assert r[i - 1] == r[..|h|][i - 1] && r[i] == r[..|h|][i];
      } else {
        assert |r| == |h| + 1 && r[i - 1] == h[|h| - 1];
      }
    }
  }

  /** Submitting the same spin twice in a row adds it once. */
  lemma AdmitIsIdempotent(h: seq<Pocket>, p: Pocket)
    ensures Admit(Admit(h, p), p) == Admit(h, p)
  {
  }

  /** The history after one press of the button: an accepted spin goes through
      the duplicate guard, anything else leaves the history as it was. */
  function Submitted(h: seq<Pocket>, input: RawInput): seq<Pocket> {
    match Parse(input)
    case Spin(p) => Admit(h, p)
    case _ => h
  }

  /** Admitting a pocket keeps every entry a pocket. */
  lemma AdmitKeepsPockets(h: seq<Pocket>, p: Pocket)
    requires IsPocket(p) && forall i | 0 <= i < |h| :: IsPocket(h[i])
    ensures forall i | 0 <= i < |Admit(h, p)| :: IsPocket(Admit(h, p)[i])
  {
    var r := Admit(h, p);
    forall i | 0 <= i < |r| ensures IsPocket(r[i]) {
      if i < |h| { assert r[i] == r[..|h|][i]; }
    }
  }

  /** Every press of the button keeps the history well formed. */
  lemma SubmittedIsWellFormed(h: seq<Pocket>, input: RawInput)
    requires WellFormed(h)
    ensures WellFormed(Submitted(h, input))
  {
    var parsed := Parse(input);
    if parsed.Spin? {
      AdmitKeepsNoAdjacentRepeats(h, parsed.spin);
      AdmitKeepsPockets(h, parsed.spin);
      assert Submitted(h, input) == Admit(h, parsed.spin);
    }
  }

  /** Rejected and blank input leave the history unchanged; accepted input is
      the new last entry. */
  lemma SubmittedCases(h: seq<Pocket>, input: RawInput)
    ensures !Parse(input).Spin? ==> Submitted(h, input) == h
    ensures Parse(input).Spin? ==>
      |Submitted(h, input)| > 0 && Submitted(h, input)[|Submitted(h, input)| - 1] == Parse(input).spin
  {
  }

  /** 0 and "00" are different spins: typing one after the other keeps both. */
  lemma ZeroThenDoubleZeroKeepsBoth()
    ensures Submitted(Submitted([], Numeric(0.0)), DoubleZeroToken) == [Num(0), DoubleZero]
    ensures Submitted(Submitted([Num(0)], Numeric(0.0)), Numeric(0.0)) == [Num(0)]
  {
    assert Parse(Numeric(0.0)) == Spin(Num(0));
  }

  /** Out-of-range, fractional and unreadable input is rejected with the
      validation message and leaves the history as it was. */
  lemma RejectedInputs(h: seq<Pocket>)
    ensures forall input | input in {Numeric(37.0), Numeric(-1.0), Numeric(2.5), NotANumber} ::
      DisplayAfter(h, input) == InvalidInput && Submitted(h, input) == h
  {
    assert (2.5).Floor == 2;
  }

  /** What the output elements show after one press of the button. */
  function DisplayAfter(h: seq<Pocket>, input: RawInput): Display {
    match Parse(input)
    case Empty => Cleared
    case Invalid => InvalidInput
    case Spin(p) => Shown(SnapshotOf(Admit(h, p)))
  }

  /** After an accepted spin the display leads with that spin and always finds it
      on the wheel: the "Spin not found" text never appears. */
  lemma ShownSpinLeadsAndIsFound(h: seq<Pocket>, input: RawInput)
    requires Parse(input).Spin?
    ensures DisplayAfter(h, input).Shown?
    ensures DisplayAfter(h, input).snapshot.spins[0] == Parse(input).spin
    ensures DisplayAfter(h, input).snapshot.neighbours.Rings?
  {
    var r := Admit(h, Parse(input).spin);
    assert DisplayAfter(h, input) == Shown(SnapshotOf(r));
    assert SnapshotOf(r).spins == DisplayedSpins(r);
    PocketsAreAlwaysFound(r);
  }

  /** What the user can do on the page: press Add Spin with some input, or press
      Clear History. */
  datatype Action = AddSpin(input: RawInput) | ClearAll

  /** The history after a session of actions, starting from the empty page. */
  function Replay(actions: seq<Action>): seq<Pocket> {
    if actions == [] then []
    else
      match actions[|actions| - 1]
      case AddSpin(input) => Submitted(Replay(actions[..|actions| - 1]), input)
      case ClearAll => []
  }

  /** Whatever the user does, the history only ever holds validated pockets and
      never two equal spins in a row. */
  lemma {:induction false} ReplayIsWellFormed(actions: seq<Action>)
    ensures WellFormed(Replay(actions))
  {
    if actions != [] {
      ReplayIsWellFormed(actions[..|actions| - 1]);
      if actions[|actions| - 1].AddSpin? {
        SubmittedIsWellFormed(Replay(actions[..|actions| - 1]), actions[|actions| - 1].input);
      }
    }
  }

  /** The page's state: the global `spinHistory` array. */
  class SpinTracker {
    var spinHistory: seq<Pocket>

    ghost predicate Valid()
      reads this
    {
      WellFormed(spinHistory)
    }

    /** The page starts with an empty history. */
    constructor ()
      ensures Valid() && spinHistory == []
    {
      spinHistory := [];
    }

    /** Steps 2 and 3 of `updateAnalysisDisplay`: validate the input and append
        an accepted spin unless it repeats the last entry. */
    method Submit(input: RawInput) returns (parsedSpin: Parsed)
      requires Valid()
      modifies this
      ensures Valid()
      ensures parsedSpin == Parse(input)
      ensures spinHistory == Submitted(old(spinHistory), input)
    {
      SubmittedIsWellFormed(spinHistory, input);
      match input {
        case Blank =>
          return Empty;
        case NotANumber =>
          return Invalid;
        case DoubleZeroToken =>
          parsedSpin := Spin(DoubleZero);
        case Numeric(num) =>
          if !IsInteger(num) || num < 0.0 || num > 36.0 {
            return Invalid;
          }
          parsedSpin := Spin(Num(num.Floor));
      }
      var lastHistoryEntry := if |spinHistory| > 0 then Some(spinHistory[|spinHistory| - 1]) else None;
      var isInputSameAsLastValid := lastHistoryEntry.Some? && parsedSpin.spin == lastHistoryEntry.value;
      if |spinHistory| == 0 || !isInputSameAsLastValid {
        spinHistory := spinHistory + [parsedSpin.spin];
      }
    }

    /** One press of the Add Spin button: submit the input, then fill the output
        elements from the new history, or clear them for blank or rejected input. */
    method UpdateAnalysisDisplay(input: RawInput) returns (d: Display)
      requires Valid()
      modifies this
      ensures Valid()
      ensures spinHistory == Submitted(old(spinHistory), input)
      ensures d == DisplayAfter(old(spinHistory), input)
    {
      var parsedSpin := Submit(input);
      match parsedSpin {
        case Empty =>
          return Cleared;
        case Invalid =>
          return InvalidInput;
        case Spin(_) =>
          // The history holds at least the spin just accepted.
          var snapshot := Analyze(spinHistory);
          return Shown(snapshot);
      }
    }

    /** The Clear History button: empty the history and blank every output. */
    method ClearHistory() returns (d: Display)
      modifies this
      ensures Valid() && spinHistory == [] && d == Cleared
    {
      spinHistory := [];
      return Cleared;
    }
  }
}
