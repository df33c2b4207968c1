/** The ordered rule table of script.js (`getSuggestion`). */
module SuggestionEngine {
  import opened Wrappers
  import opened Buckets

  /** The twelve distinct texts `getSuggestion` can return besides `""`. */
  datatype Advice =
    | VeryStrongLow | VeryStrongHigh | StrongLow | StrongHigh | Balanced
    | LeanHighNearAvg | LeanNearHigh | LeanLowNearAvg | LeanNearLow
    | ConflictHighLow | ConflictLowHigh | Breakdown

  /** The text shown for each piece of advice, as the source spells it; none
      is blank, so a blank suggestion element means no advice at all. */
  function Text(adv: Advice): string
  {
    match adv
    case VeryStrongLow => "VERY Strong Suggest: Bet Dozen 3 (Extreme Low Indicators)"
    case VeryStrongHigh => "VERY Strong Suggest: Bet Dozen 1 (Extreme High Indicators)"
    case StrongLow => "Strong Suggest: Bet Dozen 3 or 2 (Far Below Balance)"
    case StrongHigh => "Strong Suggest: Bet Dozen 1 or 2 (Far Above Balance)"
    case Balanced => "Suggest: Bet Dozen 2 (Very Near Balance)"
    case LeanHighNearAvg => "Leaning Suggest: Bet Dozen 2 or 1 (E1 High/Avg, E2 Near Avg)"
    case LeanNearHigh => "Leaning Suggest: Bet Dozen 2 or 3 (E1 Near/High, E2 High/Avg)"
    case LeanLowNearAvg => "Leaning Suggest: Bet Dozen 2 or 3 (E1 Low/Avg, E2 Near Avg)"
    case LeanNearLow => "Leaning Suggest: Bet Dozen 2 or 1 (E1 Near/High, E2 Low/Avg)"
    case ConflictHighLow => "Conflicting High E / Low E - Unclear"
    case ConflictLowHigh => "Conflicting Low E / High E - Unclear"
    case Breakdown => "Pattern Breakdown: Indicators Muddled - Opposition Possible"
  }

  /** `getSuggestion` on the two classes: no advice unless both classes exist,
      then the first test that holds, in source order, and the breakdown advice
      when none does. */
  function Suggest(e3: Option<Bucket>, e4: Option<Bucket>): (s: Option<Advice>)
    ensures s.None? <==> e3.None? || e4.None?
  {
    if e3.None? || e4.None? then None
    else
      var a, b := e3.value, e4.value;
      Some(
        if a == ExtremeLow && b == ExtremeLow then VeryStrongLow
        else if a == ExtremeHigh && b == ExtremeHigh then VeryStrongHigh
        else if (a == Low || a == MidLow) && (b == Low || b == MidLow) then StrongLow
        else if (a == High || a == MidHigh) && (b == High || b == MidHigh) then StrongHigh
        else if a == Medium && b == Medium then Balanced
        else if (a == High || a == MidHigh) && (b == MidLow || b == Medium) then LeanHighNearAvg
        else if (a == Medium || a == MidHigh) && (b == High || b == High) then LeanNearHigh
        else if (a == Medium || a == MidHigh) && b == MidHigh then LeanNearHigh
        else if (a == Low || a == MidLow) && (b == MidLow || b == Medium) then LeanLowNearAvg
        else if (a == Medium || a == MidHigh) && (b == Low || b == MidLow) then LeanNearLow
        else if (a == High || a == MidHigh) && (b == Low || b == MidLow) then ConflictHighLow
        else if (a == Low || a == MidLow) && (b == High || b == High) then ConflictLowHigh
        else if (a == Low || a == MidLow) && b == MidHigh then ConflictLowHigh
        else Breakdown)
  }

  /** The string `getSuggestion` returns: `""` when a class is missing, else the
      text of the advice. */
  function SuggestionText(e3: Option<Bucket>, e4: Option<Bucket>): (t: string)
    ensures t == "" <==> e3.None? || e4.None?
    ensures t == "" <==> Suggest(e3, e4).None?
  {
    var advice := Suggest(e3, e4);
    if advice.None? then ""
    else
      TextDeterminesAdvice(advice.value);
      assert AdviceOfText(Text(advice.value)) != AdviceOfText("");
      Text(advice.value)
  }

  /** Reading a shown suggestion back: its length, and for texts of equal
      length one character where they differ, tell which advice it is. */
  function AdviceOfText(t: string): Option<Advice> {
    if |t| == 57 then Some(VeryStrongLow)
    else if |t| == 58 then Some(VeryStrongHigh)
    else if |t| == 52 then Some(if t[26] == '3' then StrongLow else StrongHigh)
    else if |t| == 40 then Some(Balanced)
    else if |t| == 60 then Some(if t[39] == 'i' then LeanHighNearAvg else LeanNearLow)
    else if |t| == 61 then Some(LeanNearHigh)
    else if |t| == 59 then Some(if t[58] == ')' then LeanLowNearAvg else Breakdown)
    else if |t| == 36 then Some(if t[12] == 'H' then ConflictHighLow else ConflictLowHigh)
    else None
  }

  /** The strong calls read back as themselves. */
  lemma StrongTextsReadBack(a: Advice)
    requires a.VeryStrongLow? || a.VeryStrongHigh? || a.StrongLow? || a.StrongHigh?
    ensures AdviceOfText(Text(a)) == Some(a)
  {
  }

  /** The leaning calls read back as themselves. */
  lemma LeaningTextsReadBack(a: Advice)
    requires a.LeanHighNearAvg? || a.LeanNearHigh? || a.LeanLowNearAvg? || a.LeanNearLow?
    ensures AdviceOfText(Text(a)) == Some(a)
  {
  }

  /** The balanced, conflicting and breakdown texts read back as themselves. */
  lemma OtherTextsReadBack(a: Advice)
    requires a.Balanced? || a.ConflictHighLow? || a.ConflictLowHigh? || a.Breakdown?
    ensures AdviceOfText(Text(a)) == Some(a)
  {
  }

  /** Every advice text reads back as that advice. */
  lemma TextDeterminesAdvice(a: Advice)
    ensures AdviceOfText(Text(a)) == Some(a)
  {
    if a.VeryStrongLow? || a.VeryStrongHigh? || a.StrongLow? || a.StrongHigh? {
      StrongTextsReadBack(a);
    } else if a.LeanHighNearAvg? || a.LeanNearHigh? || a.LeanLowNearAvg? || a.LeanNearLow? {
      LeaningTextsReadBack(a);
    } else {
      OtherTextsReadBack(a);
    }
  }

  /** Different advice is shown as different text. */
  lemma TextsAreDistinct(a: Advice, b: Advice)
    ensures Text(a) == Text(b) ==> a == b
  {
    TextDeterminesAdvice(a);
    TextDeterminesAdvice(b);
  }

  /** The string `getSuggestion` returns carries exactly the advice: reading it
      back gives `Suggest`, blank included. */
  lemma SuggestionTextCarriesTheAdvice(e3: Option<Bucket>, e4: Option<Bucket>)
    ensures AdviceOfText(SuggestionText(e3, e4)) == Suggest(e3, e4)
  {
    if Suggest(e3, e4).Some? {
      TextDeterminesAdvice(Suggest(e3, e4).value);
    }
  }

  /** One row of the rule table: the E3 classes and E4 classes it accepts, and its advice. */
  datatype Rule = Rule(e3s: set<Bucket>, e4s: set<Bucket>, advice: Advice)

  predicate Matches(r: Rule, a: Bucket, b: Bucket) {
    a in r.e3s && b in r.e4s
  }

  /** Number of rows in the table. */
  const RuleCount := 13

  /** The thirteen tests of `getSuggestion` as data: row `k` in source order. */
  function RuleAt(k: nat): Rule
    requires k < RuleCount
  {
    if k == 0 then Rule({ExtremeLow}, {ExtremeLow}, VeryStrongLow)
    else if k == 1 then Rule({ExtremeHigh}, {ExtremeHigh}, VeryStrongHigh)
    else if k == 2 then Rule({Low, MidLow}, {Low, MidLow}, StrongLow)
    else if k == 3 then Rule({High, MidHigh}, {High, MidHigh}, StrongHigh)
    else if k == 4 then Rule({Medium}, {Medium}, Balanced)
    else if k == 5 then Rule({High, MidHigh}, {MidLow, Medium}, LeanHighNearAvg)
    else if k == 6 then Rule({Medium, MidHigh}, {High}, LeanNearHigh)
    else if k == 7 then Rule({Medium, MidHigh}, {MidHigh}, LeanNearHigh)
    else if k == 8 then Rule({Low, MidLow}, {MidLow, Medium}, LeanLowNearAvg)
    else if k == 9 then Rule({Medium, MidHigh}, {Low, MidLow}, LeanNearLow)
    else if k == 10 then Rule({High, MidHigh}, {Low, MidLow}, ConflictHighLow)
    else if k == 11 then Rule({Low, MidLow}, {High}, ConflictLowHigh)
    else Rule({Low, MidLow}, {MidHigh}, ConflictLowHigh)
  }

  /** First-match-wins evaluation of the rows from `from` on, with the breakdown
      advice as default. */
  function FirstMatch(from: nat, a: Bucket, b: Bucket): Advice
    requires from <= RuleCount
    decreases RuleCount - from
  {
    if from == RuleCount then Breakdown
    else if Matches(RuleAt(from), a, b) then RuleAt(from).advice
    else FirstMatch(from + 1, a, b)
  }

  /** When no row from `from` on accepts the pair, `FirstMatch` gives the
      breakdown advice. */
  lemma {:induction false} NoRowAcceptsGivesBreakdown(from: nat, a: Bucket, b: Bucket)
    requires from <= RuleCount
    requires forall i | from <= i < RuleCount :: !Matches(RuleAt(i), a, b)
    ensures FirstMatch(from, a, b) == Breakdown
    decreases RuleCount - from
  {
    if from < RuleCount {
      NoRowAcceptsGivesBreakdown(from + 1, a, b);
    }
  }

  /** When row `i` is the first row from `from` on that accepts the pair,
      `FirstMatch` gives the advice of row `i`. */
  lemma {:induction false} FirstAcceptingRowWins(from: nat, i: nat, a: Bucket, b: Bucket)
    requires from <= i < RuleCount
    requires Matches(RuleAt(i), a, b)
    requires forall j | from <= j < i :: !Matches(RuleAt(j), a, b)
    ensures FirstMatch(from, a, b) == RuleAt(i).advice
    decreases i - from
  {
    if from < i {
      FirstAcceptingRowWins(from + 1, i, a, b);
    }
  }

  /** Rows 0 to 4 of the table, each test spelled out as in the if-chain. */
  lemma RowsZeroToFour(a: Bucket, b: Bucket)
    ensures FirstMatch(4, a, b) == if a == Medium && b == Medium then Balanced else FirstMatch(5, a, b)
    ensures FirstMatch(3, a, b) == if (a == High || a == MidHigh) && (b == High || b == MidHigh) then StrongHigh else FirstMatch(4, a, b)
    ensures FirstMatch(2, a, b) == if (a == Low || a == MidLow) && (b == Low || b == MidLow) then StrongLow else FirstMatch(3, a, b)
    ensures FirstMatch(1, a, b) == if a == ExtremeHigh && b == ExtremeHigh then VeryStrongHigh else FirstMatch(2, a, b)
    ensures FirstMatch(0, a, b) == if a == ExtremeLow && b == ExtremeLow then VeryStrongLow else FirstMatch(1, a, b)
  {
  }

  /** Rows 5 to 8 of the table, each test spelled out as in the if-chain. */
  lemma RowsFiveToEight(a: Bucket, b: Bucket)
    ensures FirstMatch(8, a, b) == if (a == Low || a == MidLow) && (b == MidLow || b == Medium) then LeanLowNearAvg else FirstMatch(9, a, b)
    ensures FirstMatch(7, a, b) == if (a == Medium || a == MidHigh) && b == MidHigh then LeanNearHigh else FirstMatch(8, a, b)
    ensures FirstMatch(6, a, b) == if (a == Medium || a == MidHigh) && b == High then LeanNearHigh else FirstMatch(7, a, b)
    ensures FirstMatch(5, a, b) == if (a == High || a == MidHigh) && (b == MidLow || b == Medium) then LeanHighNearAvg else FirstMatch(6, a, b)
  {
  }

  /** Rows 9 to 12 of the table, each test spelled out as in the if-chain. */
  lemma RowsNineToTwelve(a: Bucket, b: Bucket)
    ensures FirstMatch(12, a, b) == if (a == Low || a == MidLow) && b == MidHigh then ConflictLowHigh else FirstMatch(13, a, b)
    ensures FirstMatch(11, a, b) == if (a == Low || a == MidLow) && b == High then ConflictLowHigh else FirstMatch(12, a, b)
    ensures FirstMatch(10, a, b) == if (a == High || a == MidHigh) && (b == Low || b == MidLow) then ConflictHighLow else FirstMatch(11, a, b)
    ensures FirstMatch(9, a, b) == if (a == Medium || a == MidHigh) && (b == Low || b == MidLow) then LeanNearLow else FirstMatch(10, a, b)
  {
  }

  /** The if-chain and the ordered table agree on every pair of classes. */
  lemma SuggestIsFirstMatch(a: Bucket, b: Bucket)
    ensures Suggest(Some(a), Some(b)) == Some(FirstMatch(0, a, b))
  {
    RowsZeroToFour(a, b);
    RowsFiveToEight(a, b);
    RowsNineToTwelve(a, b);
  }

  /** The order of the tests decides overlapping pairs: MidHigh/MidHigh is also
      accepted by row 7 but row 3 comes first; MidHigh/Low is also accepted by the
      conflict row 10 but row 9 comes first; ExtremeLow/Medium is accepted by no
      row and falls through to the breakdown advice. */
  lemma EarlierRowsWin()
    ensures Matches(RuleAt(7), MidHigh, MidHigh) && Suggest(Some(MidHigh), Some(MidHigh)) == Some(StrongHigh)
    ensures Matches(RuleAt(10), MidHigh, Low) && Suggest(Some(MidHigh), Some(Low)) == Some(LeanNearLow)
    ensures Suggest(Some(Medium), Some(Medium)) == Some(Balanced)
    ensures (forall i | 0 <= i < RuleCount :: !Matches(RuleAt(i), ExtremeLow, Medium))
         && Suggest(Some(ExtremeLow), Some(Medium)) == Some(Breakdown)
  {
  }
}
