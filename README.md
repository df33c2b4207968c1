# Roulette spin analysis, modelled in Dafny

This project models the analysis engine of `script.js`, a browser page that
tracks the spins of an American roulette wheel (pockets 0, 00 and 1..36).
Every press of *Add Spin* does the following:

- It validates the typed spin and appends it to the global `spinHistory`,
  unless it repeats the last entry.
- It shows the last spin's quadrant (9-number block 1..4) and half (1-18 /
  19-36).
- It shows the sum of the quadrants of the last four spins (E3) and the
  average of the last ten spins (E4).
- It classifies E3 and E4 on two seven-step ladders and picks a betting
  suggestion from an ordered, first-match-wins rule table.
- It shows the eleven pockets around the spin on the physical wheel and the
  eleven around the pocket opposite it.
- It lists the last ten spins, their quadrants and their halves, most recent
  first.

*Clear History* empties the history.

Modules, one per component of the script:

| file | module | models |
|---|---|---|
| `wrappers.dfy` | `Wrappers` | `Option`, standing for the script's `null` and `""` results |
| `pockets.dfy` | `Pockets` | a spin: `Num(n)` or `DoubleZero`, so that 0 and `"00"` stay distinct as under `===` |
| `classifiers.dfy` | `Classifiers` | `getQuadrant`, `getHalf` |
| `rolling.dfy` | `RollingStatistics` | `calculateSumLast4Quads`, `calculateAvgLast10Raw` (loops proved against functions) |
| `buckets.dfy` | `Buckets` | `classifyE3`, `classifyE4` |
| `suggestion.dfy` | `SuggestionEngine` | `getSuggestion` and its rule table |
| `wheel.dfy` | `WheelTopology` | `wheelData` and the search and ring loops of `getSurroundingNumbersString` |
| `analysis.dfy` | `Analysis` | the calculations and last-ten lists of `updateAnalysisDisplay` |
| `history.dfy` | `HistoryManager` | validation, the duplicate guard, `spinHistory` as a class field, the clear button |

Modelling choices:

- **Numbers.** The script's numbers are exact here: sums are `int` and the
  average is a `real`. Sums of ten integers divided by ten compare with the
  integer thresholds of `classifyE4` exactly, and `ClassifyE4OfTenSum` shows
  that the ladder can be read on the integer sum.
- **Suggestion texts.** They are an `Advice` enumeration. `Text` renders
  each value as the script's exact string, and the blank suggestion is
  `None`. `SuggestionTextCarriesTheAdvice` shows that the string
  `getSuggestion` returns and the `Option<Advice>` determine each other.
- **Wheel functions.** The neighbour functions take the wheel as a parameter
  and require at least five pockets. With that, `center + offset + size` is
  never negative, so Dafny's `%` agrees with JavaScript's. The page always
  passes the 38-pocket `WheelData`.

## Model

| member | source | states |
|---|---|---|
| `Classifiers.QuadrantOf` | script.js:36-52 | a quadrant 1..4 exactly for the integers 1..36; the 0 sentinel exactly for 0 and the `"00"` sentinel exactly for `"00"`; so the final fallback is unreachable |
| `Classifiers.HalfOf` | script.js:55-69 | `"1-18"` exactly for 1..18, `"19-36"` exactly for 19..36, the 0 and `"00"` sentinels exactly for 0 and `"00"` |
| `Classifiers.QuadrantIsBlockOfNine` | script.js:46-49 | the quadrant of n in 1..36 is the block of nine it falls in, `(n - 1) / 9 + 1` |
| `Classifiers.HalfAgreesWithQuadrant` | script.js:46-66 | the low half is quadrants 1 and 2, the high half quadrants 3 and 4 |
| `Classifiers.ZeroIsNotDoubleZero` | script.js:38-39 | 0 and `"00"` get different quadrant and half results |
| `RollingStatistics.Trailing` | script.js:74 | for n >= 1 (the script uses 4 and 10), `slice(-n)` keeps the last min(n, length) entries, in order |
| `RollingStatistics.QuadrantSumBounds` | script.js:80-92 | a sum of quadrants lies between the window length and four times it |
| `RollingStatistics.RawSumBounds` | script.js:103-117 | a sum of numbers 1..36 lies between the window length and 36 times it |
| `RollingStatistics.SumLast4` | script.js:73-93 | a sum exists iff there are at least four spins and each of the last four has a quadrant (not 0, not `"00"`); it then lies in 4..16 |
| `RollingStatistics.AvgLast10` | script.js:96-118 | an average exists iff there are at least ten spins and each of the last ten is a number 1..36; it then lies in 1..36 |
| `RollingStatistics.CalculateSumLast4Quads` | script.js:73-93 | the accumulator loop with its early `return null` computes `SumLast4` |
| `RollingStatistics.CalculateAvgLast10Raw` | script.js:96-118 | the accumulator loop with its early `return null` and the final `count === 10` test computes `AvgLast10` |
| `RollingStatistics.SumLast4IgnoresOlderSpins` | script.js:74 | spins older than the last four never change the sum |
| `RollingStatistics.AvgLast10IgnoresOlderSpins` | script.js:97 | spins older than the last ten never change the average |
| `RollingStatistics.WindowsAgreeOnQualifyingSpins` | script.js:83-107 | a spin counts towards the sum iff it counts towards the average; 0 and `"00"` count towards neither |
| `Buckets.ClassifyE3` | script.js:122-135 | the class is `""` exactly when the sum is `null`, so the fallback `""` is unreachable for any integer |
| `Buckets.ClassifyE4` | script.js:138-152 | the class is `""` exactly when the average is `null`, so the fallback `""` is unreachable for any number |
| `Buckets.ClassifyE3Bands` | script.js:126-132 | the seven E3 classes are the bands <=4, 5-6, 7-8, 9-11, 12-13, 14-15, >=16, each in both directions |
| `Buckets.ClassifyE4Bands` | script.js:143-149 | the seven E4 classes are the bands <14, [14,16), [16,17), [17,20], (20,21], (21,23], >23, each in both directions |
| `Buckets.ClassifyE3Monotone` | script.js:126-132 | a larger sum never gets a lower E3 class |
| `Buckets.ClassifyE4Monotone` | script.js:143-149 | a larger average never gets a lower E4 class |
| `Buckets.ClassifyE4OfTenSum` | script.js:117-149 | classifying sum/10 equals classifying the integer sum on thresholds times ten |
| `SuggestionEngine.Suggest` | script.js:156-161 | the suggestion is blank exactly when either class is blank |
| `SuggestionEngine.SuggestionText` | script.js:156-187 | the returned string is `""` exactly when either class is blank, which is exactly when `Suggest` gives no advice |
| `SuggestionEngine.TextDeterminesAdvice` | script.js:165-187 | each of the twelve returned texts reads back as the advice it stands for |
| `SuggestionEngine.TextsAreDistinct` | script.js:165-187 | no two pieces of advice share a text |
| `SuggestionEngine.SuggestionTextCarriesTheAdvice` | script.js:156-187 | reading the returned string back gives `Suggest`, blank included, so `Option<Advice>` loses nothing the string shows |
| `SuggestionEngine.SuggestIsFirstMatch` | script.js:164-187 | for two classes the suggestion is the advice of the first matching rule in source order, else the breakdown text |
| `SuggestionEngine.FirstAcceptingRowWins` | script.js:165-182 | a matching rule preceded only by rules that do not match decides the suggestion |
| `SuggestionEngine.NoRowAcceptsGivesBreakdown` | script.js:185-187 | when no rule matches, the default breakdown text is returned |
| `SuggestionEngine.RowsZeroToFour` | script.js:165-171 | rules 0-4 of the table, each tried only after the earlier ones fail |
| `SuggestionEngine.RowsFiveToEight` | script.js:173-177 | rules 5-8, including the duplicate `E4_High` test and the added MidHigh rule |
| `SuggestionEngine.RowsNineToTwelve` | script.js:178-182 | rules 9-12, including the duplicate `E4_High` test and the added MidHigh rule |
| `SuggestionEngine.EarlierRowsWin` | script.js:169-187 | (MidHigh, MidHigh) matches the line-175 rule but gets the line-169 text; (MidHigh, Low) matches line 180 but gets line 178; (Medium, Medium) gets line 171; (ExtremeLow, Medium) matches nothing and gets the default |
| `WheelTopology.Opposite` | script.js:241 | `(i + 19) % wheelSize` is always a valid index |
| `WheelTopology.OppositeIsInvolution` | script.js:241 | on the 38-pocket wheel, the opposite of the opposite is the pocket itself |
| `WheelTopology.Step` | script.js:245-246 | `(center + i + wheelSize) % wheelSize` is always a valid index |
| `WheelTopology.StepZero` | script.js:245-246 | zero steps lead back to the centre |
| `WheelTopology.Ring` | script.js:244-248 | a ring has eleven entries with the centre pocket in the middle |
| `WheelTopology.RingIsContiguous` | script.js:244-248 | consecutive ring entries are neighbouring wheel positions, also where the ring wraps past either end |
| `WheelTopology.RingInside` | script.js:244-248 | away from the ends a ring is the plain slice of five pockets either side |
| `WheelTopology.RingAtStart` | script.js:244-248 | the ring around position 0 starts with the last five pockets of the wheel, in wheel order |
| `WheelTopology.RingAtEnd` | script.js:244-248 | the ring around the last position ends with the first five pockets of the wheel, in wheel order |
| `WheelTopology.PositionFrom` | script.js:226-232 | the search from i finds the first position at or after i holding the spin, or -1 iff there is none |
| `WheelTopology.PositionOf` | script.js:226-232 | the index found is -1 iff the spin is not on the wheel, and otherwise the first position holding it |
| `WheelTopology.FindSpinIndex` | script.js:224-232 | the loop with `break` computes `PositionOf` |
| `WheelTopology.NeighboursOf` | script.js:226-256 | the lookup reports "Spin not found" exactly when the spin is not on the wheel |
| `WheelTopology.NeighboursFound` | script.js:235-256 | for a spin found at i, the rings are those around i and around its opposite |
| `WheelTopology.SurroundingNumbers` | script.js:224-256 | the search loop and the two ring loops compute `NeighboursOf` |
| `WheelTopology.EveryPocketIsOnTheWheel` | script.js:5-11 | every pocket 0..36 and `"00"` is in `wheelData` |
| `WheelTopology.WheelHasNoRepeats` | script.js:5-11 | no pocket appears twice in `wheelData` |
| `WheelTopology.PositionOfIsThePlace` | script.js:226-232 | the search finds every pocket at its one position |
| `WheelTopology.ZeroLandmarks` | script.js:7-13 | the wheel has 38 pockets, with 0 at index 0 and `"00"` at index 19 |
| `WheelTopology.ZeroIsFirst` | script.js:226-232 | 0 is found at index 0 |
| `WheelTopology.DoubleZeroIsNineteenth` | script.js:226-232 | `"00"` is found at index 19, not confused with 0 |
| `WheelTopology.ZeroAndDoubleZeroAreOpposite` | script.js:241 | 0 and `"00"` are each other's opposite |
| `WheelTopology.RingsAroundZero` | script.js:241-256 | for spin 0 the rings are `wheelData[33..] + wheelData[..6]` and `wheelData[14..25]` |
| `WheelTopology.RingsAroundZeroListed` | script.js:5-11 | those rings pocket by pocket: 4, 23, 35, 14, 2, 0, 28, 9, 26, 30, 11 and 3, 24, 36, 13, 1, 00, 27, 10, 25, 29, 12 |
| `Analysis.Reversed` | script.js:412-414 | `slice().reverse()` keeps the length and puts entry k at position length-1-k |
| `Analysis.DisplayedSpins` | script.js:388-412 | the spin list shows min(10, length) spins, the latest first |
| `Analysis.QuadrantsOf` | script.js:391-398 | the quadrant list has one entry per spin, the quadrant of that spin, sentinels included |
| `Analysis.HalvesOf` | script.js:400-407 | the half list has one entry per spin, the half of that spin, sentinels included |
| `Analysis.DisplayedQuadrants` | script.js:388-413 | the quadrant list shows min(10, length) entries, entry k being the quadrant of the k-th latest spin |
| `Analysis.DisplayedHalves` | script.js:388-414 | the half list shows min(10, length) entries, entry k being the half of the k-th latest spin |
| `Analysis.QuadrantsThenReverse` | script.js:391-413 | mapping spins to quadrants and then reversing gives the quadrants of the reversed spins |
| `Analysis.HalvesThenReverse` | script.js:400-414 | mapping spins to halves and then reversing gives the halves of the reversed spins |
| `Analysis.DisplayedListsLineUp` | script.js:391-414 | mapping before reversing lines the lists up: the k-th quadrant and half shown belong to the k-th spin shown |
| `Analysis.SuggestionNeedsBothWindows` | script.js:366-379 | a suggestion is shown iff both the sum and the average exist |
| `Analysis.NoSuggestionBeforeTenSpins` | script.js:370-379 | with fewer than ten spins there is no average and no suggestion |
| `Analysis.PocketsAreAlwaysFound` | script.js:383 | a last spin that is a pocket always gets rings, centred on it and on its opposite |
| `Analysis.SampleSum4` | script.js:73-93 | spins ending 5, 12, 20, 30 have a quadrant sum of 10 |
| `Analysis.SampleAvg10` | script.js:96-118 | the sample's ten spins average 18.5 |
| `Analysis.SampleIsBalanced` | script.js:374-378 | both sample indicators are Medium and the balanced text is suggested |
| `Analysis.Analyze` | script.js:339-414 | the calculation steps of a press compute `SnapshotOf` of the history |
| `HistoryManager.Parse` | script.js:280-321 | blank input is recognised as blank; input is accepted iff it is `"00"` or an integer 0..36; an accepted number becomes that pocket; `"00"` is the only way to get `"00"` |
| `HistoryManager.Admit` | script.js:324-333 | the history only grows at its end, by at most one; the spin becomes the last entry; the length is unchanged iff the spin equals the last entry |
| `HistoryManager.AdmitKeepsNoAdjacentRepeats` | script.js:324-333 | the duplicate guard never puts two equal spins side by side |
| `HistoryManager.AdmitIsIdempotent` | script.js:324-333 | submitting the same spin twice in a row adds it once |
| `HistoryManager.AdmitKeepsPockets` | script.js:297-333 | only validated pockets enter the history |
| `HistoryManager.SubmittedIsWellFormed` | script.js:280-334 | each press keeps the history free of adjacent repeats and of non-pockets |
| `HistoryManager.SubmittedCases` | script.js:280-334 | blank and rejected input leave the history unchanged; an accepted spin is the new last entry |
| `HistoryManager.ZeroThenDoubleZeroKeepsBoth` | script.js:325-330 | typing 0 then `"00"` keeps both; typing 0 twice keeps one |
| `HistoryManager.RejectedInputs` | script.js:300-319 | 37, -1, 2.5 and NaN show the validation message and leave the history unchanged |
| `HistoryManager.ShownSpinLeadsAndIsFound` | script.js:336-414 | after an accepted spin the lists lead with it and the rings are always found |
| `HistoryManager.ReplayIsWellFormed` | script.js:278-454 | after any sequence of presses of Add Spin and Clear History, the history holds only pockets and no two equal spins in a row |
| `HistoryManager.SpinTracker.constructor` | script.js:16 | the page starts with an empty history |
| `HistoryManager.SpinTracker.Submit` | script.js:296-334 | validation and the guarded `push` update `spinHistory` as `Submitted` says and keep it well formed |
| `HistoryManager.SpinTracker.UpdateAnalysisDisplay` | script.js:275-414 | a press updates the history as `Submitted` says and shows `DisplayAfter` of the old history |
| `HistoryManager.SpinTracker.ClearHistory` | script.js:453-466 | Clear History sets `spinHistory` to empty and blanks every output |

## Left out

- Page wiring is not modelled: the DOM lookups, `textContent` writes, the event listeners, and clearing and focusing the input box. A press is the method call `UpdateAnalysisDisplay`, and the page state is the `Display` value it returns.
- JavaScript `parseFloat` and `trim` are outside the model. Input is the abstract `RawInput`: blank, exactly `"00"`, a finite number, or NaN. `parseFloat`'s leniency (`"5abc"` reads as 5) and `Infinity` (rejected by `Number.isInteger`) belong to producing that value.
- `avg10.toFixed(2)` is not modelled. The model keeps the exact average.
- String output is not modelled: the `" | "` and `", "` joins, the `" --- "` separator, and the `"N/A"` placeholders. The rings and lists are sequences, and `null` is `None` or a sentinel constructor.
- The `try`/`catch` in `getSurroundingNumbersString` is left out, because nothing in it can throw.
- Its early `""` and "invalid input type" returns are left out, because the model only ever passes it a `Pocket`.
- The `lastSpinFromHistory === null` branch of `updateAnalysisDisplay` is left out. An accepted spin has just been appended, so it cannot run.
- Commented-out code is not live behaviour: the zero edge signal and the local-storage notes.
- Non-integer numbers never enter the history because validation rejects them. The model's pockets are integers, so `getQuadrant`/`getHalf` on fractional values are not modelled.
- `Text` has no contract of its own. It maps each `Advice` to the script's exact string, and `TextDeterminesAdvice` states what it guarantees.
- `NeighboursOf`, `Ring`, `Step`: stated for any wheel of at least five pockets rather than only `wheelData`. `RingIsContiguous` and the lemmas on `WheelData` cover the page's wheel.

## Notes

- The ring around 0 starts with 4, 23, 35, 14, 2. The loop at script.js:245-248 walks clockwise from five pockets before the centre, so the last five entries of `wheelData` come in wheel order, not mirrored as 2, 14, 35, 23, 4. `RingsAroundZeroListed` states the order the code produces.
- Two rules of `getSuggestion` (script.js:174 and 181) test `e4Class === "E4_High"` twice. The next line of each adds the MidHigh case, so the table as a whole covers High and MidHigh. The model keeps the rules exactly as written, in their order.
