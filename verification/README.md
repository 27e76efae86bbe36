# Parasitic numbers and darts totals in Dafny

This project models two small puzzle solvers and proves properties of them.

**Parasitic-number search.** The search (`ATH_2019_parasitic_number.py`) looks
for a number `n` without a leading zero such that `9 * n` equals `n` with its
last decimal digit moved to the front. For every digit-length it scans the
candidates ending in 9 in steps of 10. It keeps the candidate with the smallest
distance `|9n - rotate(n)|`, taking the first of equal distances.

The search has two stages:
- Stage 1 scans every digit-length exhaustively.
- Stage 2 does the same up to 8 digits. Above that, it scans a window of 10^6
  numbers whose leading digits are those of the previous length's best, with
  the last five digits dropped.

The exhaustive range `[10^(d-1) + 9, 10^d // 9 + 1)` is exact. Its candidates
are precisely the `d`-digit numbers ending in 9 whose product with 9 keeps `d`
digits. The last candidate, `11...1 - 2`, has this property too, because
candidates end in 9. So the exhaustive scan misses no solution.

**Darts enumeration.** The enumeration (`darts.py`) builds two lists:
- the scores one dart can make: 0..20, their doubles and trebles, 25 and 50;
- the finishing scores: the doubles and 50.

It then counts, for every total, the ordered one-, two- and three-dart
combinations reaching it. It also counts the three-dart combinations that
contain a finishing dart. Finally it reports the first total with no
combination in each tally.

The Dafny modules follow the programs' structure:

| file | module | what it holds |
|---|---|---|
| `wrappers.dfy` | `Wrappers` | `Option` |
| `digits.dfy` | `Digits` | `str(n)` and `int(s)` on natural numbers, as digit sequences |
| `rotation.dfy` | `Rotation` | moving the last character of a string to the front |
| `parasitic.dfy` | `Parasitic` | distance, candidate ranges, the arg-min scan, the stages and the 44-digit answer |
| `darts.dfy` | `Darts` | score sets, the tallies, what the counts mean, and the four answers |

Python's unbounded integers are modelled by `nat`. Strings of digits are
`seq<int>` with elements 0..9. A tuple `(score, ways, example)` is the datatype
`Entry`. The `best = (diff, n)` pair is `Best`, with `Best(-1, 0)` as the
initial value. The whole program is proved to produce the four darts answers
23, 103, 163 and 159. This holds whatever order `list(set)` gives, because
`SetToList` picks elements nondeterministically.

## Model

| member | source | states |
|---|---|---|
| Digits.ToDigits | ATH_2019_parasitic_number.py:113 | `str(n)` is a non-empty string of decimal digits, with no leading zero when `n > 0`, whose last character is `n % 10` |
| Digits.Value | ATH_2019_parasitic_number.py:117 | `int(s)` of a `k`-digit string is below `10^k` |
| Digits.ValueOfToDigits | ATH_2019_parasitic_number.py:113-117 | `int(str(n)) == n` for every natural `n` |
| Digits.ToDigitsOfValue | ATH_2019_parasitic_number.py:116-117 | `str(int(s)) == s` for every digit string without a leading zero |
| Digits.DigitCountBounds | ATH_2019_parasitic_number.py:70-71 | a positive `n` with `d` digits satisfies `10^(d-1) <= n < 10^d` |
| Digits.DigitCountOf | ATH_2019_parasitic_number.py:70-71 | conversely, `10^(d-1) <= n < 10^d` means `n` has exactly `d` digits |
| Digits.DropLowDigits | ATH_2019_parasitic_number.py:103 | `str(n)[:-k]` is `str(n // 10^k)` whenever `k` is below the digit count |
| Digits.DropLowOf | ATH_2019_parasitic_number.py:103-104 | `(q * 10^k + r) // 10^k == q` when `r < 10^k` |
| Rotation.Rotate | ATH_2019_parasitic_number.py:116 | `(s[-1] + s)[:-1]` has the length of `s`, starts with `s`'s last character and shifts every other character one place right |
| Rotation.RotateInverse | ATH_2019_parasitic_number.py:116 | the rotation is undone by moving the first character to the end, in both orders |
| Rotation.RotatePermutes | ATH_2019_parasitic_number.py:116 | the rotation keeps the multiset of characters |
| Rotation.RotateNSplit | ATH_2019_parasitic_number.py:116 | `k` rotations bring the last `k` characters to the front, in order |
| Rotation.RotateFullCycle | ATH_2019_parasitic_number.py:116 | rotating a `d`-character string `d` times gives it back |
| Parasitic.RotatedValue | ATH_2019_parasitic_number.py:113-117 | the rotated value of a `d`-digit number is below `10^d` |
| Parasitic.RotatedValueArith | ATH_2019_parasitic_number.py:113-117 | the rotated value is `(n % 10) * 10^(d-1) + n // 10` for a `d`-digit `n` |
| Parasitic.RotationRoundTrip | ATH_2019_parasitic_number.py:116-117 | for `n` ending in 9 the rotated string starts with 9, so reading it back with `int` and printing it again loses no leading zero |
| Parasitic.Diff | ATH_2019_parasitic_number.py:118 | the distance is the absolute difference between `9n` and the rotated value, and is 0 exactly when they are equal |
| Parasitic.DiffZeroIffParasitic | ATH_2019_parasitic_number.py:118-124 | the distance is 0 exactly when `9n` equals the rotation |
| Parasitic.Range10 | ATH_2019_parasitic_number.py:112 | `range(start, end, 10)` has `ceil((end-start)/10)` elements, the `i`-th being `start + 10i` |
| Parasitic.Range10Members | ATH_2019_parasitic_number.py:112 | an integer is in the range sequence exactly when it is a candidate: `start <= m < end` and `m - start` divisible by 10 |
| Parasitic.ExhaustiveStart | ATH_2019_parasitic_number.py:70 | for `d >= 2` the range starts at a `d`-digit number ending in 9 |
| Parasitic.ExhaustiveEnd | ATH_2019_parasitic_number.py:71 | the range ends one past the `d`-digit repunit `11...1`: `9 * (end - 1) + 1 == 10^d` |
| Parasitic.ExhaustiveCandidates | ATH_2019_parasitic_number.py:66-71 | for `d >= 2`, the candidates of the exhaustive range are exactly the `d`-digit numbers ending in 9 whose product with 9 also has `d` digits, and each starts with 1 |
| Parasitic.ExhaustiveCandidateBounds | ATH_2019_parasitic_number.py:67-71 | every exhaustive candidate ends in 9 and lies strictly between `10^(d-1)` and `2 * 10^(d-1)`, with `9m < 10^d` |
| Parasitic.LeadingDigit | ATH_2019_parasitic_number.py:23-25 | a number in `[x * 10^(d-1), (x+1) * 10^(d-1))` has `d` digits and leading digit `x` |
| Parasitic.ParasiticShape | ATH_2019_parasitic_number.py:23-28 | every positive solution has at least two digits, ends in 9, starts with 1, and keeps its digit count when multiplied by 9 |
| Parasitic.ParasiticBounds | ATH_2019_parasitic_number.py:23-28 | a positive `d`-digit solution lies in `[10^(d-1), 2 * 10^(d-1))` and `9n < 10^d` |
| Parasitic.ParasiticIsExhaustiveCandidate | ATH_2019_parasitic_number.py:66-71 | the exhaustive range of a digit-length contains every positive solution of that length |
| Parasitic.ExhaustiveScanComplete | ATH_2019_parasitic_number.py:63-124 | the exhaustive scan of length `d >= 2` ends with distance 0 exactly when a `d`-digit solution exists |
| Parasitic.StableWindow | ATH_2019_parasitic_number.py:102-105 | the guided window fails exactly when the previous best has at most five digits; otherwise it is 10^6 wide and starts at a number ending in 9 |
| Parasitic.StableWindowStart | ATH_2019_parasitic_number.py:103-104 | the window starts at `(prev // 10^5) * 10^6 + 9` |
| Parasitic.StableWindowCandidates | ATH_2019_parasitic_number.py:96-105 | each window candidate ends in 9, has one digit more than the previous best, and keeps all of its digits but the last five as a prefix |
| Parasitic.StableWindowSize | ATH_2019_parasitic_number.py:99-105 | the window holds exactly 10^5 candidates, the last being `(prev // 10^5) * 10^6 + 999999` |
| Parasitic.SearchBounds | ATH_2019_parasitic_number.py:66-105 | stage 1 and lengths up to 8 use the exhaustive range; otherwise the window, which fails exactly when the seed has at most five digits |
| Parasitic.ScanRange | ATH_2019_parasitic_number.py:109-120 | the scan ends with `(-1, 0)` on an empty range, otherwise with a candidate of least distance, the first such one |
| Parasitic.BestInRange | ATH_2019_parasitic_number.py:109-124 | the scan with the search's distance is the arg-min, and it reports distance 0 exactly when the range holds a solution |
| Parasitic.ArgMinFindsSolution | ATH_2019_parasitic_number.py:124 | the arg-min of a range has distance 0 exactly when the range holds a solution |
| Parasitic.ValidReportsSnoc | ATH_2019_parasitic_number.py:63-109 | appending the next length's report, seeded by the last best, keeps every report valid |
| Parasitic.RunStage | ATH_2019_parasitic_number.py:49-120 | a stage always completes, with no `int('')` failure: it reports every length from 4 to 10 or 80, each the arg-min of its bounds, with the guided bounds seeded by the previous length's best |
| Parasitic.NextBestDigits | ATH_2019_parasitic_number.py:63-112 | the best of a length's bounds has exactly that many digits, so the next guided window's seed has at least eight digits |
| Parasitic.ExhaustiveNonEmpty | ATH_2019_parasitic_number.py:66-71 | from three digits on, the exhaustive range holds at least one candidate |
| Parasitic.DocumentedAnswerIsParasitic | ATH_2019_parasitic_number.py:134-136 | the documented 44-digit answer starts with 1, ends in 9, is a solution and has distance 0 |
| Darts.SinglesUpToMembers | darts.py:7-10 | after the loop has run for `d < k`, the set holds exactly `0..k-1`, the even numbers below `2k` and the multiples of 3 below `3k` |
| Darts.DoublesUpToMembers | darts.py:18-19 | after the loop has run for `d < k`, the set holds exactly the even numbers below `2k` |
| Darts.SetToList | darts.py:13 | `list(s)` lists every element of `s` once, and nothing else |
| Darts.SetUpSingleDartScores | darts.py:5-13 | the list holds each single-dart score exactly once, and all of them lie in 0..60 |
| Darts.SetUpFinishingDartScores | darts.py:16-21 | the list holds each double of 0..20 and the bullseye exactly once |
| Darts.FinishingAreSingles | darts.py:16-21 | every finishing score is also a single-dart score |
| Darts.SetupList | darts.py:23-29 | `setupList(high)` has `high + 1` entries, entry `i` being `(i, 0, placeholder)` |
| Darts.Record | darts.py:51 | recording a combination raises the count of its total by one, sets its example, and changes no other entry |
| Darts.RecordConsistent | darts.py:51-59 | recording a `k`-dart combination of listed scores that adds up to its total keeps every entry's example valid |
| Darts.TallyThirdDart | darts.py:55-59 | for fixed first and second darts, the innermost loop adds to each total its one-dart completions, and its finishing completions to the finish tally |
| Darts.TallySecondDart | darts.py:52-59 | for a fixed first dart, the middle loop adds the one-dart completions to `a2`, and the two-dart and finishing completions to `a3` and `a3Finish` |
| Darts.Tally | darts.py:44-59 | each tally counts exactly the ordered combinations of listed scores reaching each total, and each reached entry holds a valid example |
| Darts.LowestUnreachable | darts.py:64-90 | the scan returns the first total with count 0, all earlier totals having a positive count; it returns nothing exactly when every count is positive |
| Darts.Ways1Positive | darts.py:49-51 | a total has a one-dart way exactly when it is a listed score |
| Darts.Ways1Distinct | darts.py:49-51 | with distinct scores no total has more than one one-dart way |
| Darts.Ways2Positive | darts.py:52-54 | a total has a two-dart way exactly when some ordered pair of positions adds up to it |
| Darts.Ways3Positive | darts.py:55-57 | a total has a three-dart way exactly when some ordered triple of positions adds up to it |
| Darts.FinishWays3AtMost | darts.py:57-59 | the finish tally never exceeds the three-dart tally |
| Darts.HasFinishOnBoard | darts.py:58 | over the board's finishing list, the tally's test holds exactly when one of the three darts is a double or the bullseye |
| Darts.FinishWays1Positive | darts.py:58-59 | for fixed first and second darts, a finishing completion exists exactly when some third dart completes the total with a finishing dart among the three |
| Darts.FinishWays2Positive | darts.py:52-59 | for a fixed first dart, a finishing combination exists exactly when some second and third darts complete the total with a finishing dart among the three |
| Darts.FinishWays3Positive | darts.py:49-59 | a total has a finishing three-dart way exactly when some ordered triple of positions adds up to it and holds a finishing score |
| Darts.SingleDartOneWay | darts.py:49-51 | over the board's list, each single-dart score is reached in exactly one way by one dart, and nothing else is reached |
| Darts.TwoDartBridge | darts.py:52-54 | over the board's lists, the two-dart count is positive exactly when two single-dart scores add up to the total |
| Darts.ThreeDartBridge | darts.py:55-57 | over the board's lists, the three-dart count is positive exactly when three single-dart scores add up to the total |
| Darts.ThreeDartFinishBridge | darts.py:55-59 | over the board's lists, the finish count is positive exactly when three single-dart scores, one of them finishing, add up to the total |
| Darts.LowestOneDart | darts.py:64-68 | every total below 23 is a single-dart score and 23 is not |
| Darts.LowestTwoDarts | darts.py:71-75 | every total below 103 is a sum of two single-dart scores and 103 is not |
| Darts.LowestThreeDarts | darts.py:78-82 | every total below 163 is a sum of three single-dart scores and 163 is not |
| Darts.LowestThreeDartFinish | darts.py:86-90 | every total below 159 is a sum of three single-dart scores with a finishing one among them, and 159 is not |
| Darts.OneDartTable | darts.py:64-68 | the counted one-dart tally is positive below 23 and zero at 23 |
| Darts.TwoDartTable | darts.py:71-75 | the counted two-dart tally is positive below 103 and zero at 103 |
| Darts.ThreeDartTable | darts.py:78-82 | the counted three-dart tally is positive below 163 and zero at 163 |
| Darts.ThreeDartFinishTable | darts.py:86-90 | the counted finish tally is positive below 159 and zero at 159 |
| Darts.LowestNonGettable | darts.py:34-90 | the program reports 23, 103, 163 and 159 as the lowest non-gettable totals for one, two and three darts, and for three darts with a finishing dart |

## Left out

- Printing. This covers the progress lines, the `"digits = ... : best-diff = ..."` report, the comma-grouped answer and the darts messages. The model returns the values that would be printed.
- The sorts of the two- and three-dart tallies by number of ways (`darts.py` lines 94-98). Their results are never printed.
- Darts.Tally: states that each reached entry's example is a combination of the right number of listed scores adding up to its total. It does not state that the example is the last combination visited, because the visiting order is the unspecified order of `list(set)`.
- Darts.SetupList: the placeholder `0` in a fresh entry's example slot is modelled as the empty sequence. A one-dart example, the bare score `d1`, is modelled as `[d1]`.
- Parasitic.RunStage: states what each report is, not what the whole stage 2 run outputs. That run scans 10^5 candidates at each of 72 lengths and is not evaluated here. The documented 44-digit answer is proved to be a solution separately.
- The stage-2 assumption that all but the last five digits of the best number have stabilised is a heuristic. It is not proved; only the window's shape and contents are.
- The `int('')` failure of the guided window, when the seed has at most five digits, is modelled as `None` by `StableWindow` and `SearchBounds`. `RunStage` proves it is never reached: every guided window is seeded by a best of at least eight digits.
- The loop over the two stages (`for stage in [1, 2]`) is not a member of its own: `RunStage` takes the stage as a parameter.
- The single-dart set's size: the model characterises its 44 members exactly and does not state its size.
