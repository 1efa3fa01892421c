# Advent of Code 2025, days 1–8, modelled in Dafny

This project models the Python solvers for the first eight puzzles of Advent of
Code 2025 and proves what each solver computes. One module stands for each
solver file. Where a day has two solutions, both are modelled and proved to
agree.

- `Day01` and `Day01Original`: a dial with positions 0..99 starts at 50 and is
  turned left or right. Part 1 counts the turns that end on 0. Part 2 counts
  every click that points at 0.
- `Day02` and `Day02Original`: a list of ID ranges. Part 1 sums the IDs whose
  digits are one block written twice. Part 2 sums those written two or more
  times.
- `Day03`: battery banks, one line of digits each. Part 1 takes the largest
  two-digit number from digits in order. Part 2 takes the largest twelve-digit
  number, chosen greedily.
- `Day04`: a grid of paper rolls (`@`). A roll is accessible when fewer than
  four of its eight neighbours are rolls. Part 1 counts the accessible rolls and
  marks them. Part 2 removes accessible rolls round after round until none is
  left to remove.
- `Day05`: fresh-ingredient ID ranges and a list of IDs. Part 1 counts the
  listed IDs that fall in some range. Part 2 counts every ID covered by the
  ranges, by sweeping them in sorted order.
- `Day06`: a worksheet of numbers with an operator row. Part 1 reads the
  problems by rows. Part 2 reads the digits column by column, left to right.
- `Day07`: a tachyon manifold. Part 1 counts the splitters that a beam starting
  at `S` reaches. Part 2 counts the distinct timelines, which are the ways down
  from `S` when every splitter sends a beam both left and right. When no row is
  shorter than the first, both counts are proved equal to these path-by-path
  definitions.
- `Day08`: junction boxes in 3-D space. They are joined closest pair first. Part
  1 multiplies the sizes of the three largest circuits after a fixed number of
  joins. Part 2 multiplies the x coordinates of the last pair joined.

Shared modules:

- `Wrappers`: `Option`, `Result`, and `MapResult`, which stands for a list
  comprehension that stops at the first exception.
- `Text`: the Python string operations the solvers use. These are `strip`,
  `split`, `splitlines`, `int()` and `str()`.
- `Seqs`: sums, products and counts over sequences.
- `Sorting`: a stable insertion sort, standing in for Python's `sorted` and
  `list.sort`.

A Python exception becomes a `Failure` carrying an error datatype. The
datatype records what the exception's message embeds. Every solver is a
function or method that takes the input text as a string. Each loop in the
Python code is a Dafny method with a loop, proved equal to a specification
function. The properties are proved about those functions.

## Model

| member | source | states |
|---|---|---|
| Day01.ZeroHitsClosedForm | 2025/src/day_01/solution_improved.py:189-220 | counting, click by click, the positions that are 0 equals the closed form: one hit per multiple of 100 crossed, in either direction |
| Day01.CircularDial.constructor | 2025/src/day_01/solution_improved.py:30-43 | the dial starts at the given position with a zero count of 0 |
| Day01.CircularDial.RotateLeft | 2025/src/day_01/solution_improved.py:45-70 | negative steps raise `DialRotationError` and change nothing; otherwise the position becomes `(p - steps) % 100`, the count grows by the clicks that pass 0, and the new position is returned |
| Day01.CircularDial.RotateRight | 2025/src/day_01/solution_improved.py:72-97 | the same for right turns, `(p + steps) % 100` |
| Day01.NewDial | 2025/src/day_01/solution_improved.py:39-40 | construction fails exactly when the initial position is outside 0..99, with that position in the error |
| Day01.ParseLine | 2025/src/day_01/solution_improved.py:120-139 | a line is skipped exactly when it is blank after stripping; it is accepted exactly when it is blank, or has at least two characters, a first letter that upper-cases to `L` or `R` and an `int()` count that is not negative; a kept line is that upper-cased letter with that count; an error carries the line's number |
| Day01.LowerCaseAccepted | 2025/src/day_01/solution_improved.py:127 | `l5` is read as a left turn by 5, the letter upper-cased |
| Day01.UnknownLetterRefused | tests/test_day_01_improvements.py:86-91 | `X5` is refused for its letter |
| Day01.BadNumberRefused | tests/test_day_01_improvements.py:86-91 | `Labc` is refused for its number |
| Day01.NegativeRefused | tests/test_day_01_improvements.py:86-91 | `L-5` is refused for its negative count |
| Day01.CollectAccepts | 2025/src/day_01/solution_improved.py:119-141 | the loop over the numbered lines succeeds exactly when every line is accepted |
| Day01.CollectFirstError | 2025/src/day_01/solution_improved.py:119-141 | a refusal is the error of the first refused line; every earlier line was accepted |
| Day01.CollectKeeps | 2025/src/day_01/solution_improved.py:119-141 | every operation returned was produced by some input line |
| Day01.ParseLines | 2025/src/day_01/solution_improved.py:116-141 | a successful parse holds only `L`/`R` operations with non-negative steps |
| Day01.KeptValid | 2025/src/day_01/solution_improved.py:133-139 | any kept operation is `L` or `R` with steps >= 0 |
| Day01.ParseInput | 2025/src/day_01/solution_improved.py:104-141 | the loop of `parse_input` returns the operations, or the first line's error |
| Day01.RenderedLine | 2025/src/day_01/solution_improved.py:120-139 | a line written as letter + `str(steps)` parses back to the same operation |
| Day01.RenderedLines | 2025/src/day_01/solution_improved.py:119-141 | the rendered lines parse back to the operation list |
| Day01.RenderRoundTrip | 2025/src/day_01/solution_improved.py:104-141 | parsing the rendered input gives back exactly the operations (`parse_input` inverts the input format) |
| Day01.Rotated | 2025/src/day_01/solution_improved.py:156-160 | a rotation always leaves the dial in 0..99 |
| Day01.LandingsAtMostPasses | 2025/src/day_01/solution_improved.py:144-186 | when every turn has at least one click, part 1's count is at most part 2's |
| Day01.CountLandings | 2025/src/day_01/solution_improved.py:156-165 | the loop counts exactly the operations that leave the dial on 0 |
| Day01.SolvePart1Optimized | 2025/src/day_01/solution_improved.py:144-165 | `solve_part_1_optimized` is the landings count from 50, or the parse error |
| Day01.CountPasses | 2025/src/day_01/solution_improved.py:178-186 | driving a `CircularDial` through the operations counts every click that points at 0 |
| Day01.SolvePart2Optimized | 2025/src/day_01/solution_improved.py:168-186 | `solve_part_2_optimized` is the click count from 50, or the parse error |
| Day01.CountZerosInRotation | 2025/src/day_01/solution_improved.py:189-220 | `_count_zeros_in_rotation` counts the clicks of one turn that land on 0; 0 steps give 0 |
| Day01.SumRotationZeros | 2025/src/day_01/solution_improved.py:232-247 | the loop without a dial gives the same count as the simulation |
| Day01.SolvePart2Mathematical | 2025/src/day_01/solution_improved.py:223-247 | `solve_part_2_mathematical` returns the same answer as `solve_part_2_optimized` on every input |
| Day01Original.LeftWrapOffByOne | 2025/src/day_01/solution.py:9-15 | a left turn that goes below 0 (by at most one lap) stops one position short of `(v - c) % 100` |
| Day01Original.RightWrapOnce | 2025/src/day_01/solution.py:16-22 | a right turn lands on `(v + c) % 100` exactly when it wraps at most once |
| Day01Original.TurnLine | 2025/src/day_01/solution.py:8-22 | one line of part 1: the new dial value as written, or the `int()` error |
| Day01Original.CountLines1 | 2025/src/day_01/solution.py:5-26 | the loop of part 1 is the fold of its one-line step from 50 |
| Day01Original.SolvePart1 | 2025/src/day_01/solution.py:4-26 | `solve_part_1` as written |
| Day01Original.ParseTail | 2025/src/day_01/solution.py:10 | `int(line[1:])` for a line starting with `L` or `R` |
| Day01Original.CountClicks | 2025/src/day_01/solution.py:43-47 | the inner click loop counts the positions that are 0 |
| Day01Original.TurnLineCounting | 2025/src/day_01/solution.py:37-67 | one line of part 2: the new value and the zero clicks, or the error |
| Day01Original.CountLine2 | 2025/src/day_01/solution.py:34-67 | one turn of part 2's loop keeps the fold invariant, or returns its error |
| Day01Original.CountLines2 | 2025/src/day_01/solution.py:29-73 | the loop of part 2 is the fold of its one-line step from 50 |
| Day01Original.SolvePart2 | 2025/src/day_01/solution.py:28-73 | `solve_part_2` as written |
| Day01Original.RenderedStep1 | 2025/src/day_01/solution.py:9-24 | on a well-formed line, part 1's step is the wrap as written plus a 0/1 landing |
| Day01Original.ReadRendered | 2025/src/day_01/solution.py:9-17 | a well-formed line reads back as its letter and steps |
| Day01Original.RenderedStep2 | 2025/src/day_01/solution.py:37-67 | on a well-formed line, part 2's step is the improved solution's rotation and click count |
| Day01Original.Part2AgreesWithImproved | 2025/src/day_01/solution.py:28-73 | on every well-formed input, the original and improved part 2 give the same count |
| Day01Original.Part1OnRendered | 2025/src/day_01/solution.py:4-26 | on every well-formed input, original part 1 counts the landings of its own wrap rule, and the improved part 1 counts the true landings |
| Day01Original.LeftWrapCounterexample | 2025/src/day_01/solution.py:12-13 | two left turns summing to 150 that reach 0 are not counted by the original part 1 |
| Day01Original.RightWrapCounterexample | 2025/src/day_01/solution.py:19-20 | a right turn of 150, 250, ... from 50 reaches 0 but is not counted by the original part 1 |
| Day02.NewRange | 2025/src/day_02/solution_improved.py:20-25 | a range is built exactly when `0 <= start <= end`; `start > end` is reported first, then a negative start |
| Day02.Numbers | 2025/src/day_02/solution_improved.py:144-156 | the generated numbers are `start..end` in order, and exactly the values `contains` accepts |
| Day02.FromString | 2025/src/day_02/solution_improved.py:31-40 | `from_string` succeeds exactly when the stripped text splits once at `-` into two integers forming a valid range, and then the range holds those integers; every failure is `InvalidFormat` of the text |
| Day02.FromStringRoundTrip | 2025/src/day_02/solution_improved.py:31-40 | a valid range written as `start-end` parses back to itself |
| Day02.DoubleRepetitionIff | 2025/src/day_02/solution_improved.py:46-75 | an ID fails the part 1 test exactly when its decimal text is some block written twice |
| Day02.RepeatsFromIff | 2025/src/day_02/solution_improved.py:100-109 | the loop over block lengths from `k` finds one exactly when some length between `k` and half the text repeats |
| Day02.MultipleRepetitionIff | 2025/src/day_02/solution_improved.py:77-109 | the part 2 test holds exactly when the text is some block written two or more times |
| Day02.FoundBlock | 2025/src/day_02/solution_improved.py:105-107 | a block length accepted by the loop gives a block repeated at least twice |
| Day02.TriedBlock | 2025/src/day_02/solution_improved.py:101-107 | for a length dividing the text, the loop's check means the text is its prefix repeated at least twice |
| Day02.HasRepeatedBlock | 2025/src/day_02/solution_improved.py:96-109 | the loop returns true exactly when the part 2 test holds |
| Day02.IsInvalidMultipleRepetition | 2025/src/day_02/solution_improved.py:77-109 | `is_invalid_multiple_repetition(n)` applies the test to `str(n)` |
| Day02.DoubleIsMultiple | 2025/src/day_02/solution_improved.py:46-109 | every ID invalid in part 1 is invalid in part 2 |
| Day02.DoubleExamples | 2025/src/day_02/solution_improved.py:57-60 | the docstring's examples 55 and 6464 are invalid in part 1 |
| Day02.NonDoubleExamples | 2025/src/day_02/solution_improved.py:61-62 | 123 and 1234 are valid in part 1 |
| Day02.MultipleExamples | 2025/src/day_02/solution_improved.py:89-90 | 55 and 123123 are invalid in part 2 |
| Day02.NonRepetitionExamples | 2025/src/day_02/solution_improved.py:93-94 | 1234 and 123 are valid in part 2 |
| Day02.ParseField | 2025/src/day_02/solution_improved.py:136-140 | a field that parses is a valid range |
| Day02.RangesOf | 2025/src/day_02/solution_improved.py:116-142 | blank input raises "cannot be empty"; a success has one valid range per comma field |
| Day02.NumberedSuccess | 2025/src/day_02/solution_improved.py:135-142 | when every numbered field parses, the result is their ranges in order |
| Day02.NumberedFailure | 2025/src/day_02/solution_improved.py:135-140 | the first field that does not parse decides the error, which carries its 1-based position |
| Day02.ParseFields | 2025/src/day_02/solution_improved.py:132-142 | the loop of `parse_ranges` collects the numbered fields' ranges, or stops at the first bad one |
| Day02.ParseRanges | 2025/src/day_02/solution_improved.py:116-142 | `parse_ranges` as a method |
| Day02.ParseRangesRoundTrip | 2025/src/day_02/solution_improved.py:116-142 | a non-empty list of valid ranges, written comma-separated, parses back to itself |
| Day02.RangeIdsMembers | 2025/src/day_02/solution_improved.py:189-193 | the IDs collected from one range are exactly its invalid IDs, in increasing order |
| Day02.InvalidIdsAppend | 2025/src/day_02/solution_improved.py:187-198 | the answer over a list of ranges is the sum of the answers over its parts |
| Day02.RepeatedRangesCountTwice | 2025/src/day_02/solution_improved.py:187-198 | a range listed twice is counted twice (no deduplication) |
| Day02.InvalidIdsMonotone | 2025/src/day_02/solution_improved.py:187-232 | a test that accepts more IDs gives a sum at least as large |
| Day02.Part1AtMostPart2 | 2025/src/day_02/solution_improved.py:166-232 | both parts fail on the same inputs, and part 1's sum never exceeds part 2's |
| Day02.SingleRangeExample | 2025/src/day_02/solution_improved.py:166-232 | the input `55-55` gives 55 in both parts |
| Day02.DoubleRepetitionsIn | 2025/src/day_02/solution_improved.py:191-193 | the inner loop of part 1 collects the range's part 1 invalid IDs |
| Day02.MultipleRepetitionsIn | 2025/src/day_02/solution_improved.py:225-227 | the inner loop of part 2 collects the range's part 2 invalid IDs |
| Day02.SumDoubleRepetitions | 2025/src/day_02/solution_improved.py:187-198 | the loop of part 1 sums the invalid IDs of every range |
| Day02.SumMultipleRepetitions | 2025/src/day_02/solution_improved.py:221-232 | the loop of part 2 sums the invalid IDs of every range |
| Day02.SolvePart1 | 2025/src/day_02/solution_improved.py:166-198 | `solve_part_1` is the part 1 sum, or the parse error |
| Day02.SolvePart2 | 2025/src/day_02/solution_improved.py:200-232 | `solve_part_2` is the part 2 sum, or the parse error |
| Day02Original.ParsePair | 2025/src/day_02/solution.py:86-89 | a field that splits once at `-` into two integers has a non-negative start (the start text holds no `-`) |
| Day02Original.ParseField | 2025/src/day_02/solution.py:85-93 | any failure of a field is the one `ValueError` that quotes the whole input; a parsed field has a non-negative start |
| Day02Original.RangesOf | 2025/src/day_02/solution.py:68-93 | `parse_ranges` fails only with the error quoting the input; a success has one pair per comma field, each with a non-negative start |
| Day02Original.BlankIsInvalid | 2025/src/day_02/solution.py:82-93 | blank input is one empty field, which does not unpack, so it raises |
| Day02Original.ParsePairs | 2025/src/day_02/solution.py:83-91 | the loop collects each field's pair in order, or stops at the first that raises |
| Day02Original.ParseRanges | 2025/src/day_02/solution.py:68-93 | `parse_ranges` as a method |
| Day02Original.FirstReversed | 2025/src/day_02/solution.py:121-124 | no pair is reported exactly when every pair has `start <= end`; a reported pair is one of the list and has `start > end` |
| Day02Original.FirstReversedAt | 2025/src/day_02/solution.py:121-124 | the first pair with `start > end` is the one reported |
| Day02Original.SumChecked | 2025/src/day_02/solution.py:119-131 | the solvers' loop raises at the first reversed pair, and otherwise sums the invalid IDs of every pair |
| Day02Original.SolvePart1 | 2025/src/day_02/solution.py:96-131 | `solve_part_1` as written |
| Day02Original.SolvePart2 | 2025/src/day_02/solution.py:134-170 | `solve_part_2` as written |
| Day02Original.FieldAgrees | 2025/src/day_02/solution.py:85-89 | a field is a valid improved `Range` exactly when the original reads it as an ordered pair, and then both hold the same numbers |
| Day02Original.RangesAgree | 2025/src/day_02/solution.py:68-93 | the improved parser succeeds exactly when the original does and no pair is reversed, with the same ranges |
| Day02Original.SolutionsAgree | 2025/src/day_02/solution.py:96-170 | on every input, each part of the original fails exactly when the improved one does, and otherwise gives the same sum |
| Day03.ScanFails | src/day_03/solution.py:18-22 | the pair loops raise exactly when some remaining pair's text is not an integer, and then with the error of the first such pair in loop order |
| Day03.MaxVoltage | src/day_03/solution.py:16-22 | the two nested loops over one line compute the line's part 1 value, or its first `int` error |
| Day03.SumNextLine | src/day_03/solution.py:14-26 | adding one line's value keeps the running total equal to the sum over the lines read so far, or stops at its error |
| Day03.SolvePart1 | src/day_03/solution.py:4-26 | `solve_part_1` is the sum of the line values, or the first error |
| Day03.TwoDigits | src/day_03/solution.py:21-22 | two digit characters read as the two-digit number `10*a + b` |
| Day03.ScanBest | src/day_03/solution.py:18-22 | when every pair parses, the running maximum is at least every remaining pair's value and is either its start or one of those values |
| Day03.Part1LineIsBestPair | src/day_03/solution.py:16-22 | on a line of digits, the value is the largest two-digit number `b[i] b[j]` with `i < j`; a line shorter than two gives 0 |
| Day03.ConcatenatesDigits | src/day_03/solution.py:16-22 | a two-digit line is worth the two digits written side by side, not their sum as the docstring says |
| Day03.ParseBatteryDigit | src/day_03/solution.py:39 | `int(c)` of one character succeeds exactly on a digit, giving its value |
| Day03.BatteriesDigits | src/day_03/solution.py:39 | `list(map(int, line))` succeeds exactly when the line is all digits, and gives their values in order |
| Day03.JoinDigitsParses | src/day_03/solution.py:44-69 | the digits joined back into text read as the number they spell; no digits at all make `int("")` raise |
| Day03.JoinBatteries | src/day_03/solution.py:39-44 | joining a line's digits gives the line back |
| Day03.DigitText | src/day_03/solution.py:44-60 | `str` of a digit's value is that digit |
| Day03.SeqMax | src/day_03/solution.py:57 | `max` of a window is in the window and at least every element |
| Day03.IndexOf | src/day_03/solution.py:58 | `.index(x)` is the first position holding `x` |
| Day03.PickIndex | src/day_03/solution.py:57-58 | the chosen battery holds the window's largest digit, and every earlier one in the window is smaller |
| Day03.WindowPick | src/day_03/solution.py:57-58 | `batteries[start:end].index(max(...)) + start` is the first position of the window's maximum |
| Day03.GreedyIndicesPick | src/day_03/solution.py:48-67 | the greedy positions are strictly increasing and inside the bank |
| Day03.GreedyIsPick | src/day_03/solution.py:48-67 | the greedy choice takes `k` batteries at strictly increasing positions |
| Day03.GreedyBeatsPicks | src/day_03/solution.py:48-67 | the greedy digits are lexicographically at least those of any other choice of `k` batteries in order |
| Day03.GreedyIsLargest | src/day_03/solution.py:32-67 | the greedy number is the largest number made of `k` of the digits in order, as the docstring promises |
| Day03.ChooseDigits | src/day_03/solution.py:43-67 | the kept batteries are digits, 12 of them unless the line is shorter |
| Day03.BankValueFails | src/day_03/solution.py:39-69 | a line's part 2 value exists exactly when the stripped line is a non-empty run of digits |
| Day03.BankValueShort | src/day_03/solution.py:43-69 | a line of at most 12 digits is worth the number it spells |
| Day03.BankValueLong | src/day_03/solution.py:45-69 | a longer line is worth the greedy choice of 12 digits |
| Day03.BankValueLargest | src/day_03/solution.py:32-69 | a longer line's value is at least the number of any 12 of its digits taken in order |
| Day03.GreedyStep | src/day_03/solution.py:52-62 | one greedy step takes the window's first maximum and continues after it |
| Day03.MaxInWindow | src/day_03/solution.py:57-58 | returns the window's first largest digit and its position |
| Day03.PickNext | src/day_03/solution.py:54-62 | one turn of the loop takes the next greedy digit and leaves the rest of the greedy choice to come |
| Day03.GreedyPick | src/day_03/solution.py:48-65 | the loop over 12 positions produces the greedy choice |
| Day03.BankVoltage | src/day_03/solution.py:39-69 | one line's part 2 computation, as a method, equals the bank's value |
| Day03.OutputVoltage | src/day_03/solution.py:39-69 | the same on the stripped line |
| Day03.SolvePart2 | src/day_03/solution.py:28-72 | `solve_part_2` is the sum of the line values, or the first error |
| Day04.Parse | 2025/src/day_04/solution.py:6-7 | the grid has at least one row and no row holds a line break |
| Day04.AdjacentBounds | 2025/src/day_04/solution.py:13-20 | a neighbour count is between 0 and 8 |
| Day04.AdjacentMonotone | 2025/src/day_04/solution.py:56-63 | taking rolls away never raises a neighbour count |
| Day04.AccessibleStays | 2025/src/day_04/solution.py:69-90 | a reachable roll that is not removed stays reachable in later rounds |
| Day04.GridCountSplit | 2025/src/day_04/solution.py:29-37 | a count over the cells visited by the two loops splits over two disjoint conditions |
| Day04.GridCountZero | 2025/src/day_04/solution.py:82-84 | a count over the grid is 0 exactly when no cell satisfies the condition |
| Day04.Replace | 2025/src/day_04/solution.py:23-88 | the new grid has the same shape, and a cell changes exactly when its roll is reachable, to the given character |
| Day04.MarkedCells | 2025/src/day_04/solution.py:23-37 | part 1 changes exactly the reachable rolls, each to `x`, and the number changed is the reachable count |
| Day04.RenderLines | 2025/src/day_04/solution.py:40-43 | the output splits back at line breaks into the rows, an empty line, and the note |
| Day04.Part1Lines | 2025/src/day_04/solution.py:4-45 | part 1 raises exactly when a row is shorter than the first; otherwise its output splits back into the marked rows, a blank line, and the note with the reachable count |
| Day04.RemovalCount | 2025/src/day_04/solution.py:86-90 | a round removes exactly the reachable rolls: those left plus those removed are the rolls before |
| Day04.RemovalFewer | 2025/src/day_04/solution.py:86-88 | a round only takes rolls away |
| Day04.RoundsFixpoint | 2025/src/day_04/solution.py:69-92 | the rounds end where no roll is reachable; removed plus remaining equals the initial rolls; at least the first round's rolls are removed |
| Day04.RoundsOnlyRemove | 2025/src/day_04/solution.py:69-92 | the rounds keep the grid's shape and change cells only from `@` to `.` |
| Day04.Part2Bounded | 2025/src/day_04/solution.py:47-92 | part 2 raises exactly when a row is shorter than the first; otherwise its answer is between the first round's count and the number of rolls |
| Day04.RowReachableLists | 2025/src/day_04/solution.py:74-80 | one row's collected positions are exactly its reachable rolls, one per roll |
| Day04.ReachableLists | 2025/src/day_04/solution.py:71-80 | the collected positions are exactly the grid's reachable rolls, and as many as the reachable count |
| Day04.RaisesIffNarrow | 2025/src/day_04/solution.py:29-61 | the scan raises on some row exactly when some row is shorter than the first |
| Day04.CountAdjacentRolls | 2025/src/day_04/solution.py:13-20 | `count_adjacent_rolls` raises exactly when a neighbour within the bounds lies past the end of its row, and otherwise counts the neighbouring rolls |
| Day04.MarkRow | 2025/src/day_04/solution.py:30-37 | the inner loop raises exactly when the row's scan reaches an unreadable cell, and otherwise marks the row and adds its reachable rolls |
| Day04.Mark | 2025/src/day_04/solution.py:23-37 | the two loops raise exactly when a row is shorter than the first, and otherwise produce the marked grid and the reachable count |
| Day04.SolvePart1 | 2025/src/day_04/solution.py:4-45 | `solve_part_1` as a method |
| Day04.CollectRow | 2025/src/day_04/solution.py:74-80 | the inner loop appends the row's reachable rolls, or raises |
| Day04.Collect | 2025/src/day_04/solution.py:71-80 | the two loops list the reachable rolls in visiting order, or raise exactly when a row is shorter than the first |
| Day04.RemoveAll | 2025/src/day_04/solution.py:87-88 | the listed cells become `.` and every other cell is unchanged |
| Day04.ClearReachable | 2025/src/day_04/solution.py:86-88 | clearing the listed positions is the removal of every reachable roll |
| Day04.SameShapeWide | 2025/src/day_04/solution.py:61-74 | grids of the same shape raise on the same rows |
| Day04.RemovalRound | 2025/src/day_04/solution.py:71-88 | one round raises exactly when a row is shorter than the first; otherwise it counts the reachable rolls and, if there are any, removes them; with none it leaves the grid as it is |
| Day04.SolvePart2 | 2025/src/day_04/solution.py:47-92 | the `while True` loop returns the total of the rounds, or raises |
| Day05.BlankLineIndex | 2025/src/day_05/solution.py:6 | `lines.index("")` finds nothing exactly when no line is empty, and otherwise the first empty line |
| Day05.CountFreshAppend | 2025/src/day_05/solution.py:14-22 | the fresh count over two lists of IDs is the sum of their counts |
| Day05.CountFreshBounds | 2025/src/day_05/solution.py:14-22 | all IDs covered gives their number; none covered gives 0 |
| Day05.CountFreshSameRanges | 2025/src/day_05/solution.py:10-20 | the count depends only on which ranges there are, not on their order or repeats (dictionary keys are deduplicated) |
| Day05.Part1NoRanges | 2025/src/day_05/solution.py:11-23 | with no range line, the IDs are never read and the answer is 0 |
| Day05.Part1CountsRepeats | 2025/src/day_05/solution.py:14-22 | an ID listed twice is counted twice |
| Day05.RangeMapRanges | 2025/src/day_05/solution.py:10-13 | the dictionary's ranges are exactly the parsed range lines, and it is empty exactly when there are no range lines |
| Day05.RangeMapInsert | 2025/src/day_05/solution.py:12-13 | inserting a line's range keeps the dictionary invariant; a repeated line keeps its first key position |
| Day05.BuildRangeMap | 2025/src/day_05/solution.py:10-13 | the loop builds the range dictionary, or raises exactly when some range line fails to parse, with the first such error |
| Day05.AnyRangeHolds | 2025/src/day_05/solution.py:15-20 | the inner loop finds exactly whether some range holds the ID |
| Day05.CountFreshIds | 2025/src/day_05/solution.py:14-23 | with no ranges the count is 0 and no ID is read; otherwise the loop raises exactly on the first ID that is not an integer, or counts the covered IDs |
| Day05.SolvePart1 | 2025/src/day_05/solution.py:4-23 | `solve_part_1` as a method |
| Day05.RangeLinesMembers | 2025/src/day_05/solution.py:33-34 | part 2 reads exactly the lines holding a `-` |
| Day05.ParseFieldsNonNegative | 2025/src/day_05/solution.py:36 | the fields of a line split at every `-` are never negative |
| Day05.Unpack2 | 2025/src/day_05/solution.py:39 | `start, end` unpacks exactly a list of two fields, and otherwise raises "too many values" |
| Day05.IntervalLETotal | 2025/src/day_05/solution.py:39 | Python's order on `[start, end]` lists is a total preorder, so `sorted` is defined |
| Day05.CountCoveredIsUnionSize | 2025/src/day_05/solution.py:25-49 | the reference count is the size of the set of covered IDs |
| Day05.GainCounts | 2025/src/day_05/solution.py:40-45 | one step adds exactly the IDs of the range above `highest` |
| Day05.SweepCounts | 2025/src/day_05/solution.py:39-47 | over ranges sorted by start, the sweep counts each covered ID above the start value once |
| Day05.SortCovers | 2025/src/day_05/solution.py:39 | sorting keeps the covered IDs and the range shapes |
| Day05.SweepSortedCounts | 2025/src/day_05/solution.py:39-47 | the sweep over the sorted ranges counts the covered IDs above the starting `highest` |
| Day05.SweptRangesNonNegative | 2025/src/day_05/solution.py:33-36 | every parsed range starts at 0 or above |
| Day05.SweptFromCounts | 2025/src/day_05/solution.py:25-49 | for well-formed ranges, the sweep from a given start counts the covered IDs above it |
| Day05.Part2CountsFromOne | 2025/src/day_05/solution.py:30-49 | `solve_part_2` as written counts the covered IDs from 1 on, so an ID 0 is never counted |
| Day05.SweepFromBelowCountsUnion | 2025/src/day_05/solution.py:39-47 | started below every ID, the sweep counts the union of the ranges |
| Day05.Part2CorrectedCountsUnion | 2025/src/day_05/solution.py:25-49 | with `highest` starting at -1 and every range having start ≤ end, part 2 is the number of distinct covered IDs |
| Day05.ReversedRangeSubtracts | 2025/src/day_05/solution.py:39-47 | a reversed range such as `5-3` covers no ID, yet both sweeps count it as -1 |
| Day05.ZeroRangeParses | 2025/src/day_05/solution.py:33-36 | the input `0-0` reads as the one range [0, 0] |
| Day05.ZeroRangeCounterexample | 2025/src/day_05/solution.py:30-45 | on `0-0`, part 2 as written answers 0 and the corrected sweep answers 1 |
| Day05.ZeroIdLost | 2025/src/day_05/solution.py:40-47 | the sweep from 0 over [0, 0] adds nothing, though the range covers one ID |
| Day05.CollectFields | 2025/src/day_05/solution.py:33-36 | the parsing loop collects the fields of every `-` line, or stops at the first error |
| Day05.SweepLoop | 2025/src/day_05/solution.py:39-47 | the loop over the sorted ranges computes the sweep |
| Day05.SolvePart2 | 2025/src/day_05/solution.py:25-49 | `solve_part_2` as written |
| Day05.SolvePart2Corrected | 2025/src/day_05/solution.py:25-49 | `solve_part_2` with `highest` starting at -1 |
| Day06.Column | src/day_06/solution.py:15 | `numbers[:, i]` holds the `i`-th number of every row |
| Day06.FoldMeaning | src/day_06/solution.py:16-18 | folding a column with `+` gives its sum, and with any other operator its product |
| Day06.ParseRowIff | src/day_06/solution.py:10 | a row converts exactly when every word is an integer, giving one number per word |
| Day06.Part1Errors | src/day_06/solution.py:7-15 | part 1 raises for a non-integer word exactly when some number row holds one; it raises a shape error exactly when the numbers parse but the rows are ragged, or there are more operators than columns; nothing else raises |
| Day06.ResultsMeaning | src/day_06/solution.py:13-19 | the per-operator results are the column totals |
| Day06.Part1Meaning | src/day_06/solution.py:6-21 | a successful part 1 is the sum over the operators of each column's sum or product |
| Day06.FoldColumn | src/day_06/solution.py:16-18 | the inner loop folds one column |
| Day06.ColumnResults | src/day_06/solution.py:13-19 | on a rectangular array, the loop raises a shape error exactly when there are operators but no number rows or more operators than columns, and otherwise lists the column results |
| Day06.SolvePart1 | src/day_06/solution.py:6-21 | `solve_part_1` as a method |
| Day06.ParseColumn | src/day_06/solution.py:62-63 | a column text whose stripped form is all digits is read as that number |
| Day06.StepErrors | src/day_06/solution.py:50-66 | one column raises `IndexError` past the end of the operator row or of a number row, `KeyError` on an unknown operator, and an unbound-variable error when a blank-operator column comes first; it succeeds in every other case |
| Day06.ScanStep | src/day_06/solution.py:50-66 | the column loop either stops at a column's error or moves on with the state that column leaves |
| Day06.BuildNumber | src/day_06/solution.py:57-59 | the inner loop joins the column's characters from the number rows, or raises past a short row |
| Day06.ProcessColumn | src/day_06/solution.py:52-66 | one turn of the column loop as a method |
| Day06.ScanColumns | src/day_06/solution.py:50-66 | the column loop as a method |
| Day06.Total | src/day_06/solution.py:68-71 | adds the last result to the grand total, or raises if no operator was ever read |
| Day06.SolveWorksheet | src/day_06/solution.py:35-71 | no lines raise `IndexError`; otherwise the column loop runs and then the last result is added |
| Day06.SolvePart2 | src/day_06/solution.py:23-71 | `solve_part_2` as a method |
| Day06.ScanCells | src/day_06/solution.py:50-66 | on a grid with no row shorter than the first, the column loop is a run over the columns' (operator, text) cells |
| Day06.RunAppend | src/day_06/solution.py:50-66 | running over two stretches of columns is running over the first and then the second |
| Day06.RunProblem | src/day_06/solution.py:52-63 | the columns of one problem (operator over its first column, digits in every column) leave the problem's sum or product as the running result |
| Day06.RunSeparator | src/day_06/solution.py:64-66 | a blank column adds the running result to the grand total |
| Day06.RunLayout | src/day_06/solution.py:50-69 | problems separated by single blank columns leave the grand total plus every problem's value |
| Day06.Part2Layout | src/day_06/solution.py:23-71 | on a worksheet laid out as problems separated by one blank column, part 2 is the sum of the problem values, as the docstring promises |
| Day06.WorksheetLayout | src/day_06/solution.py:35-71 | the same for the list of lines |
| Day06.Part2NoLines | src/day_06/solution.py:35-50 | empty input raises `IndexError` at `problems[0]` |
| Day07.StartFrom | 2025/src/day_07/solution.py:18-22 | no start is found exactly when no row holds `S`; otherwise the start is the leftmost `S` of the first row holding one |
| Day07.FindStart | 2025/src/day_07/solution.py:17-22 | the search loop finds that first `S` |
| Day07.NextInBounds | 2025/src/day_07/solution.py:47-62 | every beam of the next step lies within the manifold, and none follows the last row |
| Day07.BranchesAdd | 2025/src/day_07/solution.py:56-62 | each splitter hit adds the beams left and right of it on the row below, where those are inside |
| Day07.SplitsNone | 2025/src/day_07/solution.py:34 | with no active beams the loop adds nothing |
| Day07.SplitsStep | 2025/src/day_07/solution.py:34-64 | one step adds the number of distinct splitters hit and continues on the next row with the next beams |
| Day07.SplitsBounded | 2025/src/day_07/solution.py:34-64 | the splits counted from a row on never exceed the splitters on those rows, since each splitter is counted at most once |
| Day07.Part1NoStart | 2025/src/day_07/solution.py:16-24 | part 1 raises "No starting point found" exactly when no row holds `S` |
| Day07.Part1Bounded | 2025/src/day_07/solution.py:5-66 | part 1's answer is at most the number of splitters in the manifold |
| Day07.OnRowCard | 2025/src/day_07/solution.py:45-53 | tagging the splitter columns hit with their row keeps their number, as `split_events` holds `(x, y)` pairs of one row |
| Day07.ReachesBelow | 2025/src/day_07/solution.py:34-64 | a beam only reaches cells on its own row or below |
| Day07.ReachedStep | 2025/src/day_07/solution.py:34-64 | the splitters reachable from a row's beams are the splitters they hit on that row plus those reachable from the next row's beams |
| Day07.ReachedBelow | 2025/src/day_07/solution.py:34-64 | every splitter reachable from a row lies on that row or below |
| Day07.CountApart | 2025/src/day_07/solution.py:53 | this row's hits and the splitters below are disjoint, so their numbers add |
| Day07.ReachedCount | 2025/src/day_07/solution.py:34-64 | the number of splitters reachable from a row is this row's hits plus the number reachable from the next beams |
| Day07.ReachedNone | 2025/src/day_07/solution.py:34 | with no beams, or past the last row, no splitter is reachable |
| Day07.WideNeverRaises | 2025/src/day_07/solution.py:39-42 | when no row is shorter than the first, no beam inside the columns reads past the end of its row |
| Day07.SplitsReached | 2025/src/day_07/solution.py:34-64 | the splits counted from a row on are the number of distinct splitters reachable from its beams |
| Day07.Part1CountsReached | 2025/src/day_07/solution.py:5-66 | when no row is shorter than the first, part 1 is the number of distinct splitters reachable from the cell below `S` |
| Day07.Paths | 2025/src/day_07/solution.py:96-115 | the ways down from a cell: one once outside the manifold, both sides added at a splitter, the cell below otherwise; never fewer than one |
| Day07.AheadStep | 2025/src/day_07/solution.py:96-115 | the splits ahead of a cell: none outside, one plus both sides' at a splitter, the cell below's otherwise |
| Day07.TotalSame | 2025/src/day_07/solution.py:96 | sums of two maps that agree on the cells summed are equal |
| Day07.TotalZero | 2025/src/day_07/solution.py:96 | a sum of zeros is zero |
| Day07.WeightBelow | 2025/src/day_07/solution.py:93 | below the last row no split is ahead of any timeline |
| Day07.TotalPoint | 2025/src/day_07/solution.py:108-115 | raising one cell of a map by `d` raises its sum by `d` |
| Day07.ScaledAddTo | 2025/src/day_07/solution.py:108-115 | adding `count` timelines to a cell adds `count` times that cell's factor to a weighted sum |
| Day07.ScaledAddIf | 2025/src/day_07/solution.py:107-110 | a guarded addition adds that amount exactly when its guard holds |
| Day07.ScaledSplit | 2025/src/day_07/solution.py:104-110 | a splitter above a row adds its count times the factors of the cells left and right of it that are inside |
| Day07.ScaledDeliver | 2025/src/day_07/solution.py:97-115 | what one beam adds to the timelines now plus what it sends down is its count times its cell's factor |
| Day07.WeightDeliver | 2025/src/day_07/solution.py:97-115 | one beam's timelines added now plus the splits ahead of what it sends down equal its count times the splits ahead of its cell |
| Day07.StepWeight | 2025/src/day_07/solution.py:96-115 | over the beams of one row, the timelines added now plus the splits ahead of the next dictionary equal the splits ahead of this row |
| Day07.PlusSuccess | 2025/src/day_07/solution.py:91-103 | adding to a count that succeeds gives the sum |
| Day07.TimelinesWeight | 2025/src/day_07/solution.py:93-117 | when no row is shorter than the first, the loop from a row on adds each timeline's splits ahead |
| Day07.FirstWeight | 2025/src/day_07/solution.py:90-91 | the one timeline below `S`, plus the one counted at the start, is the number of ways down from there |
| Day07.Part2CountsPaths | 2025/src/day_07/solution.py:69-119 | when no row is shorter than the first, part 2 is the number of ways down from the cell below `S` |
| Day07.Pick | 2025/src/day_07/solution.py:38 | taking a beam out of the active set for the `for` loop, in some order |
| Day07.ScanAdd | 2025/src/day_07/solution.py:38-50 | visiting one more beam adds it to the hits if it is on a splitter, to the straight beams if it passes, and raises if its cell is past the end of its row |
| Day07.Scan | 2025/src/day_07/solution.py:38-50 | the first inner loop raises exactly when some beam's cell is past the end of its row, and otherwise collects the splitters hit and the beams passing down |
| Day07.Branch | 2025/src/day_07/solution.py:56-62 | the second inner loop adds the split beams to the straight ones |
| Day07.Step | 2025/src/day_07/solution.py:35-64 | one turn of `while active` gives the number of splitters hit and the next beams, or raises |
| Day07.PropagateRow | 2025/src/day_07/solution.py:34-64 | one turn keeps the loop invariant: splits so far plus the rest still equal the total |
| Day07.Propagate | 2025/src/day_07/solution.py:34-66 | the `while active` loop computes the splits from the current row on |
| Day07.SolvePart1 | 2025/src/day_07/solution.py:5-66 | `solve_part_1` as a method |
| Day07.TotalRemove | 2025/src/day_07/solution.py:96-115 | the timelines over a set of beams is one beam's count plus the rest |
| Day07.TotalAtLeastSize | 2025/src/day_07/solution.py:96-115 | beams with at least one timeline each hold at least as many timelines as there are beams |
| Day07.ArrivingOutside | 2025/src/day_07/solution.py:104-115 | a cell no beam moves to receives no timelines |
| Day07.SpreadPositive | 2025/src/day_07/solution.py:104-115 | every cell of the next dictionary holds at least one timeline |
| Day07.NextAdd | 2025/src/day_07/solution.py:101-115 | the cells reached from one more beam are those reached before plus that beam's own |
| Day07.ArrivingAdd | 2025/src/day_07/solution.py:108-115 | one more beam adds its count to each cell it feeds |
| Day07.DeliverAt | 2025/src/day_07/solution.py:104-115 | one visit creates exactly the cells the beam feeds, each gaining the beam's count via `get(.., 0) + count` |
| Day07.SpreadAdd | 2025/src/day_07/solution.py:96-115 | the next dictionary built beam by beam is the timelines arriving at each cell |
| Day07.TimelinesStep | 2025/src/day_07/solution.py:93-117 | one step adds the timelines standing on splitters and continues with the spread counts |
| Day07.TimelinesCoverSplits | 2025/src/day_07/solution.py:34-117 | part 2's loop raises exactly when part 1's does, and adds at least as much |
| Day07.Part2NoStart | 2025/src/day_07/solution.py:82-90 | part 2 raises the `None + 1` `TypeError` exactly when no row holds `S` |
| Day07.Part2CoversPart1 | 2025/src/day_07/solution.py:5-119 | both parts fail on the same inputs, and the timelines are at least one more than the splits |
| Day07.HitsTotalAdd | 2025/src/day_07/solution.py:101-103 | the timelines on splitters grow by one beam's count when that beam is on a splitter |
| Day07.Visit | 2025/src/day_07/solution.py:96-115 | one beam of part 2 raises past the end of its row, and otherwise adds its count if on a splitter and delivers it to the cells it feeds |
| Day07.StepTimelines | 2025/src/day_07/solution.py:94-117 | one turn of part 2's loop adds the timelines on splitters and builds the next dictionary, or raises |
| Day07.Flow | 2025/src/day_07/solution.py:93-117 | part 2's `while active` loop computes the timelines from the current row on |
| Day07.SolvePart2 | 2025/src/day_07/solution.py:69-119 | `solve_part_2` as a method |
| Day08.ParseFields | src/day_08/solution.py:15 | the fields convert exactly when every one is an integer, giving their values in order |
| Day08.ParseLine | src/day_08/solution.py:13-17 | a line parses exactly when it has three comma fields, all integers, giving those values; it raises the `int` error exactly when some field is not an integer, and otherwise the arity assertion |
| Day08.ParseInput | src/day_08/solution.py:9-11 | a parsed input has one position per line of the stripped text, and at least one |
| Day08.Distance | src/day_08/solution.py:19-21 | the squared distance is never negative, and is 0 exactly for equal positions |
| Day08.DistanceSymmetric | src/day_08/solution.py:19-21 | the distance from `a` to `b` equals the distance from `b` to `a` |
| Day08.PairCountFormula | src/day_08/solution.py:25 | there are n(n-1)/2 combinations of n positions |
| Day08.IndexPairs | src/day_08/solution.py:25 | `itertools.combinations` yields every pair `i < j` exactly once, in lexicographic order |
| Day08.Combinations | src/day_08/solution.py:25 | there are n(n-1)/2 pairs of positions |
| Day08.SortedIndexPairsSorted | src/day_08/solution.py:23-25 | the sorted pairs are a permutation of the combinations, ordered by distance, and stable: equal distances keep the combinations' order |
| Day08.SortByDistanceSpec | src/day_08/solution.py:23-25 | every pair `i < j` occurs exactly once, and a pair comes earlier when it is closer, or equally close and earlier in combination order |
| Day08.SortByDistanceEndpoints | src/day_08/solution.py:23-25 | the sorted pairs join input positions and include the pair of the first position with every other |
| Day08.Limit | src/day_08/solution.py:27-31 | ten joins for a twenty-box input, a thousand otherwise |
| Day08.InitialLabels | src/day_08/solution.py:55-68 | every position gets the index of its last occurrence, so distinct positions get distinct labels |
| Day08.Relabel | src/day_08/solution.py:33-39 | `_connect` keeps the keys, gives both ends the first end's label, and changes nothing when they already share one |
| Day08.RelabelJoins | src/day_08/solution.py:33-39 | after `_connect(a, b)` two boxes share a label exactly when they did before, or one was in `a`'s circuit and the other in `b`'s |
| Day08.RelabelCircuits | src/day_08/solution.py:33-39 | joining two different circuits removes `b`'s label and leaves one circuit fewer |
| Day08.Circuits.constructor | src/day_08/solution.py:55-68 | the dictionary holds each distinct position once, in first-insertion order, labelled as the comprehension does |
| Day08.Circuits.Connect | src/day_08/solution.py:33-39 | the loop over the keys relabels `b`'s circuit in place and leaves the keys as they were |
| Day08.ConnectEach | src/day_08/solution.py:57-58 | the part 1 loop applies `_connect` to every connection in order |
| Day08.ConnectAllCircuits | src/day_08/solution.py:57-58 | after the joins there are as many circuits as before minus the joins that merged two |
| Day08.ConnectAllKeepsJoined | src/day_08/solution.py:57-58 | boxes in one circuit stay in one circuit |
| Day08.ConnectAllJoins | src/day_08/solution.py:57-58 | after the joins, the two ends of every joined pair share a circuit |
| Day08.CircuitSizes | src/day_08/solution.py:43 | the `Counter` of labels has one positive size per circuit, and the sizes add up to the number of boxes |
| Day08.Largest | src/day_08/solution.py:44-46 | `sorted(..., reverse=True)[:t]` keeps `t` sizes, in decreasing order, drawn from the sizes, and none left out is larger |
| Day08.TopThree | src/day_08/solution.py:41-46 | `_top_3` gives the three largest circuit sizes (fewer if there are fewer circuits) |
| Day08.TopThreePositive | src/day_08/solution.py:41-46 | there is a top size exactly when there is a box, and every size is positive |
| Day08.Score | src/day_08/solution.py:48-50 | with at least one box the score is the product of the top sizes and at least 1; with none `reduce` has nothing to reduce |
| Day08.AreConnected | src/day_08/solution.py:61-63 | `_are_connected` holds exactly when there is a box and every box has the same label |
| Day08.AreConnectedCount | src/day_08/solution.py:61-63 | that is the same as exactly one distinct label |
| Day08.Connections | src/day_08/solution.py:56 | part 1 joins the first `min(limit, n(n-1)/2)` closest pairs |
| Day08.Part1Circuits | src/day_08/solution.py:52-59 | part 1 ends with as many circuits as distinct boxes minus the merging joins |
| Day08.Part1SizesPartition | src/day_08/solution.py:43-59 | the circuit sizes of part 1 partition the distinct boxes |
| Day08.InitialCircuits | src/day_08/solution.py:55 | before any join each distinct box is its own circuit |
| Day08.SolvePart1 | src/day_08/solution.py:52-59 | `solve_part_1` as a method over the `Circuits` object |
| Day08.BridgeNone | src/day_08/solution.py:70-76 | no closing pair is found exactly when no prefix of the joins leaves one circuit |
| Day08.BridgeFirst | src/day_08/solution.py:71-75 | the closing pair is the first whose join leaves one circuit |
| Day08.AllJoinedConnect | src/day_08/solution.py:65-76 | joins that link every box to the first leave one circuit |
| Day08.AllPairsConnect | src/day_08/solution.py:69-72 | joining every sorted pair leaves one circuit |
| Day08.BridgeExists | src/day_08/solution.py:71-76 | if all the joins together leave one circuit, some join closes it |
| Day08.Part2Answered | src/day_08/solution.py:65-77 | part 2 finds its pair exactly when there are at least two boxes; otherwise the assertion fails |
| Day08.FindConnecting | src/day_08/solution.py:70-75 | the part 2 loop, over the `Circuits` object, stops at the first join that leaves one circuit |
| Day08.SolvePart2 | src/day_08/solution.py:65-77 | `solve_part_2` as a method |
| Text.ParseInt | src/day_08/solution.py:15 | `int(text)` accepts exactly optional surrounding whitespace, an optional sign, and digits with single underscores between them |
| Text.IntRoundTrip | 2025/src/day_02/solution_improved.py:64 | `int(str(n)) == n` |
| Text.SplitJoin | src/day_08/solution.py:11 | splitting a text joined by a separator the parts lack gives back the parts |
| Text.JoinSplit | src/day_08/solution.py:11 | joining the parts of a split gives back the text |
| Sorting.SortSorted | src/day_08/solution.py:25 | the insertion sort standing in for `sorted` orders by any total preorder |
| Sorting.SortStable | src/day_08/solution.py:25 | and keeps equal elements in their input order, as Python's sort does |
| Wrappers.MapResultFirstFailure | src/day_08/solution.py:11 | a list comprehension raises the exception of its first failing element |

## Left out

- Reading input files, `main`, the `__main__` blocks, `print` and `logging`
  are left out. This covers `load_input`, `validate_input_file`, the debug
  prints of `2025/src/day_01/solution.py` and the numpy version print of
  `src/day_06/solution.py`. Each solver is modelled as a function of the input
  text.
- The setup scripts, the command-line tool and the test files are not part of
  this model. They fetch and write files and read the clock.
- `int()` and `str.isdigit` accept only ASCII digits here. Python also accepts
  other Unicode digits. Whitespace for `strip`, `splitlines` and `int()`
  follows Python's Unicode set.
- Day 6 part 1 uses numpy `int64` arrays, which wrap around at 64 bits. The
  model uses unbounded integers.
- Day 6 part 1 raises different numpy errors for ragged rows and for more
  operators than columns. The model reports both as one `BadShape` error.
- Day 2: the `except Exception: continue` around each range in
  `2025/src/day_02/solution_improved.py` is a no-op here, because the
  detectors never raise.
- Day 2: the generator `generate_numbers_in_range` is modelled as the sequence
  it yields.
- Day 2: the `logging` calls in `DataProcessor.parse_ranges` are left out.
- Day 4 grids are Python lists that are updated in place. They are modelled as
  sequence values that each round reassigns. A local list has no other
  reference, so no aliasing is lost.
- Day 5 part 2 checks that every parsed line has two fields before sorting. Python
  does this while unpacking each sorted line. Either way the error is the same
  `ValueError` with no payload, and every line is reached. So the outcome is
  the same.
- Day 7 stores active beams as a set of `(x, y)` pairs. All active beams lie on
  one row, so the model keeps a set of columns and takes the row from the loop.
- Set iteration order in day 7 is not modelled: `Pick` takes any element, and
  every result is proved for every order.
- Day 8 keeps the insertion order of the `circuits` dictionary as a sequence of
  keys beside the map.
- Day 8: the return annotation of `sort_by_distance` names `tuples`, which is
  undefined. Annotations are not behaviour, so this is left out.
- Sorting is a stable insertion sort. It gives the same order as Python's
  `sorted` and `list.sort`, but not the same running time.
- Day03.BankValueFails, Day03.BankValueLong and Day03.BankValueLargest require
  a digit count of at least 1. The source always keeps 12 digits, and a count of
  0 would make it call `int("")`.
- Day06.Part2Layout: the theorem covers worksheets whose problems are
  separated by exactly one blank column. Two blank columns in a row would add
  the running result twice. The scan itself models that case as written.
- Day05.Part2CorrectedCountsUnion: the theorem covers only ranges with start ≤ end. A reversed range such as `5-3` covers no ID, but both sweeps add `end - start + 1 = -1` for it (`Day05.ReversedRangeSubtracts`). The sweep models that case as written. Part 1 treats such a range as covering nothing.
- Day05.SweepFromBelowCountsUnion and Day05.Part2CountsFromOne: the same restriction to ranges with start ≤ end, for the same reason.
- Day01.Upper: uppercases ASCII letters only. Python's `.upper()` also maps other letters, such as `ß` to `SS` and `ı` to `I`. Only the text carried by the `InvalidOperation` error differs; whether a line turns left or right does not.
- Day 3 part 1: its docstring speaks of a sum, but the code concatenates the two
  digits. The model follows the code (`Day03.ConcatenatesDigits`).

## Findings

| source | as written | input that shows it | evidently intended | confidence | as-written member | corrected member |
|---|---|---|---|---|---|---|
| 2025/src/day_01/solution.py:9-22 | part 1 wraps a left turn below 0 to `99 + (v - c)`, which is one short, and wraps a right turn above 99 by subtracting 100 once | from 50: `L51` then `L99` reaches 0 but is not counted; `R150` reaches 0 but the value becomes 100 | the position is `(v ∓ c) mod 100`, as in the improved solution and in part 2 | not executed | Day01Original.LeftWrapCounterexample | Day01.SolvePart1Optimized |
| 2025/src/day_05/solution.py:30 | part 2 starts `highest` at 0, so ID 0 is never counted | `0-0` answers 0 | the number of distinct IDs in the ranges, 1 here | not executed | Day05.ZeroRangeCounterexample | Day05.Part2CorrectedCountsUnion |
