/**
 * Day 2, improved solution: the input is a comma-separated list of ID ranges
 * "start-end". An ID is invalid when its decimal digits are one block written
 * exactly twice (part 1) or written two or more times (part 2); each part sums
 * the invalid IDs of every range.
 */
module Day02 {

  import opened Wrappers
  import opened Text
  import opened Seqs

  /** The `ValueError`s the solver raises, with what their messages embed. */
  datatype Error =
    | StartAfterEnd(start: int, end: int)         // Range.__post_init__
    | NegativeStart(start: int)                   // Range.__post_init__
    | InvalidFormat(text: string)                 // Range.from_string
    | EmptyInput                                  // parse_ranges on blank input
    | InvalidRange(position: nat, text: string)   // parse_ranges, fields numbered from 1

  // ---------------------------------------------------------------------------
  // Range

  /** The fields of the frozen dataclass `Range`; `NewRange` is its validating constructor. */
  datatype Range = Range(start: int, end: int)

  predicate ValidRange(r: Range)
  {
    0 <= r.start <= r.end
  }

  /** `Range(start, end)`: `__post_init__` refuses a start after the end, then a negative start. */
  function NewRange(start: int, end: int): (r: Result<Range, Error>)
    ensures r.Success? <==> ValidRange(Range(start, end))
    ensures r.Success? ==> r.value == Range(start, end)
    ensures start > end ==> r == Failure(StartAfterEnd(start, end))
    ensures start <= end && start < 0 ==> r == Failure(NegativeStart(start))
  {
    if start > end then Failure(StartAfterEnd(start, end))
    else if start < 0 then Failure(NegativeStart(start))
    else Success(Range(start, end))
  }

  /** `Range.contains`. */
  predicate Contains(r: Range, value: int)
  {
    r.start <= value <= r.end
  }

  /** `generate_numbers_in_range`: the values from `start` to `end` inclusive, ascending. */
  function Numbers(r: Range): (s: seq<int>)
    ensures |s| == if r.start <= r.end then r.end - r.start + 1 else 0
    ensures forall i | 0 <= i < |s| :: s[i] == r.start + i
    ensures forall v :: v in s <==> Contains(r, v)
  {
    if r.start <= r.end then
      var s := seq(r.end - r.start + 1, i => r.start + i);
      assert forall v | Contains(r, v) :: s[v - r.start] == v;
      s
    else []
  }

  /** `Range.from_string`: split the stripped text at its first '-', read both ends, validate. */
  function FromString(rangeStr: string): (r: Result<Range, Error>)
    ensures r.Success? ==> ValidRange(r.value)
    ensures r.Failure? ==> r.error == InvalidFormat(rangeStr)
    ensures r.Success? <==> var parts := SplitOnce(Strip(rangeStr), '-');
                            && |parts| == 2 && ParseInt(parts[0]).Some? && ParseInt(parts[1]).Some?
                            && ValidRange(Range(ParseInt(parts[0]).value, ParseInt(parts[1]).value))
    ensures r.Success? ==> var parts := SplitOnce(Strip(rangeStr), '-');
                           r.value == Range(ParseInt(parts[0]).value, ParseInt(parts[1]).value)
  {
    var parts := SplitOnce(Strip(rangeStr), '-');
    if |parts| != 2 then Failure(InvalidFormat(rangeStr))
    else
      match (ParseInt(parts[0]), ParseInt(parts[1]))
      case (Some(start), Some(end)) =>
        if NewRange(start, end).Success? then NewRange(start, end) else Failure(InvalidFormat(rangeStr))
      case _ => Failure(InvalidFormat(rangeStr))
  }

  /** The text "start-end" of a range. */
  function RangeText(r: Range): string
    requires ValidRange(r)
  {
    NatToString(r.start) + "-" + NatToString(r.end)
  }

  /** Splitting `a + "-" + b` at its first '-' gives `a` and `b` when `a` holds no '-'. */
  lemma SplitOnceAt(a: string, b: string)
    requires '-' !in a
    ensures SplitOnce(a + "-" + b, '-') == [a, b]
  {
    var s := a + "-" + b;
    assert s == a + ['-'] + b;
    FindAfterFree(a, '-', b);
    assert s[..|a|] == a && s[|a| + 1..] == b;
  }

  lemma DigitsHaveNoSeparator(s: string, c: char)
    requires IsDigitString(s) && !IsDigit(c)
    ensures c !in s
  {
  }

  /** `from_string` reads back the text of a valid range. */
  lemma FromStringRoundTrip(r: Range)
    requires ValidRange(r)
    ensures FromString(RangeText(r)) == Success(r)
  {
    var a := NatToString(r.start);
    var b := NatToString(r.end);
    var s := RangeText(r);
    DigitsHaveNoSeparator(a, '-');
    assert s[0] == a[0] && s[|s| - 1] == b[|b| - 1];
    StripUnpadded(s);
    SplitOnceAt(a, b);
    ParseDigits(a);
    ParseDigits(b);
  }

  // ---------------------------------------------------------------------------
  // InvalidIDDetector

  /** `block * count` in Python: `count` copies of `block`, one after another. */
  function Repeat(block: string, count: nat): (s: string)
    ensures |s| == |block| * count
  {
    if count == 0 then [] else block + Repeat(block, count - 1)
  }

  /** A repetition starts with its block. */
  lemma RepeatPrefix(block: string, count: nat)
    requires count >= 1
    ensures Repeat(block, count)[..|block|] == block
  {
  }

  /** The part 1 test on the decimal text: even length and equal halves. */
  predicate DoubleRepetition(s: string)
  {
    |s| % 2 == 0 && s[..|s| / 2] == s[|s| / 2..]
  }

  /** `is_invalid_double_repetition`: the decimal text has even length and equal halves. */
  predicate IsInvalidDoubleRepetition(number: int)
  {
    DoubleRepetition(IntToString(number))
  }

  /** The halves test finds exactly the texts that are some block written twice. */
  lemma DoubleRepetitionIff(number: int)
    ensures IsInvalidDoubleRepetition(number) <==> exists block :: IntToString(number) == Repeat(block, 2)
  {
    var strNum := IntToString(number);
    if |strNum| % 2 != 0 {
      assert forall block :: |Repeat(block, 2)| % 2 == 0;
    } else {
      var firstHalf := strNum[..|strNum| / 2];
      var secondHalf := strNum[|strNum| / 2..];
      if firstHalf == secondHalf {
        assert strNum == Repeat(firstHalf, 2);
      }
    }
  }

  /** `substring * (len // k) == text` for a block length `k` the part 2 loop tries. */
  predicate BlockRepeats(s: string, k: int)
  {
    1 <= k <= |s| / 2 && |s| % k == 0 && s == Repeat(s[..k], |s| / k)
  }

  /** Some block length from `k` up to half the length repeats, trying the lengths in turn. */
  predicate RepeatsFrom(s: string, k: nat)
    decreases |s| / 2 + 1 - k
  {
    if k < 1 || k > |s| / 2 then false else BlockRepeats(s, k) || RepeatsFrom(s, k + 1)
  }

  /** The part 2 test on the decimal text: some tried block length repeats. */
  predicate MultipleRepetition(s: string)
  {
    RepeatsFrom(s, 1)
  }

  /** Trying the lengths in turn finds one exactly when one exists. */
  lemma {:induction false} RepeatsFromIff(s: string, k: nat)
    requires k >= 1
    ensures RepeatsFrom(s, k) <==> exists j | k <= j <= |s| / 2 :: BlockRepeats(s, j)
    decreases |s| / 2 + 1 - k
  {
    if k <= |s| / 2 {
      RepeatsFromIff(s, k + 1);
    }
  }

  /** The text is some non-empty block written two or more times. */
  ghost predicate RepeatedBlock(s: string)
  {
    exists block, count | block != [] && count >= 2 :: s == Repeat(block, count)
  }

  lemma DivOfProduct(a: int, b: int)
    requires a >= 1 && b >= 0
    ensures (a * b) / a == b && (a * b) % a == 0
  {
    var q, r := (a * b) / a, (a * b) % a;
    assert a * b == a * q + r && 0 <= r < a;
    assert a * (b - q) == r;
  }

  /** The block lengths the loop tries find every repeated block: the two tests agree. */
  lemma MultipleRepetitionIff(s: string)
    ensures MultipleRepetition(s) <==> RepeatedBlock(s)
  {
    RepeatsFromIff(s, 1);
    if MultipleRepetition(s) {
      var k :| 1 <= k <= |s| / 2 && BlockRepeats(s, k);
      FoundBlock(s, k);
    }
    if RepeatedBlock(s) {
      var block, count :| block != [] && count >= 2 && s == Repeat(block, count);
      BlockIsTried(s, block, count);
    }
  }

  /** A block length that repeats shows a block written at least twice. */
  lemma FoundBlock(s: string, k: int)
    requires BlockRepeats(s, k)
    ensures RepeatedBlock(s)
  {
    var block, count := s[..k], |s| / k;
    assert count >= 2 by {
      assert |s| == k * count + |s| % k;
    }
    assert block != [] && s == Repeat(block, count);
  }

  /** A block written `count >= 2` times is found at block length `|block|`. */
  lemma BlockIsTried(s: string, block: string, count: int)
    requires block != [] && count >= 2 && s == Repeat(block, count)
    ensures 1 <= |block| <= |s| / 2 && BlockRepeats(s, |block|)
  {
    var k := |block|;
    DivOfProduct(k, count);
    assert |s| / k == count;
    RepeatPrefix(block, count);
    assert s[..k] == block;
    assert k <= |s| / 2 by {
      assert |s| == k * count >= k * 2;
    }
  }

  /** `substring * repetitions == str_num and repetitions >= 2` for block length `k` with `k` dividing the length. */
  lemma TriedBlock(s: string, k: int)
    requires 1 <= k <= |s| / 2 && |s| % k == 0
    ensures BlockRepeats(s, k) <==> s == Repeat(s[..k], |s| / k) && |s| / k >= 2
  {
  }

  /**
   * The loop of `is_invalid_multiple_repetition`: tries every block length up
   * to half the length that divides it, and answers whether the text is a
   * block written two or more times.
   */
  method HasRepeatedBlock(strNum: string) returns (r: bool)
    ensures r <==> MultipleRepetition(strNum)
  {
    var length := |strNum|;
    RepeatsFromIff(strNum, 1);
    for substringLength := 1 to length / 2 + 1
      invariant forall k | 1 <= k < substringLength :: !BlockRepeats(strNum, k)
    {
      if length % substringLength == 0 {
        var substring := strNum[..substringLength];
        var repetitions := length / substringLength;
        TriedBlock(strNum, substringLength);
        if Repeat(substring, repetitions) == strNum && repetitions >= 2 {
          return true;
        }
      }
    }
    return false;
  }

  /** `is_invalid_multiple_repetition`: the test on the decimal text of the ID. */
  method IsInvalidMultipleRepetition(number: int) returns (r: bool)
    ensures r <==> MultipleRepetition(IntToString(number))
  {
    r := HasRepeatedBlock(IntToString(number));
  }

  /** Every ID part 1 calls invalid, part 2 does too: block length `len // 2` is among those tried. */
  lemma DoubleIsMultiple(number: int)
    ensures IsInvalidDoubleRepetition(number) ==> MultipleRepetition(IntToString(number))
  {
    var s := IntToString(number);
    if IsInvalidDoubleRepetition(number) {
      DoubleRepetitionIff(number);
      var block :| s == Repeat(block, 2);
      assert block != [];
      MultipleRepetitionIff(s);
      assert RepeatedBlock(s);
    }
  }

  /** Examples from `is_invalid_double_repetition`'s documentation that are repetitions. */
  lemma DoubleExamples()
    ensures IsInvalidDoubleRepetition(55) && IsInvalidDoubleRepetition(6464)
  {
    assert IntToString(55) == "55";
    assert IntToString(6464) == "6464";
  }

  /** Examples from `is_invalid_double_repetition`'s documentation that are not. */
  lemma NonDoubleExamples()
    ensures !IsInvalidDoubleRepetition(123) && !IsInvalidDoubleRepetition(1234)
  {
    assert NatToString(1) == "1" && NatToString(12) == "12" && NatToString(123) == "123";
    assert IntToString(123) == "123";
    assert NatToString(1234) == "1234";
    assert IntToString(1234) == "1234";
  }

  /** Examples from `is_invalid_multiple_repetition`'s documentation that are repetitions. */
  lemma MultipleExamples()
    ensures MultipleRepetition(IntToString(55)) && MultipleRepetition(IntToString(123123))
  {
    assert IntToString(55) == "55";
    assert BlockRepeats("55", 1);
    assert IntToString(123123) == "123123";
    assert BlockRepeats("123123", 3);
  }

  /** Examples from `is_invalid_multiple_repetition`'s documentation that are not. */
  lemma NonRepetitionExamples()
    ensures !MultipleRepetition(IntToString(1234)) && !MultipleRepetition(IntToString(123))
  {
    assert IntToString(1234) == "1234";
    assert Repeat("1", 2) == "11";
    assert Repeat("1", 4)[1] == '1';
    assert Repeat("12", 2)[2] == '1';
    assert IntToString(123) == "123";
    assert Repeat("1", 3)[1] == '1';
  }

  // ---------------------------------------------------------------------------
  // DataProcessor.parse_ranges

  /** One comma field with its 1-based position: the range, or the error that names the position. */
  function ParseField(field: (nat, string)): (r: Result<Range, Error>)
    ensures r.Success? ==> ValidRange(r.value)
  {
    match FromString(field.1)
    case Failure(_) => Failure(InvalidRange(field.0, field.1))
    case Success(range) => Success(range)
  }

  /** `enumerate(fields)` with positions counted from 1. */
  function Numbered(fields: seq<string>): (r: seq<(nat, string)>)
    ensures |r| == |fields|
    ensures forall i | 0 <= i < |fields| :: r[i] == (i + 1, fields[i])
  {
    seq(|fields|, i requires 0 <= i < |fields| => (i + 1, fields[i]))
  }

  /** What `parse_ranges` returns or raises. */
  function RangesOf(data: string): (r: Result<seq<Range>, Error>)
    ensures Strip(data) == [] ==> r == Failure(EmptyInput)
    ensures r.Success? ==> forall i | 0 <= i < |r.value| :: ValidRange(r.value[i])
    ensures r.Success? ==> |r.value| == |Split(Strip(data), ',')|
  {
    if Strip(data) == [] then Failure(EmptyInput)
    else MapResult(ParseField, Numbered(Split(Strip(data), ',')))
  }

  /** Every field parses: the list of their ranges. */
  lemma NumberedSuccess<T>(parse: ((nat, string)) -> Result<T, Error>, fields: seq<string>, ranges: seq<T>)
    requires |ranges| == |fields|
    requires forall j | 0 <= j < |fields| :: parse((j + 1, fields[j])) == Success(ranges[j])
    ensures MapResult(parse, Numbered(fields)) == Success(ranges)
  {
    MapResultAllSuccess(parse, Numbered(fields), ranges);
  }

  /** Field `i` is the first that does not parse: its error. */
  lemma NumberedFailure<T>(parse: ((nat, string)) -> Result<T, Error>, fields: seq<string>, i: int)
    requires 0 <= i < |fields| && parse((i + 1, fields[i])).Failure?
    requires forall j | 0 <= j < i :: parse((j + 1, fields[j])).Success?
    ensures MapResult(parse, Numbered(fields)) == Failure(parse((i + 1, fields[i])).error)
  {
    var numbered := Numbered(fields);
    assert FirstFailure(parse, numbered, i);
    MapResultFirstFailure(parse, numbered, i);
  }

  /**
   * The loop of `parse_ranges` over the comma fields, for `parse` the
   * `try`/`except` around `Range.from_string` (`ParseField`).
   */
  method ParseFields<T>(rangeStrings: seq<string>, parse: ((nat, string)) -> Result<T, Error>) returns (r: Result<seq<T>, Error>)
    ensures r == MapResult(parse, Numbered(rangeStrings))
  {
    var ranges: seq<T> := [];
    for i := 0 to |rangeStrings|
      invariant |ranges| == i
      invariant forall j | 0 <= j < i :: parse((j + 1, rangeStrings[j])) == Success(ranges[j])
    {
      var rangeObj := parse((i + 1, rangeStrings[i]));
      if rangeObj.Failure? {
        NumberedFailure(parse, rangeStrings, i);
        return rangeObj.PropagateFailure();
      }
      ranges := ranges + [rangeObj.value];
    }
    NumberedSuccess(parse, rangeStrings, ranges);
    return Success(ranges);
  }

  /** `parse_ranges`: one `Range` per comma field, in order, or the error of the first bad field. */
  method ParseRanges(data: string) returns (r: Result<seq<Range>, Error>)
    ensures r == RangesOf(data)
  {
    if Strip(data) == [] {
      return Failure(EmptyInput);
    }
    r := ParseFields(Split(Strip(data), ','), ParseField);
  }

  /** The text of a list of ranges, comma-separated. */
  function RangesText(ranges: seq<Range>): (s: string)
    requires forall i | 0 <= i < |ranges| :: ValidRange(ranges[i])
  {
    Join(seq(|ranges|, i requires 0 <= i < |ranges| => RangeText(ranges[i])), ',')
  }

  lemma {:induction false} JoinEnds(parts: seq<string>, sep: char)
    requires parts != [] && forall i | 0 <= i < |parts| :: parts[i] != []
    ensures Join(parts, sep) != []
    ensures Join(parts, sep)[0] == parts[0][0]
    ensures Join(parts, sep)[|Join(parts, sep)| - 1] == parts[|parts| - 1][|parts[|parts| - 1]| - 1]
  {
    if |parts| > 1 {
      var tail := parts[1..];
      JoinEnds(tail, sep);
      var rest := Join(tail, sep);
      var whole := parts[0] + [sep] + rest;
      assert Join(parts, sep) == whole;
      assert whole[|whole| - 1] == rest[|rest| - 1];
    }
  }

  /** `parse_ranges` reads back the text of a non-empty list of valid ranges. */
  lemma ParseRangesRoundTrip(ranges: seq<Range>)
    requires ranges != [] && forall i | 0 <= i < |ranges| :: ValidRange(ranges[i])
    ensures RangesOf(RangesText(ranges)) == Success(ranges)
  {
    var parts := seq(|ranges|, i requires 0 <= i < |ranges| => RangeText(ranges[i]));
    var text := RangesText(ranges);
    forall i | 0 <= i < |parts| ensures parts[i] != [] && ',' !in parts[i] && IsDigit(parts[i][0]) && IsDigit(parts[i][|parts[i]| - 1]) {
      var a := NatToString(ranges[i].start);
      var b := NatToString(ranges[i].end);
      DigitsHaveNoSeparator(a, ',');
      DigitsHaveNoSeparator(b, ',');
      assert parts[i] == a + "-" + b;
    }
    JoinEnds(parts, ',');
    StripUnpadded(text);
    SplitJoin(parts, ',');
    var numbered := Numbered(parts);
    forall i | 0 <= i < |parts| ensures ParseField(numbered[i]) == Success(ranges[i]) {
      FromStringRoundTrip(ranges[i]);
    }
    MapResultAllSuccess(ParseField, numbered, ranges);
  }

  // ---------------------------------------------------------------------------
  // Solution

  /** `[n for n in range(lo, hi + 1) if invalid(n)]`, ascending. */
  function RangeIds(lo: int, hi: int, invalid: int -> bool): seq<int>
    decreases hi - lo
  {
    if lo > hi then [] else RangeIds(lo, hi - 1, invalid) + (if invalid(hi) then [hi] else [])
  }

  predicate Increasing(s: seq<int>)
  {
    forall i, j | 0 <= i < j < |s| :: s[i] < s[j]
  }

  lemma RangeIdsNext(lo: int, hi: int, invalid: int -> bool)
    requires lo <= hi
    ensures RangeIds(lo, hi, invalid) == RangeIds(lo, hi - 1, invalid) + (if invalid(hi) then [hi] else [])
  {
  }

  /** The IDs kept from a range are exactly its invalid numbers, each once, in ascending order. */
  lemma {:induction false} RangeIdsMembers(lo: int, hi: int, invalid: int -> bool)
    ensures forall v :: v in RangeIds(lo, hi, invalid) <==> lo <= v <= hi && invalid(v)
    ensures Increasing(RangeIds(lo, hi, invalid))
    decreases hi - lo
  {
    if lo <= hi {
      RangeIdsMembers(lo, hi - 1, invalid);
      var s := RangeIds(lo, hi, invalid);
      var t := RangeIds(lo, hi - 1, invalid);
      assert s == t + (if invalid(hi) then [hi] else []);
      forall i, j | 0 <= i < j < |s| ensures s[i] < s[j] {
        if j >= |t| {
          assert s[i] == t[i] && t[i] in t;
        } else {
          assert s[i] == t[i] && s[j] == t[j];
        }
      }
    }
  }

  /** The invalid IDs of each range in turn; an ID in two ranges is listed twice. */
  function InvalidIds(ranges: seq<Range>, invalid: int -> bool): seq<int>
  {
    if ranges == [] then []
    else
      var last := ranges[|ranges| - 1];
      InvalidIds(ranges[..|ranges| - 1], invalid) + RangeIds(last.start, last.end, invalid)
  }

  /** The sum over a list of ranges is the sum over its parts. */
  lemma {:induction false} InvalidIdsAppend(a: seq<Range>, b: seq<Range>, invalid: int -> bool)
    ensures Sum(InvalidIds(a + b, invalid)) == Sum(InvalidIds(a, invalid)) + Sum(InvalidIds(b, invalid))
    decreases |b|
  {
    if b == [] {
      assert a + b == a;
    } else {
      var last := b[|b| - 1];
      assert (a + b)[..|a + b| - 1] == a + b[..|b| - 1];
      InvalidIdsAppend(a, b[..|b| - 1], invalid);
      SumAppend(InvalidIds(a + b[..|b| - 1], invalid), RangeIds(last.start, last.end, invalid));
      SumAppend(InvalidIds(b[..|b| - 1], invalid), RangeIds(last.start, last.end, invalid));
    }
  }

  /** Listing the same ranges twice counts every invalid ID twice. */
  lemma RepeatedRangesCountTwice(ranges: seq<Range>, invalid: int -> bool)
    ensures Sum(InvalidIds(ranges + ranges, invalid)) == 2 * Sum(InvalidIds(ranges, invalid))
  {
    InvalidIdsAppend(ranges, ranges, invalid);
  }

  /** A weaker test over non-negative IDs sums to no more than a stronger one. */
  lemma {:induction false} RangeIdsMonotone(lo: int, hi: int, p: int -> bool, q: int -> bool)
    requires lo >= 0
    requires forall v | lo <= v <= hi :: p(v) ==> q(v)
    ensures Sum(RangeIds(lo, hi, p)) <= Sum(RangeIds(lo, hi, q))
    decreases hi - lo
  {
    if lo <= hi {
      RangeIdsMonotone(lo, hi - 1, p, q);
      SumAppend(RangeIds(lo, hi - 1, p), if p(hi) then [hi] else []);
      SumAppend(RangeIds(lo, hi - 1, q), if q(hi) then [hi] else []);
    }
  }

  lemma {:induction false} InvalidIdsMonotone(ranges: seq<Range>, p: int -> bool, q: int -> bool)
    requires forall i | 0 <= i < |ranges| :: ValidRange(ranges[i])
    requires forall v | v >= 0 :: p(v) ==> q(v)
    ensures Sum(InvalidIds(ranges, p)) <= Sum(InvalidIds(ranges, q))
  {
    if ranges != [] {
      var last := ranges[|ranges| - 1];
      InvalidIdsMonotone(ranges[..|ranges| - 1], p, q);
      RangeIdsMonotone(last.start, last.end, p, q);
      SumAppend(InvalidIds(ranges[..|ranges| - 1], p), RangeIds(last.start, last.end, p));
      SumAppend(InvalidIds(ranges[..|ranges| - 1], q), RangeIds(last.start, last.end, q));
    }
  }

  /** The part 2 test as a function of the ID. */
  function IsMultipleRepetitionId(number: int): bool
  {
    MultipleRepetition(IntToString(number))
  }

  /** Part 1: the sum of the IDs made of a block written twice, or the parse error. */
  function Part1(data: string): Result<int, Error>
  {
    match RangesOf(data)
    case Failure(e) => Failure(e)
    case Success(ranges) => Success(Sum(InvalidIds(ranges, IsInvalidDoubleRepetition)))
  }

  /** Part 2: the sum of the IDs made of a block written two or more times, or the parse error. */
  function Part2(data: string): Result<int, Error>
  {
    match RangesOf(data)
    case Failure(e) => Failure(e)
    case Success(ranges) => Success(Sum(InvalidIds(ranges, IsMultipleRepetitionId)))
  }

  /** Part 2 accepts every ID part 1 does, so on the same input it never sums less. */
  lemma Part1AtMostPart2(data: string)
    ensures Part1(data).Success? <==> Part2(data).Success?
    ensures Part1(data).Success? ==> Part1(data).value <= Part2(data).value
  {
    if RangesOf(data).Success? {
      forall v | v >= 0 ensures IsInvalidDoubleRepetition(v) ==> IsMultipleRepetitionId(v) {
        DoubleIsMultiple(v);
      }
      InvalidIdsMonotone(RangesOf(data).value, IsInvalidDoubleRepetition, IsMultipleRepetitionId);
    }
  }

  /** The input "55-55" holds the one invalid ID 55, for both parts. */
  lemma SingleRangeExample()
    ensures Part1("55-55") == Success(55) && Part2("55-55") == Success(55)
  {
    ExampleRanges();
    ExampleIds();
    assert Sum([55]) == 55;
  }

  lemma ExampleRanges()
    ensures RangesOf("55-55") == Success([Range(55, 55)])
  {
    var r := Range(55, 55);
    assert NatToString(55) == "55";
    assert RangesText([r]) == "55-55";
    ParseRangesRoundTrip([r]);
  }

  lemma ExampleIds()
    ensures InvalidIds([Range(55, 55)], IsInvalidDoubleRepetition) == [55]
    ensures InvalidIds([Range(55, 55)], IsMultipleRepetitionId) == [55]
  {
    assert IntToString(55) == "55";
    assert BlockRepeats("55", 1);
    assert [Range(55, 55)][..0] == [];
  }

  lemma InvalidIdsNext(ranges: seq<Range>, k: int, invalid: int -> bool)
    requires 0 <= k < |ranges|
    ensures InvalidIds(ranges[..k + 1], invalid)
            == InvalidIds(ranges[..k], invalid) + RangeIds(ranges[k].start, ranges[k].end, invalid)
  {
    assert ranges[..k + 1][..k] == ranges[..k];
  }

  /** The inner loop of `solve_part_1`: the numbers from `start` to `end` that are a block written twice. */
  method DoubleRepetitionsIn(start: int, end: int) returns (ids: seq<int>)
    ensures ids == RangeIds(start, end, IsInvalidDoubleRepetition)
  {
    ids := [];
    if start > end {
      return;
    }
    for number := start to end + 1
      invariant ids == RangeIds(start, number - 1, IsInvalidDoubleRepetition)
    {
      if IsInvalidDoubleRepetition(number) {
        ids := ids + [number];
      }
    }
  }

  /** The inner loop of `solve_part_2`: the numbers from `start` to `end` that are a block written two or more times. */
  method MultipleRepetitionsIn(start: int, end: int) returns (ids: seq<int>)
    ensures ids == RangeIds(start, end, IsMultipleRepetitionId)
  {
    ids := [];
    if start > end {
      return;
    }
    for number := start to end + 1
      invariant ids == RangeIds(start, number - 1, IsMultipleRepetitionId)
    {
      var invalid := IsInvalidMultipleRepetition(number);
      if invalid {
        ids := ids + [number];
      }
    }
  }

  /** The loops of `solve_part_1`: every number of every range, kept when it is a block written twice. */
  method SumDoubleRepetitions(ranges: seq<Range>) returns (total: int)
    requires forall i | 0 <= i < |ranges| :: ValidRange(ranges[i])
    ensures total == Sum(InvalidIds(ranges, IsInvalidDoubleRepetition))
  {
    var invalidIds: seq<int> := [];
    for k := 0 to |ranges|
      invariant invalidIds == InvalidIds(ranges[..k], IsInvalidDoubleRepetition)
    {
      var rangeObj := ranges[k];
      var found := DoubleRepetitionsIn(rangeObj.start, rangeObj.end);
      invalidIds := invalidIds + found;
      InvalidIdsNext(ranges, k, IsInvalidDoubleRepetition);
    }
    assert ranges[..|ranges|] == ranges;
    return Sum(invalidIds);
  }

  /** The loops of `solve_part_2`: every number of every range, kept when it is a block written two or more times. */
  method SumMultipleRepetitions(ranges: seq<Range>) returns (total: int)
    requires forall i | 0 <= i < |ranges| :: ValidRange(ranges[i])
    ensures total == Sum(InvalidIds(ranges, IsMultipleRepetitionId))
  {
    var invalidIds: seq<int> := [];
    for k := 0 to |ranges|
      invariant invalidIds == InvalidIds(ranges[..k], IsMultipleRepetitionId)
    {
      var rangeObj := ranges[k];
      var found := MultipleRepetitionsIn(rangeObj.start, rangeObj.end);
      invalidIds := invalidIds + found;
      InvalidIdsNext(ranges, k, IsMultipleRepetitionId);
    }
    assert ranges[..|ranges|] == ranges;
    return Sum(invalidIds);
  }

  /** `Solution.solve_part_1`: parse, then sum; a parse error propagates. */
  method SolvePart1(data: string) returns (r: Result<int, Error>)
    ensures r == Part1(data)
  {
    var ranges :- ParseRanges(data);
    var total := SumDoubleRepetitions(ranges);
    return Success(total);
  }

  /** `Solution.solve_part_2`: parse, then sum; a parse error propagates. */
  method SolvePart2(data: string) returns (r: Result<int, Error>)
    ensures r == Part2(data)
  {
    var ranges :- ParseRanges(data);
    var total := SumMultipleRepetitions(ranges);
    return Success(total);
  }
}
