/**
 * Day 2, first solution: the same puzzle as `Day02`, with ranges as (start, end)
 * pairs, one error for any malformed input, and the start-after-end check made
 * by the solvers while they sum. The two repetition tests are the same
 * algorithms as in `Day02` and are shared with it.
 */
module Day02Original {

  import opened Wrappers
  import opened Text
  import opened Seqs
  import Day02

  /** A `(start, end)` tuple as `parse_ranges` returns it; nothing about its order is checked yet. */
  type Pair = Day02.Range

  /** The `ValueError`s the solvers raise. */
  datatype Error =
    | InvalidFormat(data: string)          // parse_ranges, on the whole input
    | StartAfterEnd(start: int, end: int)  // solve_part_1 / solve_part_2

  /** `start_str, end_str = range_str.strip().split('-', 1)` and `int` of each, or `None` where that raises. */
  function ParsePair(rangeStr: string): (r: Option<Pair>)
    ensures r.Some? ==> r.value.start >= 0
  {
    var parts := SplitOnce(Strip(rangeStr), '-');
    if |parts| != 2 then None
    else
      match (ParseInt(parts[0]), ParseInt(parts[1]))
      case (Some(start), Some(end)) =>
        ParseIntNoMinus(parts[0]);
        Some(Day02.Range(start, end))
      case _ => None
  }

  /** One comma field of `data`: its pair, or the error that quotes the whole input. */
  function ParseField(data: string, rangeStr: string): (r: Result<Pair, Error>)
    ensures r.Failure? ==> r.error == InvalidFormat(data)
    ensures r.Success? ==> r.value.start >= 0
  {
    match ParsePair(rangeStr)
    case None => Failure(InvalidFormat(data))
    case Some(pair) => Success(pair)
  }

  function FieldParser(data: string): string -> Result<Pair, Error>
  {
    rangeStr => ParseField(data, rangeStr)
  }

  /** What `parse_ranges` returns or raises. */
  function RangesOf(data: string): (r: Result<seq<Pair>, Error>)
    ensures r.Failure? ==> r.error == InvalidFormat(data)
    ensures r.Success? ==> |r.value| == |Split(Strip(data), ',')|
    ensures r.Success? ==> forall i | 0 <= i < |r.value| :: r.value[i].start >= 0
  {
    MapResult(FieldParser(data), Split(Strip(data), ','))
  }

  /** Blank input has one empty field, which does not unpack into two: it is an error. */
  lemma BlankIsInvalid(data: string)
    requires Strip(data) == []
    ensures RangesOf(data) == Failure(InvalidFormat(data))
  {
    var fields := Split(Strip(data), ',');
    assert fields == [[]];
    StripUnpadded([]);
    assert ParsePair([]).None?;
    assert FieldParser(data)(fields[0]).Failure?;
  }

  /**
   * The loop of `parse_ranges` over the comma fields, for `parse` the
   * `try`/`except` around one field (`FieldParser(data)`).
   */
  method ParsePairs<T>(rangeStrings: seq<string>, parse: string -> Result<T, Error>) returns (r: Result<seq<T>, Error>)
    ensures r == MapResult(parse, rangeStrings)
  {
    var ranges: seq<T> := [];
    for i := 0 to |rangeStrings|
      invariant |ranges| == i
      invariant forall j | 0 <= j < i :: parse(rangeStrings[j]) == Success(ranges[j])
    {
      var pair := parse(rangeStrings[i]);
      if pair.Failure? {
        assert FirstFailure(parse, rangeStrings, i);
        MapResultFirstFailure(parse, rangeStrings, i);
        return pair.PropagateFailure();
      }
      ranges := ranges + [pair.value];
    }
    MapResultAllSuccess(parse, rangeStrings, ranges);
    return Success(ranges);
  }

  /** `parse_ranges`: the pair of every comma field, in order, or `InvalidFormat` when a field is malformed. */
  method ParseRanges(data: string) returns (r: Result<seq<Pair>, Error>)
    ensures r == RangesOf(data)
  {
    r := ParsePairs(Split(Strip(data), ','), FieldParser(data));
  }

  predicate Ordered(pair: Pair)
  {
    pair.start <= pair.end
  }

  /** The first pair whose start is after its end, the one the solvers raise on. */
  function FirstReversed(pairs: seq<Pair>): (r: Option<Pair>)
    ensures r.None? <==> forall i | 0 <= i < |pairs| :: pairs[i].start <= pairs[i].end
    ensures r.Some? ==> r.value.start > r.value.end && r.value in pairs
  {
    if pairs == [] then None
    else if pairs[0].start > pairs[0].end then Some(pairs[0])
    else
      var r := FirstReversed(pairs[1..]);
      assert forall i | 1 <= i < |pairs| :: pairs[i] == pairs[1..][i - 1];
      r
  }

  /** When the pairs before `k` are in order and pair `k` is not, pair `k` is the first reversed one. */
  lemma {:induction false} FirstReversedAt(pairs: seq<Pair>, k: int)
    requires 0 <= k < |pairs| && pairs[k].start > pairs[k].end
    requires forall j | 0 <= j < k :: pairs[j].start <= pairs[j].end
    ensures FirstReversed(pairs) == Some(pairs[k])
  {
    if k > 0 {
      FirstReversedAt(pairs[1..], k - 1);
    }
  }

  /** What the loops of a solver give for parsed pairs: the error for the first reversed pair, else the sum. */
  function Total(pairs: seq<Pair>, invalid: int -> bool): Result<int, Error>
  {
    match FirstReversed(pairs)
    case Some(pair) => Failure(StartAfterEnd(pair.start, pair.end))
    case None => Success(Sum(Day02.InvalidIds(pairs, invalid)))
  }

  /** `solve_part_1`. */
  function Part1(data: string): Result<int, Error>
  {
    match RangesOf(data)
    case Failure(e) => Failure(e)
    case Success(pairs) => Total(pairs, Day02.IsInvalidDoubleRepetition)
  }

  /** `solve_part_2`. */
  function Part2(data: string): Result<int, Error>
  {
    match RangesOf(data)
    case Failure(e) => Failure(e)
    case Success(pairs) => Total(pairs, Day02.IsMultipleRepetitionId)
  }

  /**
   * The loops shared by `solve_part_1` and `solve_part_2` over parsed pairs:
   * raise on the first pair whose start is after its end, otherwise keep every
   * number of every range that `invalid` accepts, and sum them.
   */
  method SumChecked(pairs: seq<Pair>, invalid: int -> bool) returns (r: Result<int, Error>)
    ensures r == Total(pairs, invalid)
  {
    var invalidIds: seq<int> := [];
    for k := 0 to |pairs|
      invariant forall j | 0 <= j < k :: pairs[j].start <= pairs[j].end
      invariant invalidIds == Day02.InvalidIds(pairs[..k], invalid)
    {
      var start, end := pairs[k].start, pairs[k].end;
      if start > end {
        FirstReversedAt(pairs, k);
        return Failure(StartAfterEnd(start, end));
      }
      ghost var before := invalidIds;
      for number := start to end + 1
        invariant invalidIds == before + Day02.RangeIds(start, number - 1, invalid)
      {
        if invalid(number) {
          invalidIds := invalidIds + [number];
        }
      }
      Day02.InvalidIdsNext(pairs, k, invalid);
    }
    assert pairs[..|pairs|] == pairs;
    return Success(Sum(invalidIds));
  }

  /** `solve_part_1`: parse errors propagate, then the sum or the error for a reversed pair. */
  method SolvePart1(data: string) returns (r: Result<int, Error>)
    ensures r == Part1(data)
  {
    var ranges :- ParseRanges(data);
    r := SumChecked(ranges, Day02.IsInvalidDoubleRepetition);
  }

  /** `solve_part_2`: parse errors propagate, then the sum or the error for a reversed pair. */
  method SolvePart2(data: string) returns (r: Result<int, Error>)
    ensures r == Part2(data)
  {
    var ranges :- ParseRanges(data);
    r := SumChecked(ranges, Day02.IsMultipleRepetitionId);
  }

  // ---------------------------------------------------------------------------
  // Agreement with the improved solution

  /** A field is a valid `Range` for the improved parser exactly when it is an ordered pair here. */
  lemma FieldAgrees(rangeStr: string)
    ensures Day02.FromString(rangeStr).Success?
            <==> ParsePair(rangeStr).Some? && ParsePair(rangeStr).value.start <= ParsePair(rangeStr).value.end
    ensures Day02.FromString(rangeStr).Success? ==> Day02.FromString(rangeStr).value == ParsePair(rangeStr).value
  {
  }

  /** Both parsers accept the same inputs, up to the reversed pairs the first solution rejects later. */
  lemma RangesAgree(data: string)
    ensures Day02.RangesOf(data).Success?
            <==> RangesOf(data).Success? && FirstReversed(RangesOf(data).value).None?
    ensures Day02.RangesOf(data).Success? ==> Day02.RangesOf(data).value == RangesOf(data).value
  {
    if Strip(data) == [] {
      BlankIsInvalid(data);
    } else {
      var fields := Split(Strip(data), ',');
      var numbered := Day02.Numbered(fields);
      forall i | 0 <= i < |fields|
        ensures Day02.ParseField(numbered[i]).Success?
                <==> FieldParser(data)(fields[i]).Success? && Ordered(FieldParser(data)(fields[i]).value)
        ensures Day02.ParseField(numbered[i]).Success?
                ==> Day02.ParseField(numbered[i]).value == FieldParser(data)(fields[i]).value
      {
        FieldAgrees(fields[i]);
      }
      MapResultRefines(Day02.ParseField, numbered, FieldParser(data), fields, Ordered);
    }
  }

  /** The two solutions succeed on the same inputs and then give the same answers. */
  lemma SolutionsAgree(data: string)
    ensures Part1(data).Success? <==> Day02.Part1(data).Success?
    ensures Part1(data).Success? ==> Part1(data).value == Day02.Part1(data).value
    ensures Part2(data).Success? <==> Day02.Part2(data).Success?
    ensures Part2(data).Success? ==> Part2(data).value == Day02.Part2(data).value
  {
    RangesAgree(data);
  }
}
