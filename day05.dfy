/**
 * Day 5: the input lists inclusive ranges of fresh ingredient IDs ("3-5"), a
 * blank line, then ingredient IDs. Part 1 counts the listed IDs that fall in
 * some range; part 2 counts the IDs the ranges cover, with a sweep over the
 * ranges in sorted order.
 */
module Day05 {

  import opened Wrappers
  import opened Text
  import opened Seqs
  import opened Sorting

  /** The `ValueError`s the two parts raise. */
  datatype Error =
    | NoBlankLine             // `lines.index("")` finds nothing
    | Unpack(line: string)    // a range line that does not split into exactly two fields
    | NotAnInteger(text: string)
    | TooManyValues           // part 2: `start, end` unpacks a line with three or more fields

  /** An inclusive range `[start, end]`; nothing forces `start <= end`. */
  datatype Interval = Interval(start: int, end: int)

  predicate InRange(v: int, r: Interval)
  {
    r.start <= v <= r.end
  }

  /** Some range holds `v`. */
  predicate Covered(rs: seq<Interval>, v: int)
  {
    exists i | 0 <= i < |rs| :: InRange(v, rs[i])
  }

  function ParseNumber(text: string): Result<int, Error>
  {
    match ParseInt(text)
    case None => Failure(NotAnInteger(text))
    case Some(v) => Success(v)
  }

  // ---------------------------------------------------------------------------
  // Part 1

  /** `lines.index("")`: the first empty line. */
  function BlankLineIndex(lines: seq<string>): (r: Option<nat>)
    ensures r.None? <==> "" !in lines
    ensures r.Some? ==> r.value < |lines| && lines[r.value] == "" && "" !in lines[..r.value]
  {
    if lines == [] then None
    else if lines[0] == "" then Some(0)
    else
      match BlankLineIndex(lines[1..])
      case None => None
      case Some(k) =>
        assert lines[..k + 1] == [lines[0]] + lines[1..][..k];
        Some(k + 1)
  }

  /** `[low, high] = r.split("-")` and `[int(low), int(high)]`. */
  function ParseRange(line: string): Result<Interval, Error>
  {
    var parts := Split(line, '-');
    if |parts| != 2 then Failure(Unpack(line))
    else
      var low :- ParseNumber(parts[0]);
      var high :- ParseNumber(parts[1]);
      Success(Interval(low, high))
  }

  /** The number of `values` that some range holds, each counted as often as it is listed. */
  function CountFresh(values: seq<int>, rs: seq<Interval>): (n: nat)
    ensures n <= |values|
  {
    if values == [] then 0
    else CountFresh(values[..|values| - 1], rs) + (if Covered(rs, values[|values| - 1]) then 1 else 0)
  }

  /** The count over a list is the sum of the counts over its parts. */
  lemma {:induction false} CountFreshAppend(a: seq<int>, b: seq<int>, rs: seq<Interval>)
    ensures CountFresh(a + b, rs) == CountFresh(a, rs) + CountFresh(b, rs)
    decreases |b|
  {
    if b == [] {
      assert a + b == a;
    } else {
      assert (a + b)[..|a + b| - 1] == a + b[..|b| - 1];
      CountFreshAppend(a, b[..|b| - 1], rs);
    }
  }

  /** Every listed value counts when all are held, none when none is. */
  lemma {:induction false} CountFreshBounds(values: seq<int>, rs: seq<Interval>)
    ensures (forall i | 0 <= i < |values| :: Covered(rs, values[i])) ==> CountFresh(values, rs) == |values|
    ensures (forall i | 0 <= i < |values| :: !Covered(rs, values[i])) ==> CountFresh(values, rs) == 0
  {
    if values != [] {
      CountFreshBounds(values[..|values| - 1], rs);
    }
  }

  /** Only which ranges are listed matters, not their order or repetition: the dictionary of ranges loses nothing. */
  lemma {:induction false} CountFreshSameRanges(values: seq<int>, rs: seq<Interval>, qs: seq<Interval>)
    requires forall r :: r in rs <==> r in qs
    ensures CountFresh(values, rs) == CountFresh(values, qs)
  {
    if values != [] {
      CountFreshSameRanges(values[..|values| - 1], rs, qs);
      var v := values[|values| - 1];
      if Covered(rs, v) {
        var i :| 0 <= i < |rs| && InRange(v, rs[i]);
        assert rs[i] in qs;
      }
      if Covered(qs, v) {
        var i :| 0 <= i < |qs| && InRange(v, qs[i]);
        assert qs[i] in rs;
      }
    }
  }

  /** What `solve_part_1` returns or raises. */
  function Part1(data: string): Result<nat, Error>
  {
    var lines := Lines(data);
    match BlankLineIndex(lines)
    case None => Failure(NoBlankLine)
    case Some(b) =>
      var ranges :- MapResult(ParseRange, lines[..b]);
      if ranges == [] then Success(0)
      else
        var values :- MapResult(ParseNumber, lines[b + 1..]);
        Success(CountFresh(values, ranges))
  }

  /** With no range line, the ID lines are never read: the answer is 0 whatever they hold. */
  lemma Part1NoRanges(data: string)
    requires var lines := Lines(data); BlankLineIndex(lines) == Some(0)
    ensures Part1(data) == Success(0)
  {
  }

  /** A repeated ID line counts twice: the IDs are counted with multiplicity. */
  lemma Part1CountsRepeats(values: seq<int>, rs: seq<Interval>)
    ensures CountFresh(values + values, rs) == 2 * CountFresh(values, rs)
  {
    CountFreshAppend(values, values, rs);
  }

  /**
   * The range dictionary of `solve_part_1`: keys in insertion order, each the
   * text of a range line, with the parsed range it maps to.
   */
  ghost predicate RangeMapOf<V>(keys: seq<string>, rangeMap: map<string, V>, lines: seq<string>, n: int,
                                parse: string -> Result<V, Error>)
    requires 0 <= n <= |lines|
  {
    && Distinct(keys)
    && (forall k :: k in rangeMap <==> k in keys)
    && (forall j | 0 <= j < n :: lines[j] in rangeMap)
    && (forall k | k in rangeMap :: k in lines)
    && (forall k | k in rangeMap :: parse(k) == Success(rangeMap[k]))
  }

  /** The ranges of the dictionary, in key order. */
  function KeyRanges<V>(keys: seq<string>, rangeMap: map<string, V>): (rs: seq<V>)
    requires forall t | 0 <= t < |keys| :: keys[t] in rangeMap
    ensures |rs| == |keys| && forall t | 0 <= t < |keys| :: rs[t] == rangeMap[keys[t]]
  {
    if keys == [] then [] else [rangeMap[keys[0]]] + KeyRanges(keys[1..], rangeMap)
  }

  /** The dictionary lists exactly the ranges of the parsed lines: repeated lines collapse, none is lost. */
  lemma RangeMapRanges<V>(keys: seq<string>, rangeMap: map<string, V>, lines: seq<string>, ranges: seq<V>,
                          parse: string -> Result<V, Error>)
    requires RangeMapOf(keys, rangeMap, lines, |lines|, parse)
    requires |ranges| == |lines| && forall j | 0 <= j < |lines| :: parse(lines[j]) == Success(ranges[j])
    ensures forall t | 0 <= t < |keys| :: keys[t] in rangeMap
    ensures forall q :: q in KeyRanges(keys, rangeMap) <==> q in ranges
    ensures keys == [] <==> ranges == []
  {
    assert forall t | 0 <= t < |keys| :: keys[t] in rangeMap;
    var rs := KeyRanges(keys, rangeMap);
    forall q ensures q in rs <==> q in ranges {
      if q in rs {
        var t :| 0 <= t < |keys| && rs[t] == q;
        var j :| 0 <= j < |lines| && lines[j] == keys[t];
        assert parse(lines[j]) == Success(q);
      }
      if q in ranges {
        var j :| 0 <= j < |lines| && ranges[j] == q;
        assert lines[j] in rangeMap;
        var t :| 0 <= t < |keys| && keys[t] == lines[j];
        assert rs[t] == q;
      }
    }
    if ranges != [] {
      assert lines[0] in rangeMap;
    }
  }

  /** `range_map[line] = ...`: a new line is appended to the keys, a repeated one keeps its place. */
  lemma RangeMapInsert<V>(keys: seq<string>, rangeMap: map<string, V>, lines: seq<string>, i: int,
                          parse: string -> Result<V, Error>, v: V)
    requires 0 <= i < |lines| && RangeMapOf(keys, rangeMap, lines, i, parse)
    requires parse(lines[i]) == Success(v)
    ensures RangeMapOf(if lines[i] in rangeMap then keys else keys + [lines[i]], rangeMap[lines[i] := v], lines, i + 1, parse)
  {
    if lines[i] !in rangeMap {
      assert lines[i] !in keys;
    }
  }

  /** The loop over the range lines: fills the dictionary, or raises for the first bad line. */
  method BuildRangeMap<V>(ranges: seq<string>, parse: string -> Result<V, Error>)
    returns (r: Result<(seq<string>, map<string, V>), Error>)
    ensures r.Failure? <==> MapResult(parse, ranges).Failure?
    ensures r.Failure? ==> r.error == MapResult(parse, ranges).error
    ensures r.Success? ==> RangeMapOf(r.value.0, r.value.1, ranges, |ranges|, parse)
  {
    var keys: seq<string> := [];
    var rangeMap: map<string, V> := map[];
    for i := 0 to |ranges|
      invariant MapResult(parse, ranges[..i]).Success?
      invariant RangeMapOf(keys, rangeMap, ranges, i, parse)
    {
      var parsed := parse(ranges[i]);
      MapResultSnoc(parse, ranges, i);
      if parsed.Failure? {
        MapResultPrefixFailure(parse, ranges, i + 1);
        return Failure(parsed.error);
      }
      RangeMapInsert(keys, rangeMap, ranges, i, parse, parsed.value);
      if ranges[i] !in rangeMap {
        keys := keys + [ranges[i]];
      }
      rangeMap := rangeMap[ranges[i] := parsed.value];
    }
    assert ranges[..|ranges|] == ranges;
    return Success((keys, rangeMap));
  }

  /** The inner loop of `solve_part_1`: whether some range of the dictionary holds `value`. */
  method AnyRangeHolds(value: int, keys: seq<string>, rangeMap: map<string, Interval>) returns (isFresh: bool)
    requires forall t | 0 <= t < |keys| :: keys[t] in rangeMap
    ensures isFresh <==> Covered(KeyRanges(keys, rangeMap), value)
  {
    ghost var rs := KeyRanges(keys, rangeMap);
    isFresh := false;
    for m := 0 to |keys|
      invariant forall t | 0 <= t < m :: !InRange(value, rs[t])
    {
      var range := rangeMap[keys[m]];
      if range.start <= value <= range.end {
        return true;
      }
    }
  }

  /**
   * The loop over the ID lines of `solve_part_1`. `int(id)` is evaluated inside
   * the loop over the dictionary, so an ID line is parsed (and may raise) only
   * when the dictionary has a key.
   */
  method CountFreshIds(ids: seq<string>, keys: seq<string>, rangeMap: map<string, Interval>,
                       parse: string -> Result<int, Error>) returns (r: Result<nat, Error>)
    requires forall t | 0 <= t < |keys| :: keys[t] in rangeMap
    ensures keys == [] ==> r == Success(0)
    ensures keys != [] ==> (r.Failure? <==> MapResult(parse, ids).Failure?)
    ensures keys != [] && r.Failure? ==> r.error == MapResult(parse, ids).error
    ensures keys != [] && r.Success? ==> r.value == CountFresh(MapResult(parse, ids).value, KeyRanges(keys, rangeMap))
  {
    if keys == [] {
      return Success(0);
    }
    var freshCount: nat := 0;
    for n := 0 to |ids|
      invariant MapResult(parse, ids[..n]).Success?
      invariant freshCount == CountFresh(MapResult(parse, ids[..n]).value, KeyRanges(keys, rangeMap))
    {
      MapResultSnoc(parse, ids, n);
      var id := parse(ids[n]);
      if id.Failure? {
        MapResultPrefixFailure(parse, ids, n + 1);
        return Failure(id.error);
      }
      var isFresh := AnyRangeHolds(id.value, keys, rangeMap);
      ghost var values := MapResult(parse, ids[..n]).value;
      assert (values + [id.value])[..|values|] == values;
      if isFresh {
        freshCount := freshCount + 1;
      }
    }
    assert ids[..|ids|] == ids;
    return Success(freshCount);
  }

  /** `solve_part_1`. */
  method SolvePart1(data: string) returns (r: Result<nat, Error>)
    ensures r == Part1(data)
  {
    var lines := Lines(data);
    var blankLineIndex := BlankLineIndex(lines);
    if blankLineIndex.None? {
      return Failure(NoBlankLine);
    }
    var ids := lines[blankLineIndex.value + 1..];
    var ranges := lines[..blankLineIndex.value];
    var built := BuildRangeMap(ranges, ParseRange);
    if built.Failure? {
      return Failure(built.error);
    }
    var keys, rangeMap := built.value.0, built.value.1;
    ghost var parsed := MapResult(ParseRange, ranges).value;
    RangeMapRanges(keys, rangeMap, ranges, parsed, ParseRange);
    r := CountFreshIds(ids, keys, rangeMap, ParseNumber);
    if r.Success? && keys != [] {
      CountFreshSameRanges(MapResult(ParseNumber, ids).value, KeyRanges(keys, rangeMap), parsed);
    }
  }

  // ---------------------------------------------------------------------------
  // Part 2

  function Max(a: int, b: int): int
  {
    if a >= b then a else b
  }

  /** `[line for line in lines if "-" in line]`. */
  function RangeLines(lines: seq<string>): seq<string>
  {
    if lines == [] then []
    else
      var last := lines[|lines| - 1];
      assert lines == lines[..|lines| - 1] + [last];
      RangeLines(lines[..|lines| - 1]) + (if '-' in last then [last] else [])
  }

  lemma {:induction false} RangeLinesAppend(a: seq<string>, b: seq<string>)
    ensures RangeLines(a + b) == RangeLines(a) + RangeLines(b)
    decreases |b|
  {
    if b == [] {
      assert a + b == a;
    } else {
      var init := b[..|b| - 1];
      assert (a + b)[..|a + b| - 1] == a + init;
      RangeLinesAppend(a, init);
    }
  }

  /** The lines kept are exactly those that hold a `-`. */
  lemma {:induction false} RangeLinesMembers(lines: seq<string>)
    ensures forall l :: l in RangeLines(lines) <==> l in lines && '-' in l
  {
    if lines != [] {
      var init, last := lines[..|lines| - 1], lines[|lines| - 1];
      RangeLinesMembers(init);
      assert lines == init + [last];
    }
  }

  /** `list(map(int, line.split("-")))`: every field, or the error for the first one that is not an integer. */
  function ParseFields(line: string): Result<seq<int>, Error>
  {
    MapResult(ParseNumber, Split(line, '-'))
  }

  /** The fields of a line are split at every `-`, so none is negative. */
  lemma ParseFieldsNonNegative(line: string)
    requires ParseFields(line).Success?
    ensures forall i | 0 <= i < |ParseFields(line).value| :: ParseFields(line).value[i] >= 0
  {
    var parts := Split(line, '-');
    forall i | 0 <= i < |parts| ensures ParseFields(line).value[i] >= 0 {
      assert ParseNumber(parts[i]) == Success(ParseFields(line).value[i]);
      ParseIntNoMinus(parts[i]);
    }
  }

  /** `for start, end in ...`: a list of fields unpacks into a range only when it has exactly two. */
  function Unpack2(fields: seq<int>): (r: Result<Interval, Error>)
    ensures r.Success? <==> |fields| == 2
    ensures r.Success? ==> r.value == Interval(fields[0], fields[1])
    ensures r.Failure? ==> r.error == TooManyValues
  {
    if |fields| != 2 then Failure(TooManyValues) else Success(Interval(fields[0], fields[1]))
  }

  /**
   * The ranges `solve_part_2` sweeps over: the fields of every line that holds a
   * `-`, or the error of the first line with a field that is not an integer,
   * or, when every line parses, `TooManyValues` if one has more than two fields.
   */
  function SweptRanges(data: string): Result<seq<Interval>, Error>
  {
    var fields :- MapResult(ParseFields, RangeLines(Lines(data)));
    MapResult(Unpack2, fields)
  }

  /** Python's ordering of `[start, end]` lists: by start, then by end. */
  predicate IntervalLE(a: Interval, b: Interval)
  {
    a.start < b.start || (a.start == b.start && a.end <= b.end)
  }

  lemma IntervalLETotal()
    ensures IsTotalPreorder(IntervalLE)
  {
  }

  /** The integers of `r` above `highest`: what one step of the sweep adds. */
  function Gain(r: Interval, highest: int): int
  {
    if r.start > highest then r.end - r.start + 1
    else if r.end > highest then r.end - highest
    else 0
  }

  /** What the sweep adds over `rs`, starting from `highest`; `highest` becomes the largest end seen. */
  function Sweep(rs: seq<Interval>, highest: int): int
  {
    if rs == [] then 0 else Gain(rs[0], highest) + Sweep(rs[1..], Max(highest, rs[0].end))
  }

  /** The sweep over the sorted ranges of `data`, starting from `highest`, or the first parse error. */
  function SweptFrom(data: string, highest: int): Result<int, Error>
  {
    var rs :- SweptRanges(data);
    Success(Sweep(Sort(rs, IntervalLE), highest))
  }

  /** `solve_part_2` as written: the sweep starts from `highest = 0`. */
  function Part2(data: string): Result<int, Error>
  {
    SweptFrom(data, 0)
  }

  /** `solve_part_2` with `highest` starting below every ID, so that the ID 0 counts too. */
  function Part2Corrected(data: string): Result<int, Error>
  {
    SweptFrom(data, -1)
  }

  // The reference: how many integers the ranges cover.

  /** The number of integers in `[lo, hi)` that some range holds. */
  function CountCovered(rs: seq<Interval>, lo: int, hi: int): (n: nat)
    decreases hi - lo
  {
    if hi <= lo then 0 else CountCovered(rs, lo, hi - 1) + (if Covered(rs, hi - 1) then 1 else 0)
  }

  /** `CountCovered` is the size of the set of covered integers: each is counted once, however many ranges hold it. */
  lemma {:induction false} CountCoveredIsUnionSize(rs: seq<Interval>, lo: int, hi: int)
    ensures CountCovered(rs, lo, hi) == |set v | lo <= v < hi && Covered(rs, v)|
    decreases hi - lo
  {
    if hi > lo {
      CountCoveredIsUnionSize(rs, lo, hi - 1);
      var below := set v | lo <= v < hi - 1 && Covered(rs, v);
      if Covered(rs, hi - 1) {
        assert (set v | lo <= v < hi && Covered(rs, v)) == below + {hi - 1};
      } else {
        assert (set v | lo <= v < hi && Covered(rs, v)) == below;
      }
    } else {
      assert (set v | lo <= v < hi && Covered(rs, v)) == {};
    }
  }

  lemma {:induction false} CountCoveredSplit(rs: seq<Interval>, lo: int, mid: int, hi: int)
    requires lo <= mid <= hi
    ensures CountCovered(rs, lo, hi) == CountCovered(rs, lo, mid) + CountCovered(rs, mid, hi)
    decreases hi - mid
  {
    if hi > mid {
      CountCoveredSplit(rs, lo, mid, hi - 1);
    }
  }

  lemma {:induction false} CountCoveredSame(rs: seq<Interval>, qs: seq<Interval>, lo: int, hi: int)
    requires forall v | lo <= v < hi :: Covered(rs, v) <==> Covered(qs, v)
    ensures CountCovered(rs, lo, hi) == CountCovered(qs, lo, hi)
    decreases hi - lo
  {
    if hi > lo {
      CountCoveredSame(rs, qs, lo, hi - 1);
    }
  }

  lemma {:induction false} CountCoveredAll(rs: seq<Interval>, lo: int, hi: int)
    requires lo <= hi && forall v | lo <= v < hi :: Covered(rs, v)
    ensures CountCovered(rs, lo, hi) == hi - lo
    decreases hi - lo
  {
    if hi > lo {
      CountCoveredAll(rs, lo, hi - 1);
    }
  }

  lemma {:induction false} CountCoveredNone(rs: seq<Interval>, lo: int, hi: int)
    requires forall v | lo <= v < hi :: !Covered(rs, v)
    ensures CountCovered(rs, lo, hi) == 0
    decreases hi - lo
  {
    if hi > lo {
      CountCoveredNone(rs, lo, hi - 1);
    }
  }

  predicate WellFormed(rs: seq<Interval>)
  {
    forall i | 0 <= i < |rs| :: rs[i].start <= rs[i].end
  }

  predicate EndsBelow(rs: seq<Interval>, bound: int)
  {
    forall i | 0 <= i < |rs| :: rs[i].end < bound
  }

  /** One step adds the integers of the range that are above `highest`. */
  lemma GainCounts(r: Interval, highest: int)
    requires r.start <= r.end
    ensures Gain(r, highest) == CountCovered([r], highest + 1, r.end + 1)
  {
    var m := Max(highest + 1, r.start);
    if highest < r.end {
      CountCoveredSplit([r], highest + 1, m, r.end + 1);
      assert forall v | highest + 1 <= v < m :: !InRange(v, [r][0]);
      CountCoveredNone([r], highest + 1, m);
      forall v | m <= v < r.end + 1 ensures Covered([r], v) {
        assert InRange(v, [r][0]);
      }
      CountCoveredAll([r], m, r.end + 1);
    }
  }

  /** Past the end of the first range, the others cover what all of them cover. */
  lemma CoveredPastFirst(rs: seq<Interval>, next: int, bound: int)
    requires rs != [] && next >= rs[0].end
    ensures forall v | next + 1 <= v < bound :: Covered(rs, v) <==> Covered(rs[1..], v)
  {
    forall v | next + 1 <= v < bound ensures Covered(rs, v) <==> Covered(rs[1..], v) {
      if Covered(rs, v) {
        var i :| 0 <= i < |rs| && InRange(v, rs[i]);
        assert i > 0 && InRange(v, rs[1..][i - 1]);
      }
      if Covered(rs[1..], v) {
        var i :| 0 <= i < |rs[1..]| && InRange(v, rs[1..][i]);
        assert InRange(v, rs[i + 1]);
      }
    }
  }

  /** From above `highest` to the end of the first range, ranges in order of their starts cover exactly the first range's values. */
  lemma FirstRangeCount(rs: seq<Interval>, highest: int)
    requires rs != [] && WellFormed(rs) && highest < rs[0].end
    requires forall i, j | 0 <= i < j < |rs| :: rs[i].start <= rs[j].start
    ensures CountCovered(rs, highest + 1, rs[0].end + 1) == rs[0].end + 1 - Max(highest + 1, rs[0].start)
  {
    var r := rs[0];
    var m := Max(highest + 1, r.start);
    CountCoveredSplit(rs, highest + 1, m, r.end + 1);
    assert forall v | highest + 1 <= v < m :: !Covered(rs, v);
    CountCoveredNone(rs, highest + 1, m);
    assert forall v | m <= v < r.end + 1 :: InRange(v, rs[0]);
    CountCoveredAll(rs, m, r.end + 1);
  }

  /**
   * Over well-formed ranges in order of their starts, the sweep counts each
   * integer above `highest` that some range holds, once.
   */
  lemma {:induction false} SweepCounts(rs: seq<Interval>, highest: int, bound: int)
    requires WellFormed(rs) && EndsBelow(rs, bound)
    requires forall i, j | 0 <= i < j < |rs| :: rs[i].start <= rs[j].start
    ensures Sweep(rs, highest) == CountCovered(rs, highest + 1, bound)
  {
    if rs == [] {
      CountCoveredNone(rs, highest + 1, bound);
    } else {
      var r, tail := rs[0], rs[1..];
      var next := Max(highest, r.end);
      SweepCounts(tail, next, bound);
      if highest < bound {
        CountCoveredSplit(rs, highest + 1, next + 1, bound);
        CoveredPastFirst(rs, next, bound);
        CountCoveredSame(rs, tail, next + 1, bound);
        if highest < r.end {
          FirstRangeCount(rs, highest);
        }
      }
    }
  }

  /** Sorting keeps the ranges, so it keeps what they cover. */
  lemma SortCovers(rs: seq<Interval>)
    ensures forall v :: Covered(Sort(rs, IntervalLE), v) <==> Covered(rs, v)
    ensures WellFormed(rs) ==> WellFormed(Sort(rs, IntervalLE))
    ensures forall bound :: EndsBelow(rs, bound) ==> EndsBelow(Sort(rs, IntervalLE), bound)
  {
    var s := Sort(rs, IntervalLE);
    forall q ensures q in s <==> q in rs {
      assert q in s <==> q in multiset(s);
      assert q in rs <==> q in multiset(rs);
    }
    if WellFormed(rs) {
      forall i | 0 <= i < |s| ensures s[i].start <= s[i].end {
        assert s[i] in rs;
      }
    }
    forall bound | EndsBelow(rs, bound) ensures EndsBelow(s, bound) {
      forall i | 0 <= i < |s| ensures s[i].end < bound {
        assert s[i] in rs;
        var j :| 0 <= j < |rs| && rs[j] == s[i];
      }
    }
    forall v ensures Covered(s, v) <==> Covered(rs, v) {
      if Covered(s, v) {
        var i :| 0 <= i < |s| && InRange(v, s[i]);
        assert s[i] in rs;
        var j :| 0 <= j < |rs| && rs[j] == s[i];
      }
      if Covered(rs, v) {
        var i :| 0 <= i < |rs| && InRange(v, rs[i]);
        assert rs[i] in s;
        var j :| 0 <= j < |s| && s[j] == rs[i];
      }
    }
  }

  /** The sweep over the sorted ranges counts the covered integers above `highest`. */
  lemma SweepSortedCounts(rs: seq<Interval>, highest: int, bound: int)
    requires WellFormed(rs) && EndsBelow(rs, bound)
    ensures Sweep(Sort(rs, IntervalLE), highest) == CountCovered(rs, highest + 1, bound)
  {
    var s := Sort(rs, IntervalLE);
    IntervalLETotal();
    SortSorted(rs, IntervalLE);
    SortCovers(rs);
    assert forall i, j | 0 <= i < j < |s| :: IntervalLE(s[i], s[j]);
    SweepCounts(s, highest, bound);
    CountCoveredSame(s, rs, highest + 1, bound);
  }

  /** The parsed ranges start at 0 or above: no field holds a `-`. */
  lemma SweptRangesNonNegative(data: string)
    requires SweptRanges(data).Success?
    ensures forall i | 0 <= i < |SweptRanges(data).value| :: SweptRanges(data).value[i].start >= 0
  {
    var lines := RangeLines(Lines(data));
    var fields := MapResult(ParseFields, lines).value;
    var rs := SweptRanges(data).value;
    forall i | 0 <= i < |rs| ensures rs[i].start >= 0 {
      assert ParseFields(lines[i]) == Success(fields[i]);
      ParseFieldsNonNegative(lines[i]);
      assert Unpack2(fields[i]) == Success(rs[i]);
    }
  }

  /** From any starting `highest`, the sweep counts the covered IDs above it. */
  lemma SweptFromCounts(data: string, highest: int, bound: int)
    requires SweptRanges(data).Success?
    requires WellFormed(SweptRanges(data).value) && EndsBelow(SweptRanges(data).value, bound)
    ensures SweptFrom(data, highest) == Success(CountCovered(SweptRanges(data).value, highest + 1, bound))
  {
    SweepSortedCounts(SweptRanges(data).value, highest, bound);
  }

  /**
   * As written, `solve_part_2` counts the IDs from 1 up that the ranges cover:
   * with `highest` starting at 0, the ID 0 is never counted.
   */
  lemma Part2CountsFromOne(data: string, bound: int)
    requires SweptRanges(data).Success?
    requires WellFormed(SweptRanges(data).value) && EndsBelow(SweptRanges(data).value, bound)
    ensures Part2(data) == Success(CountCovered(SweptRanges(data).value, 1, bound))
  {
    SweptFromCounts(data, 0, bound);
  }

  /**
   * Over ranges of non-negative IDs (so no negative integer is covered), the
   * sweep from below 0 counts every integer the ranges cover, each once: the
   * size of their union.
   */
  lemma SweepFromBelowCountsUnion(rs: seq<Interval>, bound: int)
    requires WellFormed(rs) && EndsBelow(rs, bound)
    requires forall i | 0 <= i < |rs| :: rs[i].start >= 0
    ensures Sweep(Sort(rs, IntervalLE), -1) == |set v | 0 <= v < bound && Covered(rs, v)|
  {
    SweepSortedCounts(rs, -1, bound);
    CountCoveredIsUnionSize(rs, 0, bound);
  }

  /** The corrected `solve_part_2` gives the number of IDs the ranges cover. */
  lemma Part2CorrectedCountsUnion(data: string, bound: int)
    requires SweptRanges(data).Success?
    requires WellFormed(SweptRanges(data).value) && EndsBelow(SweptRanges(data).value, bound)
    ensures Part2Corrected(data) == Success(|set v | 0 <= v < bound && Covered(SweptRanges(data).value, v)|)
  {
    SweptRangesNonNegative(data);
    SweepFromBelowCountsUnion(SweptRanges(data).value, bound);
  }

  /**
   * Outside `WellFormed`: a reversed range such as `5-3` covers no ID, yet
   * both sweeps add `end - start + 1`, which is -1, for it.
   */
  lemma ReversedRangeSubtracts(bound: int)
    ensures Sweep([Interval(5, 3)], 0) == -1 && Sweep([Interval(5, 3)], -1) == -1
    ensures |set v | 0 <= v < bound && Covered([Interval(5, 3)], v)| == 0
  {
    assert (set v | 0 <= v < bound && Covered([Interval(5, 3)], v)) == {};
  }

  lemma ZeroLine()
    ensures Lines("0-0") == ["0-0"]
    ensures RangeLines(["0-0"]) == ["0-0"]
  {
    assert Strip("0-0") == "0-0" by {
      StripUnpadded("0-0");
    }
    assert Split("0-0", '\n') == ["0-0"] by {
      SplitJoin(["0-0"], '\n');
    }
    assert ["0-0"][..0] == [];
  }

  lemma ZeroSplit()
    ensures Split("0-0", '-') == ["0", "0"]
  {
    assert Join(["0", "0"], '-') == "0-0";
    SplitJoin(["0", "0"], '-');
  }

  lemma ZeroParses()
    ensures ParseNumber("0") == Success(0)
  {
    IntRoundTrip(0);
    assert IntToString(0) == "0";
  }

  lemma ZeroFields()
    ensures ParseFields("0-0") == Success([0, 0])
  {
    ZeroSplit();
    ZeroParses();
    MapResultAllSuccess(ParseNumber, ["0", "0"], [0, 0]);
  }

  /** The input `0-0` lists one range, holding the ID 0. */
  lemma ZeroRangeParses()
    ensures SweptRanges("0-0") == Success([Interval(0, 0)])
  {
    ZeroLine();
    ZeroFields();
    assert Unpack2([0, 0]) == Success(Interval(0, 0));
    OneRange("0-0", "0-0", [0, 0], Interval(0, 0));
  }

  /** An input with a single range line reads as that one range. */
  lemma OneRange(data: string, line: string, fields: seq<int>, range: Interval)
    requires RangeLines(Lines(data)) == [line]
    requires ParseFields(line) == Success(fields) && Unpack2(fields) == Success(range)
    ensures SweptRanges(data) == Success([range])
  {
    MapResultAllSuccess(ParseFields, [line], [fields]);
    MapResultAllSuccess(Unpack2, [fields], [range]);
  }

  /** On the input `0-0`, `solve_part_2` answers 0 although one ID is fresh. */
  lemma ZeroRangeCounterexample()
    ensures Part2("0-0") == Success(0)
    ensures Part2Corrected("0-0") == Success(1)
  {
    ZeroRangeParses();
    ZeroIdLost();
    assert Sort([Interval(0, 0)], IntervalLE) == [Interval(0, 0)] by {
      assert [Interval(0, 0)][..0] == [];
    }
  }

  /** With `highest` starting at 0, the range `0-0` adds nothing although it covers one ID. */
  lemma ZeroIdLost()
    ensures Sweep([Interval(0, 0)], 0) == 0
    ensures Sweep([Interval(0, 0)], -1) == 1
    ensures CountCovered([Interval(0, 0)], 0, 1) == 1
  {
    assert Covered([Interval(0, 0)], 0) by {
      assert InRange(0, [Interval(0, 0)][0]);
    }
  }

  // The loops of `solve_part_2`.

  /** The parsing loop: the fields of every line holding a `-`, or the first error. */
  method CollectFields(lines: seq<string>, parse: string -> Result<seq<int>, Error>) returns (r: Result<seq<seq<int>>, Error>)
    ensures r == MapResult(parse, RangeLines(lines))
  {
    var freshRanges: seq<seq<int>> := [];
    for i := 0 to |lines|
      invariant MapResult(parse, RangeLines(lines[..i])) == Success(freshRanges)
    {
      ghost var kept := RangeLines(lines[..i]);
      assert lines[..i + 1][..i] == lines[..i];
      assert RangeLines(lines[..i + 1]) == kept + if '-' in lines[i] then [lines[i]] else [];
      if '-' in lines[i] {
        var fields := parse(lines[i]);
        MapResultAppend(parse, kept, [lines[i]]);
        if fields.Failure? {
          assert FirstFailure(parse, [lines[i]], 0);
          MapResultFirstFailure(parse, [lines[i]], 0);
          assert lines == lines[..i + 1] + lines[i + 1..];
          RangeLinesAppend(lines[..i + 1], lines[i + 1..]);
          MapResultAppend(parse, RangeLines(lines[..i + 1]), RangeLines(lines[i + 1..]));
          return Failure(fields.error);
        }
        MapResultAllSuccess(parse, [lines[i]], [fields.value]);
        freshRanges := freshRanges + [fields.value];
      } else {
        assert RangeLines(lines[..i + 1]) == kept;
      }
    }
    assert lines[..|lines|] == lines;
    return Success(freshRanges);
  }

  /** The sweep loop over sorted ranges: `highest` is the largest end seen so far, `a` the count. */
  method SweepLoop(sorted: seq<Interval>, highest0: int) returns (a: int)
    ensures a == Sweep(sorted, highest0)
  {
    var highest := highest0;
    a := 0;
    for k := 0 to |sorted|
      invariant a + Sweep(sorted[k..], highest) == Sweep(sorted, highest0)
    {
      assert sorted[k..][1..] == sorted[k + 1..];
      var start, end := sorted[k].start, sorted[k].end;
      if start > highest {
        a := a + (end - start + 1);
      } else if end > highest {
        a := a + (end - highest);
      }
      highest := Max(highest, end);
    }
  }

  /** `solve_part_2` as written. The unpacking error is checked before sorting here; the sweep reaches every range, so the outcome is the same. */
  method SolvePart2(data: string) returns (r: Result<int, Error>)
    ensures r == Part2(data)
  {
    var freshRanges :- CollectFields(Lines(data), ParseFields);
    var ranges :- MapResult(Unpack2, freshRanges);
    var a := SweepLoop(Sort(ranges, IntervalLE), 0);
    return Success(a);
  }

  /** `solve_part_2` with `highest` starting at -1. */
  method SolvePart2Corrected(data: string) returns (r: Result<int, Error>)
    ensures r == Part2Corrected(data)
  {
    var freshRanges :- CollectFields(Lines(data), ParseFields);
    var ranges :- MapResult(Unpack2, freshRanges);
    var a := SweepLoop(Sort(ranges, IntervalLE), -1);
    return Success(a);
  }
}
