/**
 * Day 3: every line is a bank of batteries, one digit each. Part 1 reads the
 * two-digit number `batteries[i] + batteries[j]` (the two characters side by
 * side, not their sum) for every i < j and keeps the largest; part 2 keeps the
 * largest number spelled by 12 of the digits in order, found greedily. Both
 * parts sum the values of the lines.
 */
module Day03 {

  import opened Wrappers
  import opened Text
  import opened Seqs

  /** The `ValueError` of `int(text)`. */
  datatype Error = NotAnInteger(text: string)

  function ParseNumber(text: string): Result<int, Error>
  {
    match ParseInt(text)
    case None => Failure(NotAnInteger(text))
    case Some(v) => Success(v)
  }

  function Max(a: int, b: int): int
  {
    if a >= b then a else b
  }

  // ---------------------------------------------------------------------------
  // Part 1

  /** `batteries[i] + batteries[j]`: the two characters side by side. */
  function PairText(b: string, i: int, j: int): string
    requires 0 <= i < |b| && 0 <= j < |b|
  {
    [b[i], b[j]]
  }

  /** Pair `(i', j')` comes no earlier than `(i, j)` in the order of the two loops. */
  predicate NotBefore(i: int, j: int, i': int, j': int)
  {
    i' > i || (i' == i && j' >= j)
  }

  /**
   * The two loops from pair `(i, j)` on, with running maximum `acc`: the
   * number of the pair joins `acc`, or its `int` error ends the line; at the
   * end of a row the loops move on to the first battery `i + 1`.
   */
  function Scan(b: string, parse: string -> Result<int, Error>, i: int, j: int, acc: int): Result<int, Error>
    requires 0 <= i <= |b| && i < j
    decreases |b| - i, |b| - j
  {
    if i == |b| then Success(acc)
    else if j >= |b| then Scan(b, parse, i + 1, i + 2, acc)
    else
      var v :- parse(PairText(b, i, j));
      Scan(b, parse, i, j + 1, Max(acc, v))
  }

  /** The value of a line for part 1: the largest pair number, starting from 0, or the first `int` error. */
  function LineMax(b: string, parse: string -> Result<int, Error>): Result<int, Error>
  {
    Scan(b, parse, 0, 1, 0)
  }

  function LineValue1(line: string): Result<int, Error>
  {
    LineMax(Strip(line), ParseNumber)
  }

  /** What `solve_part_1` returns or raises. */
  function Part1(data: string): Result<int, Error>
  {
    var values :- MapResult(LineValue1, Lines(data));
    Success(Sum(values))
  }

  /**
   * The scan fails exactly when some remaining pair does not parse, and then
   * with the error of the first such pair in loop order.
   */
  lemma {:induction false} ScanFails(b: string, parse: string -> Result<int, Error>, i: int, j: int, acc: int)
    requires 0 <= i <= |b| && i < j
    ensures Scan(b, parse, i, j, acc).Failure? <==>
      exists i', j' | 0 <= i' < j' < |b| && NotBefore(i, j, i', j') :: parse(PairText(b, i', j')).Failure?
    ensures Scan(b, parse, i, j, acc).Failure? ==>
      exists i', j' | 0 <= i' < j' < |b| && NotBefore(i, j, i', j') ::
        parse(PairText(b, i', j')).Failure? &&
        Scan(b, parse, i, j, acc).error == parse(PairText(b, i', j')).error &&
        forall i'', j'' | 0 <= i'' < j'' < |b| && NotBefore(i, j, i'', j'') && !NotBefore(i', j', i'', j'') ::
          parse(PairText(b, i'', j'')).Success?
    decreases |b| - i, |b| - j
  {
    if i == |b| {
    } else if j >= |b| {
      ScanFails(b, parse, i + 1, i + 2, acc);
    } else if parse(PairText(b, i, j)).Success? {
      ScanFails(b, parse, i, j + 1, Max(acc, parse(PairText(b, i, j)).value));
    }
  }

  /** The two loops over the pairs of one line. */
  method MaxVoltage(batteries: string, parse: string -> Result<int, Error>) returns (r: Result<int, Error>)
    ensures r == LineMax(batteries, parse)
  {
    var maxVoltage := 0;
    for i := 0 to |batteries|
      invariant Scan(batteries, parse, i, i + 1, maxVoltage) == LineMax(batteries, parse)
    {
      for j := i + 1 to |batteries|
        invariant Scan(batteries, parse, i, j, maxVoltage) == LineMax(batteries, parse)
      {
        var voltage := parse(PairText(batteries, i, j));
        if voltage.Failure? {
          return Failure(voltage.error);
        }
        maxVoltage := Max(maxVoltage, voltage.value);
      }
    }
    return Success(maxVoltage);
  }

  /** The sum over the lines, or the error of the first line that raises. */
  lemma SumNextLine(f: string -> Result<int, Error>, lines: seq<string>, k: int, values: seq<int>)
    requires 0 <= k < |lines| && MapResult(f, lines[..k]) == Success(values)
    ensures f(lines[k]).Failure? ==> MapResult(f, lines) == Failure(f(lines[k]).error)
    ensures f(lines[k]).Success? ==> MapResult(f, lines[..k + 1]) == Success(values + [f(lines[k]).value])
    ensures f(lines[k]).Success? ==> Sum(values + [f(lines[k]).value]) == Sum(values) + f(lines[k]).value
  {
    assert lines[..k + 1] == lines[..k] + [lines[k]];
    MapResultPush(f, lines[..k], lines[k], lines, values);
    if f(lines[k]).Success? {
      SumAppend(values, [f(lines[k]).value]);
    }
  }

  /** `solve_part_1`. */
  method SolvePart1(data: string) returns (r: Result<int, Error>)
    ensures r == Part1(data)
  {
    var lines := Lines(data);
    var totalMaxVoltage := 0;
    ghost var values: seq<int> := [];
    for k := 0 to |lines|
      invariant MapResult(LineValue1, lines[..k]) == Success(values)
      invariant totalMaxVoltage == Sum(values)
    {
      var maxVoltage := MaxVoltage(Strip(lines[k]), ParseNumber);
      SumNextLine(LineValue1, lines, k, values);
      if maxVoltage.Failure? {
        return Failure(maxVoltage.error);
      }
      values := values + [maxVoltage.value];
      totalMaxVoltage := totalMaxVoltage + maxVoltage.value;
    }
    assert lines[..|lines|] == lines;
    return Success(totalMaxVoltage);
  }

  // Part 1 on lines of digits.

  /** The number `int(batteries[i] + batteries[j])` reads: the first digit is the tens. */
  function PairValue(b: string, i: int, j: int): int
    requires 0 <= i < |b| && 0 <= j < |b| && IsDigit(b[i]) && IsDigit(b[j])
  {
    10 * DigitValue(b[i]) + DigitValue(b[j])
  }

  lemma TwoDigits(b: string, i: int, j: int)
    requires 0 <= i < |b| && 0 <= j < |b| && IsDigit(b[i]) && IsDigit(b[j])
    ensures ParseNumber(PairText(b, i, j)) == Success(PairValue(b, i, j))
  {
    var t := PairText(b, i, j);
    ParseDigits(t);
    assert t[..1] == [b[i]] && [b[i]][..0] == [];
    assert NumeralValue([b[i]]) == DigitValue(b[i]);
    assert NumeralValue(t) == NumeralValue(t[..1]) * 10 + DigitValue(b[j]);
  }

  /**
   * When every pair parses, the scan from `(i, j)` never raises, and gives the
   * largest of `acc` and the numbers of the remaining pairs.
   */
  lemma {:induction false} ScanBest(b: string, parse: string -> Result<int, Error>, i: int, j: int, acc: int)
    requires 0 <= i <= |b| && i < j
    requires forall i', j' | 0 <= i' < j' < |b| :: parse(PairText(b, i', j')).Success?
    ensures Scan(b, parse, i, j, acc).Success?
    ensures Scan(b, parse, i, j, acc).value >= acc
    ensures forall i', j' | 0 <= i' < j' < |b| && NotBefore(i, j, i', j') ::
      Scan(b, parse, i, j, acc).value >= parse(PairText(b, i', j')).value
    ensures Scan(b, parse, i, j, acc).value == acc ||
      exists i', j' | 0 <= i' < j' < |b| && NotBefore(i, j, i', j') ::
        Scan(b, parse, i, j, acc).value == parse(PairText(b, i', j')).value
    decreases |b| - i, |b| - j
  {
    if i == |b| {
    } else if j >= |b| {
      ScanBest(b, parse, i + 1, i + 2, acc);
    } else {
      ScanBest(b, parse, i, j + 1, Max(acc, parse(PairText(b, i, j)).value));
    }
  }

  /**
   * On a line of digits, part 1 never raises, and gives the largest two-digit
   * number read from a digit and a later one, or 0 for a line shorter than two.
   */
  lemma Part1LineIsBestPair(b: string)
    requires AllDigits(b)
    ensures LineMax(b, ParseNumber).Success?
    ensures forall i, j | 0 <= i < j < |b| :: LineMax(b, ParseNumber).value >= PairValue(b, i, j)
    ensures |b| >= 2 ==> exists i, j | 0 <= i < j < |b| :: LineMax(b, ParseNumber).value == PairValue(b, i, j)
    ensures |b| < 2 ==> LineMax(b, ParseNumber).value == 0
  {
    forall i, j | 0 <= i < j < |b| ensures ParseNumber(PairText(b, i, j)) == Success(PairValue(b, i, j)) {
      TwoDigits(b, i, j);
    }
    ScanBest(b, ParseNumber, 0, 1, 0);
    var m := LineMax(b, ParseNumber).value;
    if |b| >= 2 && m == 0 {
      assert m >= PairValue(b, 0, 1) >= 0;
    }
  }

  /**
   * A bank of two batteries reads as its two digits side by side ("19" gives
   * 19), not as their sum as the docstring of `solve_part_1` says.
   */
  lemma ConcatenatesDigits(b: string)
    requires |b| == 2 && AllDigits(b)
    ensures LineMax(b, ParseNumber) == Success(10 * DigitValue(b[0]) + DigitValue(b[1]))
  {
    Part1LineIsBestPair(b);
  }

  // ---------------------------------------------------------------------------
  // Part 2

  /** `int(c)` for one character of the line. */
  function ParseBattery(c: char): Result<int, Error>
  {
    ParseNumber([c])
  }

  /** A single character is an integer exactly when it is a digit. */
  lemma ParseBatteryDigit(c: char)
    ensures ParseBattery(c).Success? <==> IsDigit(c)
    ensures IsDigit(c) ==> ParseBattery(c).value == DigitValue(c)
  {
    if IsDigit(c) {
      ParseDigits([c]);
      assert [c][..0] == [];
    } else {
      StripIsInfix([c]);
    }
  }

  /** `list(map(int, line.strip()))`. */
  function Batteries(b: string): Result<seq<int>, Error>
  {
    MapResult(ParseBattery, b)
  }

  predicate IsDigitList(ds: seq<int>)
  {
    forall i | 0 <= i < |ds| :: 0 <= ds[i] < 10
  }

  lemma BatteriesDigits(b: string)
    ensures Batteries(b).Success? <==> AllDigits(b)
    ensures Batteries(b).Success? ==> |Batteries(b).value| == |b| && IsDigitList(Batteries(b).value)
    ensures Batteries(b).Success? ==> forall i | 0 <= i < |b| :: Batteries(b).value[i] == DigitValue(b[i])
  {
    forall i | 0 <= i < |b| ensures ParseBattery(b[i]).Success? <==> IsDigit(b[i]) {
      ParseBatteryDigit(b[i]);
    }
    if Batteries(b).Success? {
      forall i | 0 <= i < |b| ensures Batteries(b).value[i] == DigitValue(b[i]) {
        ParseBatteryDigit(b[i]);
      }
    }
  }

  /** `"".join(map(str, ds))`. */
  function JoinDigits(ds: seq<int>): string
  {
    if ds == [] then "" else JoinDigits(ds[..|ds| - 1]) + IntToString(ds[|ds| - 1])
  }

  /** The number a list of digits spells in base ten. */
  function DigitsValue(ds: seq<int>): int
  {
    if ds == [] then 0 else DigitsValue(ds[..|ds| - 1]) * 10 + ds[|ds| - 1]
  }

  lemma {:induction false} JoinDigitsNumeral(ds: seq<int>)
    requires IsDigitList(ds)
    ensures |JoinDigits(ds)| == |ds| && AllDigits(JoinDigits(ds))
    ensures NumeralValue(JoinDigits(ds)) == DigitsValue(ds)
  {
    if ds != [] {
      var init, d := ds[..|ds| - 1], ds[|ds| - 1];
      JoinDigitsNumeral(init);
      var t := JoinDigits(ds);
      assert IntToString(d) == [DigitChar(d)];
      assert t[..|t| - 1] == JoinDigits(init);
    }
  }

  /** Joining the digits and reading them back gives their value; no digits give `int("")`, which raises. */
  lemma JoinDigitsParses(ds: seq<int>)
    requires IsDigitList(ds)
    ensures ds != [] ==> ParseNumber(JoinDigits(ds)) == Success(DigitsValue(ds))
    ensures ds == [] ==> ParseNumber(JoinDigits(ds)) == Failure(NotAnInteger(""))
  {
    JoinDigitsNumeral(ds);
    if ds != [] {
      ParseDigits(JoinDigits(ds));
    } else {
      assert Strip("") == "";
    }
  }

  /** `str(int(c)) == c` for a digit: joining the batteries of a line of digits gives back the line. */
  lemma JoinBatteries(b: string)
    requires AllDigits(b)
    ensures JoinDigits(Batteries(b).value) == b
  {
    BatteriesDigits(b);
    JoinDigitValues(Batteries(b).value, b);
  }

  /** Joining the values of the digits of `b` spells `b`. */
  lemma {:induction false} JoinDigitValues(ds: seq<int>, b: string)
    requires AllDigits(b) && |ds| == |b|
    requires forall i | 0 <= i < |b| :: ds[i] == DigitValue(b[i])
    ensures JoinDigits(ds) == b
    decreases |b|
  {
    if b != [] {
      var n := |b|;
      JoinDigitValues(ds[..n - 1], b[..n - 1]);
      DigitText(b[n - 1]);
      assert b == b[..n - 1] + [b[n - 1]];
    }
  }

  /** `str(int(c)) == c` for one digit. */
  lemma DigitText(c: char)
    requires IsDigit(c)
    ensures IntToString(DigitValue(c)) == [c]
  {
    assert DigitChar(DigitValue(c)) == c;
  }

  /** Python's `max(window)` for a non-empty window. */
  function SeqMax(w: seq<int>): (m: int)
    requires w != []
    ensures m in w && forall i | 0 <= i < |w| :: w[i] <= m
  {
    if |w| == 1 then w[0] else Max(w[0], SeqMax(w[1..]))
  }

  /** Python's `w.index(x)`: the first position of `x`. */
  function IndexOf(w: seq<int>, x: int): (k: int)
    requires x in w
    ensures 0 <= k < |w| && w[k] == x && x !in w[..k]
  {
    if w[0] == x then 0
    else
      var k := 1 + IndexOf(w[1..], x);
      assert w[..k] == [w[0]] + w[1..][..k - 1];
      k
  }

  /** The position the greedy step picks in `ds[start..end]`: the first maximum of the window. */
  function PickIndex(ds: seq<int>, start: int, end: int): (m: int)
    requires 0 <= start < end <= |ds|
    ensures start <= m < end
    ensures forall i | start <= i < end :: ds[i] <= ds[m]
    ensures forall i | start <= i < m :: ds[i] < ds[m]
    decreases end - start
  {
    if start + 1 == end then start
    else
      var m := PickIndex(ds, start + 1, end);
      if ds[start] >= ds[m] then start else m
  }

  /** `window.index(max(window)) + start_idx` is that first maximum. */
  lemma WindowPick(ds: seq<int>, start: int, end: int)
    requires 0 <= start < end <= |ds|
    ensures var w := ds[start..end]; IndexOf(w, SeqMax(w)) + start == PickIndex(ds, start, end)
  {
    var w := ds[start..end];
    var k := IndexOf(w, SeqMax(w));
    var m := PickIndex(ds, start, end);
    assert w[m - start] == ds[m];
  }

  /**
   * The greedy loop from `start` with `k` positions left: the largest digit in
   * the window that still leaves `k - 1` digits after it, leftmost among equals,
   * then the rest after it.
   */
  function Greedy(ds: seq<int>, start: int, k: nat): (r: seq<int>)
    requires 0 <= start && start + k <= |ds|
    ensures |r| == k
    decreases k
  {
    if k == 0 then []
    else
      var m := PickIndex(ds, start, |ds| - k + 1);
      [ds[m]] + Greedy(ds, m + 1, k - 1)
  }

  /** The positions `Greedy` picks. */
  function GreedyIndices(ds: seq<int>, start: int, k: nat): (r: seq<int>)
    requires 0 <= start && start + k <= |ds|
    ensures |r| == k
    decreases k
  {
    if k == 0 then []
    else
      var m := PickIndex(ds, start, |ds| - k + 1);
      [m] + GreedyIndices(ds, m + 1, k - 1)
  }

  /** Positions in `[lo, |ds|)`, strictly increasing: a choice of digits kept in order. */
  predicate IsPick(ds: seq<int>, idx: seq<int>, lo: int)
  {
    && (forall i | 0 <= i < |idx| :: lo <= idx[i] < |ds|)
    && (forall i, j | 0 <= i < j < |idx| :: idx[i] < idx[j])
  }

  /** The digits at the picked positions. */
  function Picked(ds: seq<int>, idx: seq<int>): (r: seq<int>)
    requires forall i | 0 <= i < |idx| :: 0 <= idx[i] < |ds|
    ensures |r| == |idx|
  {
    if idx == [] then [] else [ds[idx[0]]] + Picked(ds, idx[1..])
  }

  /** The greedy positions form a pick. */
  lemma {:induction false} GreedyIndicesPick(ds: seq<int>, start: int, k: nat)
    requires 0 <= start && start + k <= |ds|
    ensures IsPick(ds, GreedyIndices(ds, start, k), start)
    decreases k
  {
    if k > 0 {
      var m := PickIndex(ds, start, |ds| - k + 1);
      GreedyIndicesPick(ds, m + 1, k - 1);
      ConsPick(ds, m, GreedyIndices(ds, m + 1, k - 1), start);
    }
  }

  /** The greedy digits are those at the greedy positions, which form a pick. */
  lemma {:induction false} GreedyIsPick(ds: seq<int>, start: int, k: nat)
    requires 0 <= start && start + k <= |ds|
    ensures IsPick(ds, GreedyIndices(ds, start, k), start)
    ensures Picked(ds, GreedyIndices(ds, start, k)) == Greedy(ds, start, k)
    decreases k
  {
    GreedyIndicesPick(ds, start, k);
    if k > 0 {
      var m := PickIndex(ds, start, |ds| - k + 1);
      var rest := GreedyIndices(ds, m + 1, k - 1);
      GreedyIsPick(ds, m + 1, k - 1);
      var idx := GreedyIndices(ds, start, k);
      assert idx[0] == m && idx[1..] == rest;
    }
  }

  /** A position followed by a pick of later positions is a pick. */
  lemma ConsPick(ds: seq<int>, m: int, rest: seq<int>, lo: int)
    requires lo <= m < |ds| && IsPick(ds, rest, m + 1)
    ensures IsPick(ds, [m] + rest, lo)
  {
    var idx := [m] + rest;
    forall i, j | 0 <= i < j < |idx| ensures idx[i] < idx[j] {
      if i > 0 {
        assert idx[i] == rest[i - 1] && idx[j] == rest[j - 1];
      } else {
        assert idx[j] == rest[j - 1];
      }
    }
  }

  /** Digit lists of one length, compared from the first digit. */
  predicate LexLE(a: seq<int>, b: seq<int>)
    requires |a| == |b|
  {
    a == [] || a[0] < b[0] || (a[0] == b[0] && LexLE(a[1..], b[1..]))
  }

  /** The first position of a pick of `k` digits leaves room for the other `k - 1`. */
  lemma {:induction false} PickRoom(ds: seq<int>, idx: seq<int>, lo: int, i: int)
    requires IsPick(ds, idx, lo) && 0 <= i < |idx|
    ensures idx[i] <= |ds| - (|idx| - i)
    decreases |idx| - i
  {
    if i < |idx| - 1 {
      PickRoom(ds, idx, lo, i + 1);
    }
  }

  /** No pick of `k` digits from `start` on beats the greedy one, digit by digit. */
  lemma {:induction false} GreedyBeatsPicks(ds: seq<int>, start: int, k: nat, idx: seq<int>)
    requires 0 <= start && start + k <= |ds|
    requires |idx| == k && IsPick(ds, idx, start)
    ensures LexLE(Picked(ds, idx), Greedy(ds, start, k))
    decreases k
  {
    if k > 0 {
      var m := PickIndex(ds, start, |ds| - k + 1);
      PickRoom(ds, idx, start, 0);
      var p := Picked(ds, idx);
      var g := Greedy(ds, start, k);
      assert p[0] == ds[idx[0]] <= ds[m] == g[0];
      if ds[idx[0]] == ds[m] {
        assert m <= idx[0];
        assert IsPick(ds, idx[1..], m + 1);
        GreedyBeatsPicks(ds, m + 1, k - 1, idx[1..]);
        assert p[1..] == Picked(ds, idx[1..]);
        assert g[1..] == Greedy(ds, m + 1, k - 1);
      }
    }
  }

  function Pow10(n: nat): (p: nat)
    ensures p >= 1
  {
    if n == 0 then 1 else 10 * Pow10(n - 1)
  }

  lemma {:induction false} DigitsValueCons(x: int, t: seq<int>)
    ensures DigitsValue([x] + t) == x * Pow10(|t|) + DigitsValue(t)
    decreases |t|
  {
    if t == [] {
      assert ([x] + t)[..0] == [];
    } else {
      var init := t[..|t| - 1];
      DigitsValueCons(x, init);
      assert ([x] + t)[..|t|] == [x] + init;
    }
  }

  lemma {:induction false} DigitsValueBound(t: seq<int>)
    requires IsDigitList(t)
    ensures 0 <= DigitsValue(t) < Pow10(|t|)
  {
    if t != [] {
      DigitsValueBound(t[..|t| - 1]);
    }
  }

  /** For digit lists of one length, the digit-by-digit order is the order of the numbers. */
  lemma {:induction false} LexValue(a: seq<int>, b: seq<int>)
    requires |a| == |b| && IsDigitList(a) && IsDigitList(b) && LexLE(a, b)
    ensures DigitsValue(a) <= DigitsValue(b)
    decreases |a|
  {
    if a != [] {
      var x, y, s, t := a[0], b[0], a[1..], b[1..];
      assert a == [x] + s && b == [y] + t;
      DigitsValueCons(x, s);
      DigitsValueCons(y, t);
      DigitsValueBound(s);
      DigitsValueBound(t);
      if x < y {
        LeadingDigitDecides(x, y, Pow10(|s|), DigitsValue(s), DigitsValue(t));
      } else {
        LexValue(s, t);
      }
    }
  }

  /** A smaller leading digit decides, whatever the lower digits are. */
  lemma LeadingDigitDecides(x: int, y: int, p: int, u: int, v: int)
    requires x < y && 0 <= u < p && 0 <= v
    ensures x * p + u <= y * p + v
  {
    assert (y - x - 1) * p >= 0;
  }

  /** The greedy choice spells the largest number any choice of `k` digits in order spells. */
  lemma GreedyIsLargest(ds: seq<int>, k: nat, idx: seq<int>)
    requires IsDigitList(ds) && k <= |ds|
    requires |idx| == k && IsPick(ds, idx, 0)
    ensures DigitsValue(Picked(ds, idx)) <= DigitsValue(Greedy(ds, 0, k))
  {
    GreedyBeatsPicks(ds, 0, k, idx);
    GreedyIsPick(ds, 0, k);
    assert IsDigitList(Picked(ds, idx)) by {
      PickedDigits(ds, idx);
    }
    PickedDigits(ds, GreedyIndices(ds, 0, k));
    LexValue(Picked(ds, idx), Greedy(ds, 0, k));
  }

  lemma {:induction false} PickedDigits(ds: seq<int>, idx: seq<int>)
    requires IsDigitList(ds) && forall i | 0 <= i < |idx| :: 0 <= idx[i] < |ds|
    ensures IsDigitList(Picked(ds, idx))
  {
    if idx != [] {
      PickedDigits(ds, idx[1..]);
    }
  }

  /**
   * The value of a bank (a stripped line) for part 2 keeping `count` batteries:
   * all its digits when it has at most `count`, else the greedy choice.
   */
  function BankValue(bank: string, count: nat): Result<int, Error>
  {
    var batteries :- Batteries(bank);
    ParseNumber(JoinDigits(Choose(batteries, count)))
  }

  /** The batteries kept: all of them when there are at most `count`, else the greedy choice. */
  function Choose(batteries: seq<int>, count: nat): seq<int>
  {
    if |batteries| <= count then batteries else Greedy(batteries, 0, count)
  }

  /** The kept batteries are digits, `count` of them unless the line is shorter. */
  lemma ChooseDigits(batteries: seq<int>, count: nat)
    requires IsDigitList(batteries)
    ensures IsDigitList(Choose(batteries, count))
    ensures |Choose(batteries, count)| == if |batteries| <= count then |batteries| else count
  {
    if |batteries| > count {
      GreedyIsPick(batteries, 0, count);
      PickedDigits(batteries, GreedyIndices(batteries, 0, count));
    }
  }

  /** A line of `solve_part_2`, which keeps 12 batteries. */
  function LineValue2(line: string): Result<int, Error>
  {
    BankValue(Strip(line), 12)
  }

  /** What `solve_part_2` returns or raises. */
  function Part2(data: string): Result<int, Error>
  {
    var values :- MapResult(LineValue2, Lines(data));
    Success(Sum(values))
  }

  /** A bank raises unless it is a non-empty run of digits: a blank line reaches `int("")`. */
  lemma BankValueFails(bank: string, count: nat)
    requires count > 0
    ensures BankValue(bank, count).Success? <==> IsDigitString(bank)
  {
    BatteriesDigits(bank);
    if AllDigits(bank) {
      var ds := Batteries(bank).value;
      ChooseDigits(ds, count);
      JoinDigitsParses(Choose(ds, count));
    }
  }

  /** A bank of at most `count` digits is the number it spells. */
  lemma BankValueShort(bank: string, count: nat)
    requires IsDigitString(bank) && |bank| <= count
    ensures BankValue(bank, count) == Success(NumeralValue(bank))
  {
    BatteriesDigits(bank);
    var ds := Batteries(bank).value;
    JoinDigitsParses(ds);
    JoinBatteries(bank);
    JoinDigitsNumeral(ds);
  }

  /** Kept digits parse to the number they spell when `count` of more than `count` are kept. */
  lemma ChooseParses(ds: seq<int>, count: nat)
    requires IsDigitList(ds) && |ds| > count > 0
    ensures ParseNumber(JoinDigits(Choose(ds, count))) == Success(DigitsValue(Greedy(ds, 0, count)))
  {
    ChooseDigits(ds, count);
    JoinDigitsParses(Choose(ds, count));
  }

  /** A longer bank is the number spelled by the greedy choice of `count` of its digits. */
  lemma BankValueLong(bank: string, count: nat)
    requires IsDigitString(bank) && |bank| > count > 0
    ensures BankValue(bank, count) == Success(DigitsValue(Greedy(Batteries(bank).value, 0, count)))
  {
    BatteriesDigits(bank);
    ChooseParses(Batteries(bank).value, count);
  }

  /** A longer bank is the largest number that `count` of its digits, kept in order, spell. */
  lemma BankValueLargest(bank: string, count: nat)
    requires IsDigitString(bank) && |bank| > count > 0
    ensures BankValue(bank, count).Success?
    ensures forall idx | |idx| == count && IsPick(Batteries(bank).value, idx, 0)
              :: DigitsValue(Picked(Batteries(bank).value, idx)) <= BankValue(bank, count).value
  {
    BankValueLong(bank, count);
    var ds := Batteries(bank).value;
    BatteriesDigits(bank);
    forall idx | |idx| == count && IsPick(ds, idx, 0) ensures DigitsValue(Picked(ds, idx)) <= DigitsValue(Greedy(ds, 0, count)) {
      GreedyIsLargest(ds, count, idx);
    }
  }

  /** Unfolding one greedy step. */
  lemma GreedyStep(ds: seq<int>, start: int, k: nat)
    requires 0 <= start && start + k <= |ds| && k > 0
    ensures var m := PickIndex(ds, start, |ds| - k + 1);
            Greedy(ds, start, k) == [ds[m]] + Greedy(ds, m + 1, k - 1)
  {
  }

  /** `max(batteries[start_idx:end_idx])` and the position of its first occurrence. */
  method MaxInWindow(batteries: seq<int>, startIdx: int, endIdx: int) returns (maxDigit: int, maxIdx: int)
    requires 0 <= startIdx < endIdx <= |batteries|
    ensures maxIdx == PickIndex(batteries, startIdx, endIdx) && maxDigit == batteries[maxIdx]
  {
    var window := batteries[startIdx..endIdx];
    maxDigit := SeqMax(window);
    maxIdx := IndexOf(window, maxDigit) + startIdx;
    WindowPick(batteries, startIdx, endIdx);
  }

  /** The window's first maximum is the next digit the greedy choice keeps, and the choice goes on after it. */
  method PickNext(batteries: seq<int>, startIdx: int, endIdx: int, remaining: nat) returns (maxDigit: int, maxIdx: int)
    requires 0 <= startIdx && startIdx + remaining <= |batteries| && remaining > 0
    requires endIdx == |batteries| - remaining + 1
    ensures startIdx <= maxIdx < endIdx
    ensures Greedy(batteries, startIdx, remaining) == [maxDigit] + Greedy(batteries, maxIdx + 1, remaining - 1)
  {
    maxDigit, maxIdx := MaxInWindow(batteries, startIdx, endIdx);
    GreedyStep(batteries, startIdx, remaining);
  }

  /**
   * The greedy loop of `solve_part_2` for a line of more than `count`
   * batteries (`count` is 12 there). The window `[start_idx, end_idx)` is never
   * empty, and the early `break` only fires after the last position.
   */
  method GreedyPick(batteries: seq<int>, count: nat) returns (result: seq<int>)
    requires |batteries| > count
    ensures result == Greedy(batteries, 0, count)
  {
    var n := |batteries|;
    result := [];
    var startIdx := 0;
    var remainingPositions := count;
    for pos := 0 to count
      invariant remainingPositions == count - pos
      invariant 0 <= startIdx <= n - remainingPositions
      invariant result + Greedy(batteries, startIdx, remainingPositions) == Greedy(batteries, 0, count)
    {
      var endIdx := n - remainingPositions + 1;
      var maxDigit, maxIdx := PickNext(batteries, startIdx, endIdx, remainingPositions);
      ghost var rest := Greedy(batteries, maxIdx + 1, remainingPositions - 1);
      assert (result + [maxDigit]) + rest == result + ([maxDigit] + rest);
      result := result + [maxDigit];
      startIdx := maxIdx + 1;
      remainingPositions := remainingPositions - 1;
      if startIdx >= n {
        assert remainingPositions == 0;
        break;
      }
    }
  }

  /** One line of `solve_part_2`. */
  method OutputVoltage(line: string) returns (r: Result<int, Error>)
    ensures r == LineValue2(line)
  {
    var count := 12;
    r := BankVoltage(Strip(line), count);
  }

  /** The body of `solve_part_2`'s line loop on a stripped bank, for any number of batteries to keep. */
  method BankVoltage(bank: string, count: nat) returns (r: Result<int, Error>)
    ensures r == BankValue(bank, count)
  {
    var batteries :- Batteries(bank);
    var n := |batteries|;
    var voltageStr;
    if n <= count {
      voltageStr := JoinDigits(batteries);
    } else {
      var result := GreedyPick(batteries, count);
      voltageStr := JoinDigits(result);
    }
    assert voltageStr == JoinDigits(Choose(batteries, count));
    r := ParseNumber(voltageStr);
  }

  /** `solve_part_2`. */
  method SolvePart2(data: string) returns (r: Result<int, Error>)
    ensures r == Part2(data)
  {
    var lines := Lines(data);
    var totalOutputVoltage := 0;
    ghost var values: seq<int> := [];
    for k := 0 to |lines|
      invariant MapResult(LineValue2, lines[..k]) == Success(values)
      invariant totalOutputVoltage == Sum(values)
    {
      var voltage := OutputVoltage(lines[k]);
      SumNextLine(LineValue2, lines, k, values);
      if voltage.Failure? {
        return Failure(voltage.error);
      }
      values := values + [voltage.value];
      totalOutputVoltage := totalOutputVoltage + voltage.value;
    }
    assert lines[..|lines|] == lines;
    return Success(totalOutputVoltage);
  }
}
