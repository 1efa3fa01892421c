/**
 * Day 1, improved solution: a dial with the positions 0..99 starts at 50 and
 * is turned left or right a number of clicks per input line. Part 1 counts
 * the turns that leave the dial at 0; part 2 counts every click that points
 * the dial at 0.
 */
module Day01 {

  import opened Wrappers
  import opened Text

  const InitialPosition := 50
  const MaxPosition := 99
  const MinPosition := 0
  const TotalPositions := 100

  datatype Direction = Left | Right

  /** `ValueError` and `DialRotationError`, with what their messages embed. */
  datatype Error =
    | PositionOutOfRange(position: int)
    | NegativeSteps(steps: int)
    | LineError(lineNum: nat, problem: LineProblem)

  /** Why `parse_input` refuses a line. */
  datatype LineProblem =
    | InvalidFormat(line: string)
    | InvalidNumber(text: string)
    | InvalidOperation(op: char)
    | NegativeValue(value: int)

  // ---------------------------------------------------------------------------
  // Clicks that pass 0

  /** The dial position, not yet reduced modulo 100, `k` clicks away from `p`. */
  function Turned(p: int, k: int, dir: Direction): int
  {
    if dir == Left then p - k else p + k
  }

  /** The number of clicks among the first `s` from `p` after which the dial points at 0. */
  function ZeroHits(p: int, s: int, dir: Direction): nat
    decreases s
  {
    if s <= 0 then 0
    else ZeroHits(p, s - 1, dir) + (if Turned(p, s, dir) % TotalPositions == 0 then 1 else 0)
  }

  /** The same count in closed form: one hit per multiple of 100 crossed. */
  function HitsFormula(p: int, s: nat, dir: Direction): int
  {
    if dir == Right then (p + s) / TotalPositions
    else if p == 0 then s / TotalPositions
    else if s >= p then (s - p) / TotalPositions + 1
    else 0
  }

  lemma DivStep(x: int)
    requires x >= 1
    ensures x / 100 == (x - 1) / 100 + (if x % 100 == 0 then 1 else 0)
  {
  }

  lemma NegatedMultiple(x: int)
    ensures x % 100 == 0 <==> (-x) % 100 == 0
  {
    if x % 100 == 0 {
      assert -x == (-(x / 100)) * 100;
    }
    if (-x) % 100 == 0 {
      assert x == (-((-x) / 100)) * 100;
    }
  }

  /** Counting click by click agrees with the closed form from any position on the dial. */
  lemma {:induction false} ZeroHitsClosedForm(p: int, s: nat, dir: Direction)
    requires 0 <= p < TotalPositions
    ensures ZeroHits(p, s, dir) == HitsFormula(p, s, dir)
  {
    if s > 0 {
      ZeroHitsClosedForm(p, s - 1, dir);
      if dir == Right {
        DivStep(p + s);
      } else {
        NegatedMultiple(s - p);
        assert Turned(p, s, dir) == -(s - p);
        if p == 0 {
          DivStep(s);
        } else if s > p {
          DivStep(s - p);
        } else if s < p {
          assert 0 < p - s < 100;
        }
      }
    }
  }

  // ---------------------------------------------------------------------------
  // The dial

  class CircularDial {

    var position: int
    var zeroCount: int

    ghost predicate Valid()
      reads this
    {
      MinPosition <= position <= MaxPosition && zeroCount >= 0
    }

    /** The dial once `CircularDial(initial_position)` has checked its argument; see `NewDial`. */
    constructor (initialPosition: int)
      requires MinPosition <= initialPosition <= MaxPosition
      ensures Valid()
      ensures position == initialPosition && zeroCount == 0
    {
      position := initialPosition;
      zeroCount := 0;
    }

    /** `rotate_left`: negative steps fail before anything changes. */
    method RotateLeft(steps: int) returns (r: Result<int, Error>)
      requires Valid()
      modifies this
      ensures Valid()
      ensures steps < 0 ==> r == Failure(NegativeSteps(steps))
                            && position == old(position) && zeroCount == old(zeroCount)
      ensures steps >= 0 ==> && position == (old(position) - steps) % TotalPositions
                             && zeroCount == old(zeroCount) + ZeroHits(old(position), steps, Left)
                             && r == Success(position)
    {
      if steps < 0 {
        return Failure(NegativeSteps(steps));
      }
      var originalPosition := position;
      for step := 1 to steps + 1
        invariant position == originalPosition
        invariant zeroCount == old(zeroCount) + ZeroHits(originalPosition, step - 1, Left)
      {
        var intermediatePos := (originalPosition - step) % TotalPositions;
        if intermediatePos == 0 {
          zeroCount := zeroCount + 1;
        }
      }
      position := (position - steps) % TotalPositions;
      return Success(position);
    }

    /** `rotate_right`: negative steps fail before anything changes. */
    method RotateRight(steps: int) returns (r: Result<int, Error>)
      requires Valid()
      modifies this
      ensures Valid()
      ensures steps < 0 ==> r == Failure(NegativeSteps(steps))
                            && position == old(position) && zeroCount == old(zeroCount)
      ensures steps >= 0 ==> && position == (old(position) + steps) % TotalPositions
                             && zeroCount == old(zeroCount) + ZeroHits(old(position), steps, Right)
                             && r == Success(position)
    {
      if steps < 0 {
        return Failure(NegativeSteps(steps));
      }
      var originalPosition := position;
      for step := 1 to steps + 1
        invariant position == originalPosition
        invariant zeroCount == old(zeroCount) + ZeroHits(originalPosition, step - 1, Right)
      {
        var intermediatePos := (originalPosition + step) % TotalPositions;
        if intermediatePos == 0 {
          zeroCount := zeroCount + 1;
        }
      }
      position := (position + steps) % TotalPositions;
      return Success(position);
    }
  }

  /** `CircularDial(initial_position)`: positions outside 0..99 are refused. */
  method NewDial(initialPosition: int) returns (r: Result<CircularDial, Error>)
    ensures r.Failure? <==> !(MinPosition <= initialPosition <= MaxPosition)
    ensures r.Failure? ==> r.error == PositionOutOfRange(initialPosition)
    ensures r.Success? ==> && fresh(r.value) && r.value.Valid()
                           && r.value.position == initialPosition && r.value.zeroCount == 0
  {
    if !(MinPosition <= initialPosition <= MaxPosition) {
      return Failure(PositionOutOfRange(initialPosition));
    }
    var dial := new CircularDial(initialPosition);
    return Success(dial);
  }

  // ---------------------------------------------------------------------------
  // parse_input

  datatype Operation = Operation(op: char, steps: int)

  /** Every operation is an upper-case L or R with a non-negative number of steps. */
  predicate ValidOps(ops: seq<Operation>)
  {
    forall i | 0 <= i < |ops| :: (ops[i].op == 'L' || ops[i].op == 'R') && ops[i].steps >= 0
  }

  lemma ValidOpsTail(ops: seq<Operation>)
    requires ops != [] && ValidOps(ops)
    ensures ValidOps(ops[1..])
  {
    forall i | 0 <= i < |ops| - 1 ensures (ops[1..][i].op == 'L' || ops[1..][i].op == 'R') && ops[1..][i].steps >= 0 {
      assert ops[1..][i] == ops[i + 1];
    }
  }

  /** `str.upper()` on one character, for the ASCII letters. */
  function Upper(c: char): char
  {
    if 'a' <= c <= 'z' then (c as int - 32) as char else c
  }

  /** One line of `parse_input`, numbered `lineNum`: `None` for a blank line. */
  function ParseLine(lineNum: nat, raw: string): (r: Result<Option<Operation>, Error>)
    ensures r == Success(None) <==> Strip(raw) == []
    ensures r.Success? <==> || Strip(raw) == []
                            || (&& |Strip(raw)| >= 2
                                && (Upper(Strip(raw)[0]) == 'L' || Upper(Strip(raw)[0]) == 'R')
                                && ParseInt(Strip(raw)[1..]).Some? && ParseInt(Strip(raw)[1..]).value >= 0)
    ensures r.Success? && r.value.Some? ==> r.value.value == Operation(Upper(Strip(raw)[0]), ParseInt(Strip(raw)[1..]).value)
    ensures r.Success? && r.value.Some? ==> ValidOps([r.value.value])
    ensures r.Failure? ==> r.error.LineError? && r.error.lineNum == lineNum
  {
    var line := Strip(raw);
    if line == [] then Success(None)
    else if |line| < 2 then Failure(LineError(lineNum, InvalidFormat(line)))
    else
      var op := Upper(line[0]);
      match ParseInt(line[1..])
      case None => Failure(LineError(lineNum, InvalidNumber(line[1..])))
      case Some(value) =>
        if op != 'L' && op != 'R' then Failure(LineError(lineNum, InvalidOperation(op)))
        else if value < 0 then Failure(LineError(lineNum, NegativeValue(value)))
        else Success(Some(Operation(op, value)))
  }

  /** A lower-case letter is read as upper case: `l5` turns left by 5. */
  lemma LowerCaseAccepted()
    ensures ParseLine(1, "l5") == Success(Some(Operation('L', 5)))
  {
    StripUnpadded("l5");
    assert "l5"[1..] == "5";
    ParseDigits("5");
  }

  /** `X5` is refused for its letter. */
  lemma UnknownLetterRefused()
    ensures ParseLine(1, "X5") == Failure(LineError(1, InvalidOperation('X')))
  {
    StripUnpadded("X5");
    assert "X5"[1..] == "5";
    ParseDigits("5");
  }

  /** `Labc` is refused for its number, which `int()` does not accept. */
  lemma BadNumberRefused()
    ensures ParseLine(1, "Labc") == Failure(LineError(1, InvalidNumber("abc")))
  {
    StripUnpadded("Labc");
    assert "Labc"[1..] == "abc";
    StripUnpadded("abc");
  }

  /** `L-5` is refused for its negative count. */
  lemma NegativeRefused()
    ensures ParseLine(1, "L-5") == Failure(LineError(1, NegativeValue(-5)))
  {
    StripUnpadded("L-5");
    assert "L-5"[1..] == "-5";
    StripUnpadded("-5");
    assert "-5"[1..] == "5";
  }

  /**
   * The loop `for line_num, line in enumerate(lines, first)` whose body `f`
   * skips a line (`None`), keeps a value (`Some`) or raises: the kept values
   * in order, or the error of the first line that raises.
   */
  function CollectLines<T, E>(f: (nat, string) -> Result<Option<T>, E>, lines: seq<string>, first: nat): (r: Result<seq<T>, E>)
    ensures r.Success? ==> |r.value| <= |lines|
    decreases |lines|
  {
    if lines == [] then Success([])
    else
      match f(first, lines[0])
      case Failure(e) => Failure(e)
      case Success(o) =>
        match CollectLines(f, lines[1..], first + 1)
        case Failure(e) => Failure(e)
        case Success(rest) => Success(if o.Some? then [o.value] + rest else rest)
  }

  /** The lines are accepted exactly when each of them is. */
  lemma {:induction false} CollectAccepts<T, E>(f: (nat, string) -> Result<Option<T>, E>, lines: seq<string>, first: nat)
    ensures CollectLines(f, lines, first).Success? <==> forall i | 0 <= i < |lines| :: f(first + i, lines[i]).Success?
    decreases |lines|
  {
    if lines != [] {
      CollectAccepts(f, lines[1..], first + 1);
      assert forall i | 1 <= i < |lines| :: f(first + 1 + (i - 1), lines[1..][i - 1]) == f(first + i, lines[i]);
    }
  }

  /** A refusal carries the error, and so the number, of the first refused line. */
  lemma {:induction false} CollectFirstError<T, E>(f: (nat, string) -> Result<Option<T>, E>, lines: seq<string>, first: nat)
    requires CollectLines(f, lines, first).Failure?
    ensures exists i | 0 <= i < |lines| :: && f(first + i, lines[i]) == Failure(CollectLines(f, lines, first).error)
                                          && forall j | 0 <= j < i :: f(first + j, lines[j]).Success?
    decreases |lines|
  {
    var e := CollectLines(f, lines, first).error;
    if f(first, lines[0]).Failure? {
      assert f(first + 0, lines[0]) == Failure(e);
    } else {
      var tail := lines[1..];
      CollectFirstError(f, tail, first + 1);
      var i :| && 0 <= i < |tail|
               && f(first + 1 + i, tail[i]) == Failure(e)
               && forall j | 0 <= j < i :: f(first + 1 + j, tail[j]).Success?;
      assert tail[i] == lines[i + 1];
      forall j | 0 <= j < i + 1 ensures f(first + j, lines[j]).Success? {
        if j > 0 {
          assert tail[j - 1] == lines[j];
          assert f(first + 1 + (j - 1), tail[j - 1]).Success?;
        }
      }
      assert f(first + (i + 1), lines[i + 1]) == Failure(e);
    }
  }

  /** Every value kept is one that `f` produced for some line. */
  lemma {:induction false} CollectKeeps<T, E>(f: (nat, string) -> Result<Option<T>, E>, lines: seq<string>, first: nat, x: T)
    requires CollectLines(f, lines, first).Success? && x in CollectLines(f, lines, first).value
    ensures exists i | 0 <= i < |lines| :: f(first + i, lines[i]) == Success(Some(x))
    decreases |lines|
  {
    var o := f(first, lines[0]).value;
    if o == Some(x) {
      assert f(first + 0, lines[0]) == Success(Some(x));
    } else {
      CollectKeeps(f, lines[1..], first + 1, x);
      var i :| 0 <= i < |lines| - 1 && f(first + 1 + i, lines[1..][i]) == Success(Some(x));
      assert f(first + (i + 1), lines[i + 1]) == Success(Some(x));
    }
  }

  /** The lines numbered from `first`, each read by `ParseLine`. */
  function ParseLines(lines: seq<string>, first: nat): (r: Result<seq<Operation>, Error>)
    ensures r.Success? ==> ValidOps(r.value)
  {
    var r := CollectLines(ParseLine, lines, first);
    if r.Success? then
      assert ValidOps(r.value) by {
        forall k | 0 <= k < |r.value| ensures (r.value[k].op == 'L' || r.value[k].op == 'R') && r.value[k].steps >= 0 {
          KeptValid(lines, first, r.value[k]);
        }
      }
      r
    else r
  }

  lemma KeptValid(lines: seq<string>, first: nat, o: Operation)
    requires CollectLines(ParseLine, lines, first).Success? && o in CollectLines(ParseLine, lines, first).value
    ensures (o.op == 'L' || o.op == 'R') && o.steps >= 0
  {
    CollectKeeps(ParseLine, lines, first, o);
    var i :| 0 <= i < |lines| && ParseLine(first + i, lines[i]) == Success(Some(o));
    assert ValidOps([o]);
  }

  /** `parse_input(data)`: the lines of the stripped input, numbered from 1. */
  function Operations(data: string): Result<seq<Operation>, Error>
  {
    ParseLines(Lines(data), 1)
  }

  /** Values already kept, in front of what the remaining lines give. */
  function Prepend<T, E>(kept: seq<T>, r: Result<seq<T>, E>): Result<seq<T>, E>
  {
    if r.Failure? then r else Success(kept + r.value)
  }

  /** One turn of a loop over `lines` that keeps `CollectLines` as its invariant. */
  lemma CollectAt<T, E>(f: (nat, string) -> Result<Option<T>, E>, lines: seq<string>, i: int, first: nat, kept: seq<T>, o: Option<T>)
    requires 0 <= i < |lines| && f(first + i, lines[i]) == Success(o)
    ensures Prepend(kept, CollectLines(f, lines[i..], first + i))
            == Prepend(if o.Some? then kept + [o.value] else kept, CollectLines(f, lines[i + 1..], first + i + 1))
  {
    assert lines[i..][1..] == lines[i + 1..];
    var rest := CollectLines(f, lines[i + 1..], first + i + 1);
    if o.Some? && rest.Success? {
      assert (kept + [o.value]) + rest.value == kept + ([o.value] + rest.value);
    }
  }

  /** A loop over `lines` that stops at the first refused line returns its error. */
  lemma CollectStops<T, E>(f: (nat, string) -> Result<Option<T>, E>, lines: seq<string>, i: int, first: nat, kept: seq<T>)
    requires 0 <= i < |lines| && f(first + i, lines[i]).Failure?
    ensures Prepend(kept, CollectLines(f, lines[i..], first + i)) == Failure(f(first + i, lines[i]).error)
  {
  }

  /** The loop's invariant holds on entry and gives the result on exit. */
  lemma CollectEnds<T, E>(f: (nat, string) -> Result<Option<T>, E>, lines: seq<string>, first: nat, kept: seq<T>)
    ensures CollectLines(f, lines, first) == Prepend([], CollectLines(f, lines[0..], first + 0))
    ensures Prepend(kept, CollectLines(f, lines[|lines|..], first + |lines|)) == Success(kept)
  {
    assert lines[0..] == lines;
    assert lines[|lines|..] == [];
    assert kept + [] == kept;
    var r := CollectLines(f, lines, first);
    if r.Success? {
      assert [] + r.value == r.value;
    }
  }

  method ParseInput(data: string) returns (r: Result<seq<Operation>, Error>)
    ensures r == Operations(data)
  {
    var lines := Lines(data);
    var operations := [];
    CollectEnds(ParseLine, lines, 1, operations);
    for i := 0 to |lines|
      invariant CollectLines(ParseLine, lines, 1) == Prepend(operations, CollectLines(ParseLine, lines[i..], 1 + i))
    {
      var parsed := ParseLine(i + 1, lines[i]);
      if parsed.Failure? {
        CollectStops(ParseLine, lines, i, 1, operations);
        return Failure(parsed.error);
      }
      CollectAt(ParseLine, lines, i, 1, operations, parsed.value);
      if parsed.value.Some? {
        operations := operations + [parsed.value.value];
      }
    }
    CollectEnds(ParseLine, lines, 1, operations);
    return Success(operations);
  }

  // ---------------------------------------------------------------------------
  // The input format, written back

  function RenderOperation(o: Operation): string
  {
    [o.op] + IntToString(o.steps)
  }

  function RenderLines(ops: seq<Operation>): (r: seq<string>)
    ensures |r| == |ops|
    ensures forall i | 0 <= i < |ops| :: r[i] == RenderOperation(ops[i])
  {
    if ops == [] then [] else [RenderOperation(ops[0])] + RenderLines(ops[1..])
  }

  /** The input text with one operation per line. */
  function Render(ops: seq<Operation>): string
  {
    Join(RenderLines(ops), '\n')
  }

  /** The number after the operation letter reads back as the steps. */
  lemma RenderedSteps(o: Operation)
    requires o.steps >= 0
    ensures |RenderOperation(o)| >= 2 && ParseInt(RenderOperation(o)[1..]) == Some(o.steps)
  {
    var line := RenderOperation(o);
    assert line[1..] == NatToString(o.steps);
    ParseDigits(line[1..]);
  }

  lemma RenderedLine(o: Operation, lineNum: nat)
    requires (o.op == 'L' || o.op == 'R') && o.steps >= 0
    ensures ParseLine(lineNum, RenderOperation(o)) == Success(Some(o))
  {
    var line := RenderOperation(o);
    RenderedSteps(o);
    RenderedLineShape(o);
    StripUnpadded(line);
    assert Upper(line[0]) == o.op;
  }

  lemma {:induction false} RenderedLines(ops: seq<Operation>, first: nat)
    requires ValidOps(ops)
    ensures ParseLines(RenderLines(ops), first) == Success(ops)
  {
    if ops != [] {
      assert ops[0] == ops[0 + 0];
      RenderedLine(ops[0], first);
      ValidOpsTail(ops);
      RenderedLines(ops[1..], first + 1);
      assert RenderLines(ops)[1..] == RenderLines(ops[1..]);
      assert [ops[0]] + ops[1..] == ops;
    }
  }

  lemma {:induction false} JoinEnds(parts: seq<string>, sep: char)
    requires parts != [] && forall i | 0 <= i < |parts| :: parts[i] != []
    ensures Join(parts, sep) != []
    ensures Join(parts, sep)[0] == parts[0][0]
    ensures Join(parts, sep)[|Join(parts, sep)| - 1] == parts[|parts| - 1][|parts[|parts| - 1]| - 1]
  {
    if |parts| > 1 {
      var tail := parts[1..];
      assert forall i | 0 <= i < |tail| :: tail[i] == parts[i + 1];
      JoinEnds(tail, sep);
      var rest := Join(tail, sep);
      var whole := parts[0] + [sep] + rest;
      assert Join(parts, sep) == whole;
      assert whole[0] == parts[0][0];
      assert whole[|whole| - 1] == rest[|rest| - 1];
    }
  }

  lemma RenderedLineShape(o: Operation)
    requires (o.op == 'L' || o.op == 'R') && o.steps >= 0
    ensures RenderOperation(o) != []
    ensures !IsSpace(RenderOperation(o)[0]) && !IsSpace(RenderOperation(o)[|RenderOperation(o)| - 1])
    ensures '\n' !in RenderOperation(o)
  {
    var digits := NatToString(o.steps);
    assert RenderOperation(o) == [o.op] + digits;
    assert forall j | 0 <= j < |digits| :: IsDigit(digits[j]);
  }

  /** A rendered input has nothing to strip and one rendered line per operation. */
  lemma RenderedText(ops: seq<Operation>)
    requires ValidOps(ops)
    ensures Lines(Render(ops)) == if ops == [] then [""] else RenderLines(ops)
  {
    var lines := RenderLines(ops);
    if ops != [] {
      forall i | 0 <= i < |lines|
        ensures lines[i] != [] && !IsSpace(lines[i][0]) && !IsSpace(lines[i][|lines[i]| - 1]) && '\n' !in lines[i]
      {
        RenderedLineShape(ops[i]);
      }
      JoinEnds(lines, '\n');
      StripUnpadded(Join(lines, '\n'));
      SplitJoin(lines, '\n');
    }
  }

  /** Parsing the rendered input gives back the operations; the empty input holds none. */
  lemma RenderRoundTrip(ops: seq<Operation>)
    requires ValidOps(ops)
    ensures Operations(Render(ops)) == Success(ops)
  {
    RenderedText(ops);
    if ops == [] {
      assert ParseLine(1, "") == Success(None);
    } else {
      RenderedLines(ops, 1);
    }
  }

  // ---------------------------------------------------------------------------
  // The three solvers

  /** Anything but `L` turns the dial right, as the solvers' `else` branches do. */
  function DirectionOf(op: char): Direction
  {
    if op == 'L' then Left else Right
  }

  /** Where one operation leaves the dial. */
  function Rotated(p: int, o: Operation): (q: int)
    ensures MinPosition <= q <= MaxPosition
  {
    Turned(p, o.steps, DirectionOf(o.op)) % TotalPositions
  }

  /** The number of operations, from position `p`, that leave the dial at 0. */
  function Landings(p: int, ops: seq<Operation>): nat
    decreases |ops|
  {
    if ops == [] then 0
    else
      var q := Rotated(p, ops[0]);
      (if q == 0 then 1 else 0) + Landings(q, ops[1..])
  }

  /** The number of clicks, over all operations from position `p`, that point the dial at 0. */
  function Passes(p: int, ops: seq<Operation>): nat
    decreases |ops|
  {
    if ops == [] then 0
    else ZeroHits(p, ops[0].steps, DirectionOf(ops[0].op)) + Passes(Rotated(p, ops[0]), ops[1..])
  }

  /** A turn of at least one click that stops on 0 has passed 0 at its last click. */
  lemma {:induction false} LandingsAtMostPasses(p: int, ops: seq<Operation>)
    requires forall i | 0 <= i < |ops| :: ops[i].steps >= 1
    ensures Landings(p, ops) <= Passes(p, ops)
    decreases |ops|
  {
    if ops != [] {
      LandingsAtMostPasses(Rotated(p, ops[0]), ops[1..]);
    }
  }

  /** Part 1: the number of operations that leave the dial at 0, or the parse error. */
  function Part1(data: string): Result<int, Error>
  {
    match Operations(data)
    case Failure(e) => Failure(e)
    case Success(ops) => Success(Landings(InitialPosition, ops))
  }

  /** Part 2: the number of clicks that point the dial at 0, or the parse error. */
  function Part2(data: string): Result<int, Error>
  {
    match Operations(data)
    case Failure(e) => Failure(e)
    case Success(ops) => Success(Passes(InitialPosition, ops))
  }

  /** The loop of `solve_part_1_optimized`: the dial is moved directly and counts its landings on 0. */
  method CountLandings(operations: seq<Operation>) returns (count: int)
    ensures count == Landings(InitialPosition, operations)
  {
    var dial := new CircularDial(InitialPosition);
    for i := 0 to |operations|
      invariant dial.Valid()
      invariant dial.zeroCount + Landings(dial.position, operations[i..]) == Landings(InitialPosition, operations)
    {
      assert operations[i..][1..] == operations[i + 1..];
      var Operation(op, steps) := operations[i];
      if op == 'L' {
        dial.position := (dial.position - steps) % TotalPositions;
      } else {
        dial.position := (dial.position + steps) % TotalPositions;
      }
      if dial.position == 0 {
        dial.zeroCount := dial.zeroCount + 1;
      }
    }
    return dial.zeroCount;
  }

  method SolvePart1Optimized(data: string) returns (r: Result<int, Error>)
    ensures r == Part1(data)
  {
    var operations :- ParseInput(data);
    var count := CountLandings(operations);
    return Success(count);
  }

  /** The loop of `solve_part_2_optimized`: the dial counts the clicks of each rotation. */
  method CountPasses(operations: seq<Operation>) returns (count: int)
    requires ValidOps(operations)
    ensures count == Passes(InitialPosition, operations)
  {
    var dial := new CircularDial(InitialPosition);
    for i := 0 to |operations|
      invariant dial.Valid()
      invariant dial.zeroCount + Passes(dial.position, operations[i..]) == Passes(InitialPosition, operations)
    {
      assert operations[i..][1..] == operations[i + 1..];
      assert operations[i].steps >= 0;
      var Operation(op, steps) := operations[i];
      if op == 'L' {
        var _ := dial.RotateLeft(steps);
      } else {
        var _ := dial.RotateRight(steps);
      }
    }
    return dial.zeroCount;
  }

  method SolvePart2Optimized(data: string) returns (r: Result<int, Error>)
    ensures r == Part2(data)
  {
    var operations :- ParseInput(data);
    var count := CountPasses(operations);
    return Success(count);
  }

  /** `_count_zeros_in_rotation`: the clicks of one turn that point at 0. */
  method CountZerosInRotation(startPos: int, steps: int, direction: char) returns (zeros: int)
    ensures zeros == ZeroHits(startPos, steps, DirectionOf(direction))
  {
    if steps == 0 {
      return 0;
    }
    zeros := 0;
    var step := 1;
    if direction == 'L' {
      while step <= steps
        invariant 1 <= step && (steps >= 0 ==> step <= steps + 1) && (steps < 0 ==> step == 1)
        invariant zeros == ZeroHits(startPos, step - 1, Left)
      {
        if (startPos - step) % TotalPositions == 0 {
          zeros := zeros + 1;
        }
        step := step + 1;
      }
    } else {
      while step <= steps
        invariant 1 <= step && (steps >= 0 ==> step <= steps + 1) && (steps < 0 ==> step == 1)
        invariant zeros == ZeroHits(startPos, step - 1, Right)
      {
        if (startPos + step) % TotalPositions == 0 {
          zeros := zeros + 1;
        }
        step := step + 1;
      }
    }
  }

  /** The loop of `solve_part_2_mathematical`: no dial, one count per rotation. */
  method SumRotationZeros(operations: seq<Operation>) returns (totalZeros: int)
    ensures totalZeros == Passes(InitialPosition, operations)
  {
    var position := InitialPosition;
    totalZeros := 0;
    for i := 0 to |operations|
      invariant totalZeros + Passes(position, operations[i..]) == Passes(InitialPosition, operations)
    {
      assert operations[i..][1..] == operations[i + 1..];
      var Operation(op, steps) := operations[i];
      var zerosInThisRotation := CountZerosInRotation(position, steps, op);
      totalZeros := totalZeros + zerosInThisRotation;
      if op == 'L' {
        position := (position - steps) % TotalPositions;
      } else {
        position := (position + steps) % TotalPositions;
      }
    }
  }

  method SolvePart2Mathematical(data: string) returns (r: Result<int, Error>)
    ensures r == Part2(data)
  {
    var operations :- ParseInput(data);
    var totalZeros := SumRotationZeros(operations);
    return Success(totalZeros);
  }
}
