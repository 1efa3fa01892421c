/**
 * Day 1, original solution: the same dial read line by line without a
 * parser. Part 1 wraps the value by hand; part 2 reduces modulo 100 and
 * counts the clicks that pass 0.
 */
module Day01Original {

  import opened Wrappers
  import opened Text
  import Day01

  /** The `ValueError` of `int(line[1:])`, with the text it refused. */
  datatype Error = NotAnInteger(text: string)

  predicate StartsWith(line: string, c: char)
  {
    line != [] && line[0] == c
  }

  // ---------------------------------------------------------------------------
  // solve_part_1

  /** The value after turning `c` clicks, as `solve_part_1` wraps it; other operations leave it. */
  function TurnAsWritten(v: int, op: char, c: int): int
  {
    if op == 'L' then
      var difference := v - c;
      if difference < 0 then 99 + difference else v - c
    else if op == 'R' then
      var difference := v + c;
      if difference > 99 then difference - 100 else v + c
    else v
  }

  /**
   * What both solvers read from a line: a turn `(letter, clicks)` for a line
   * starting with `L` or `R`, nothing for any other line, or the error of
   * `int(line[1:])`.
   */
  function ReadTurn(line: string): Result<Option<(char, int)>, Error>
  {
    if StartsWith(line, 'L') || StartsWith(line, 'R') then
      match ParseInt(line[1..])
      case None => Failure(NotAnInteger(line[1..]))
      case Some(c) => Success(Some((line[0], c)))
    else Success(None)
  }

  /** The value after one line of `solve_part_1`. */
  function TurnStep(v: int, line: string): Result<int, Error>
  {
    match ReadTurn(line)
    case Failure(e) => Failure(e)
    case Success(None) => Success(v)
    case Success(Some((op, c))) => Success(TurnAsWritten(v, op, c))
  }

  /** One line of `solve_part_1`: the new value, and 1 when it is 0. */
  function Part1Step(v: int, line: string): Result<(int, int), Error>
  {
    match TurnStep(v, line)
    case Failure(e) => Failure(e)
    case Success(w) => Success((w, if w == 0 then 1 else 0))
  }

  /** A count already made, in front of what the remaining lines give. */
  function AddTo(count: int, r: Result<int, Error>): Result<int, Error>
  {
    if r.Failure? then r else Success(count + r.value)
  }

  /**
   * `for line in lines:` where the body `f` moves the value and adds to the
   * count, or raises: the total count, or the first error.
   */
  function FoldCount(f: (int, string) -> Result<(int, int), Error>, v: int, lines: seq<string>): Result<int, Error>
    decreases |lines|
  {
    if lines == [] then Success(0)
    else
      match f(v, lines[0])
      case Failure(e) => Failure(e)
      case Success((w, n)) => AddTo(n, FoldCount(f, w, lines[1..]))
  }

  lemma FoldCountStep(f: (int, string) -> Result<(int, int), Error>, v: int, lines: seq<string>)
    requires lines != []
    ensures f(v, lines[0]).Failure? ==> FoldCount(f, v, lines) == Failure(f(v, lines[0]).error)
    ensures f(v, lines[0]).Success? ==>
              FoldCount(f, v, lines) == AddTo(f(v, lines[0]).value.1, FoldCount(f, f(v, lines[0]).value.0, lines[1..]))
  {
  }

  /** One turn of a loop over `lines` that keeps `FoldCount` as its invariant. */
  lemma FoldCountAt(f: (int, string) -> Result<(int, int), Error>, lines: seq<string>, i: int, v: int, count: int, w: int, n: int)
    requires 0 <= i < |lines| && f(v, lines[i]) == Success((w, n))
    ensures AddTo(count, FoldCount(f, v, lines[i..])) == AddTo(count + n, FoldCount(f, w, lines[i + 1..]))
  {
    assert lines[i..][1..] == lines[i + 1..];
    FoldCountStep(f, v, lines[i..]);
  }

  /** A loop over `lines` that stops at the first error returns it. */
  lemma FoldCountStops(f: (int, string) -> Result<(int, int), Error>, lines: seq<string>, i: int, v: int, count: int)
    requires 0 <= i < |lines| && f(v, lines[i]).Failure?
    ensures AddTo(count, FoldCount(f, v, lines[i..])) == Failure(f(v, lines[i]).error)
  {
    FoldCountStep(f, v, lines[i..]);
  }

  /** The loop's invariant holds on entry and gives the result on exit. */
  lemma FoldCountEnds(f: (int, string) -> Result<(int, int), Error>, v: int, lines: seq<string>)
    ensures FoldCount(f, v, lines) == AddTo(0, FoldCount(f, v, lines[0..]))
    ensures FoldCount(f, v, lines[|lines|..]) == Success(0)
  {
    assert lines[0..] == lines;
    assert lines[|lines|..] == [];
  }

  /** The number of lines of the stripped input that leave the value at 0, from 50. */
  function Part1(data: string): Result<int, Error>
  {
    FoldCount(Part1Step, 50, Lines(data))
  }

  /** The body of `solve_part_1`'s loop for one line, up to the check for 0. */
  method TurnLine(initialValue: int, line: string) returns (r: Result<int, Error>)
    ensures r == TurnStep(initialValue, line)
  {
    var value := initialValue;
    if StartsWith(line, 'L') {
      var clickValue :- ParseTail(line);
      var difference := value - clickValue;
      if difference < 0 {
        value := 99 + difference;
      } else {
        value := value - clickValue;
      }
    } else if StartsWith(line, 'R') {
      var clickValue :- ParseTail(line);
      var difference := value + clickValue;
      if difference > 99 {
        value := difference - 100;
      } else {
        value := value + clickValue;
      }
    }
    return Success(value);
  }

  /** The loop of `solve_part_1` over the lines of the stripped input. */
  method CountLines1(lines: seq<string>) returns (r: Result<int, Error>)
    ensures r == FoldCount(Part1Step, 50, lines)
  {
    var initialValue := 50;
    var countZero := 0;
    FoldCountEnds(Part1Step, 50, lines);
    for i := 0 to |lines|
      invariant FoldCount(Part1Step, 50, lines) == AddTo(countZero, FoldCount(Part1Step, initialValue, lines[i..]))
    {
      var turned := TurnLine(initialValue, lines[i]);
      if turned.Failure? {
        FoldCountStops(Part1Step, lines, i, initialValue, countZero);
        return Failure(turned.error);
      }
      var n := if turned.value == 0 then 1 else 0;
      FoldCountAt(Part1Step, lines, i, initialValue, countZero, turned.value, n);
      initialValue := turned.value;
      if initialValue == 0 {
        countZero := countZero + 1;
      }
    }
    return Success(countZero);
  }

  method SolvePart1(data: string) returns (r: Result<int, Error>)
    ensures r == Part1(data)
  {
    r := CountLines1(Lines(data));
  }

  /** `int(line[1:])`. */
  method ParseTail(line: string) returns (r: Result<int, Error>)
    requires StartsWith(line, 'L') || StartsWith(line, 'R')
    ensures ReadTurn(line).Failure? ==> r == Failure(ReadTurn(line).error)
    ensures ReadTurn(line).Success? ==> r.Success? && ReadTurn(line).value == Some((line[0], r.value))
  {
    match ParseInt(line[1..])
    case None => return Failure(NotAnInteger(line[1..]));
    case Some(c) => return Success(c);
  }

  /** Without a wrap, a left turn agrees with the dial; with one, it stops one position short. */
  lemma LeftWrapOffByOne(v: int, c: int)
    requires 0 <= v <= 99 && c >= 0
    ensures c <= v ==> TurnAsWritten(v, 'L', c) == (v - c) % 100
    ensures v < c <= v + 100 ==> TurnAsWritten(v, 'L', c) == (v - c) % 100 - 1
  {
  }

  /** A right turn agrees with the dial exactly when it passes 99 at most once. */
  lemma RightWrapOnce(v: int, c: int)
    requires 0 <= v <= 99 && c >= 0
    ensures TurnAsWritten(v, 'R', c) == (v + c) % 100 <==> v + c < 200
  {
    if v + c >= 200 {
      assert (v + c) % 100 < 100 <= v + c - 100;
    }
  }

  // ---------------------------------------------------------------------------
  // solve_part_2

  /** One line of `solve_part_2`: the new value and the clicks on the way that pointed at 0. */
  function Part2Step(v: int, line: string): Result<(int, int), Error>
  {
    match ReadTurn(line)
    case Failure(e) => Failure(e)
    case Success(None) => Success((v, 0))
    case Success(Some((op, c))) =>
      var dir := if op == 'L' then Day01.Left else Day01.Right;
      Success((Day01.Turned(v, c, dir) % 100, Day01.ZeroHits(v, c, dir)))
  }

  /** The clicks, over the lines of the stripped input from 50, that point at 0. */
  function Part2(data: string): Result<int, Error>
  {
    FoldCount(Part2Step, 50, Lines(data))
  }

  /** The click loops of `solve_part_2`: a turn of `clickValue` clicks from `prevValue`. */
  method CountClicks(prevValue: int, clickValue: int, dir: Day01.Direction) returns (hits: int)
    ensures hits == Day01.ZeroHits(prevValue, clickValue, dir)
  {
    hits := 0;
    var step := 1;
    while step <= clickValue
      invariant 1 <= step && (clickValue >= 0 ==> step <= clickValue + 1) && (clickValue < 0 ==> step == 1)
      invariant hits == Day01.ZeroHits(prevValue, step - 1, dir)
    {
      var currentPos := Day01.Turned(prevValue, step, dir) % 100;
      if currentPos == 0 {
        hits := hits + 1;
      }
      step := step + 1;
    }
  }

  /** The body of `solve_part_2`'s loop for one line: the new value and the clicks at 0. */
  method TurnLineCounting(initialValue: int, line: string) returns (r: Result<(int, int), Error>)
    ensures r == Part2Step(initialValue, line)
  {
    if StartsWith(line, 'L') {
      var clickValue :- ParseTail(line);
      var prevValue := initialValue;
      var hits := CountClicks(prevValue, clickValue, Day01.Left);
      return Success(((prevValue - clickValue) % 100, hits));
    } else if StartsWith(line, 'R') {
      var clickValue :- ParseTail(line);
      var prevValue := initialValue;
      var hits := CountClicks(prevValue, clickValue, Day01.Right);
      return Success(((prevValue + clickValue) % 100, hits));
    }
    return Success((initialValue, 0));
  }

  /** One pass of `solve_part_2`'s loop: the new value and count, or the error that ends the loop. */
  method CountLine2(lines: seq<string>, i: int, initialValue: int, countZero: int) returns (r: Result<(int, int), Error>)
    requires 0 <= i < |lines|
    ensures r.Failure? ==> AddTo(countZero, FoldCount(Part2Step, initialValue, lines[i..])) == Failure(r.error)
    ensures r.Success? ==> AddTo(countZero, FoldCount(Part2Step, initialValue, lines[i..])) ==
                           AddTo(r.value.1, FoldCount(Part2Step, r.value.0, lines[i + 1..]))
  {
    var step := TurnLineCounting(initialValue, lines[i]);
    if step.Failure? {
      FoldCountStops(Part2Step, lines, i, initialValue, countZero);
      return Failure(step.error);
    }
    FoldCountAt(Part2Step, lines, i, initialValue, countZero, step.value.0, step.value.1);
    return Success((step.value.0, countZero + step.value.1));
  }

  /** The loop of `solve_part_2` over the lines of the stripped input. */
  method CountLines2(lines: seq<string>) returns (r: Result<int, Error>)
    ensures r == FoldCount(Part2Step, 50, lines)
  {
    var initialValue := 50;
    var countZero := 0;
    FoldCountEnds(Part2Step, 50, lines);
    for i := 0 to |lines|
      invariant FoldCount(Part2Step, 50, lines) == AddTo(countZero, FoldCount(Part2Step, initialValue, lines[i..]))
    {
      var next := CountLine2(lines, i, initialValue, countZero);
      if next.Failure? {
        return Failure(next.error);
      }
      initialValue, countZero := next.value.0, next.value.1;
    }
    return Success(countZero);
  }

  method SolvePart2(data: string) returns (r: Result<int, Error>)
    ensures r == Part2(data)
  {
    r := CountLines2(Lines(data));
  }

  // ---------------------------------------------------------------------------
  // Against the improved solution

  /** A rendered line is read by part 1 as the operation it renders, under the wrap rules as written. */
  lemma RenderedStep1(v: int, o: Day01.Operation)
    requires (o.op == 'L' || o.op == 'R') && o.steps >= 0
    ensures Part1Step(v, Day01.RenderOperation(o))
            == Success((TurnAsWritten(v, o.op, o.steps), if TurnAsWritten(v, o.op, o.steps) == 0 then 1 else 0))
  {
    ReadRendered(o);
  }

  /** A rendered line is read as its letter and clicks. */
  lemma ReadRendered(o: Day01.Operation)
    requires (o.op == 'L' || o.op == 'R') && o.steps >= 0
    ensures ReadTurn(Day01.RenderOperation(o)) == Success(Some((o.op, o.steps)))
  {
    Day01.RenderedSteps(o);
  }

  /** A rendered line is read by part 2 as the operation it renders: the dial turns and counts its clicks at 0. */
  lemma RenderedStep2(v: int, o: Day01.Operation)
    requires (o.op == 'L' || o.op == 'R') && o.steps >= 0
    ensures Part2Step(v, Day01.RenderOperation(o))
            == Success((Day01.Rotated(v, o), Day01.ZeroHits(v, o.steps, Day01.DirectionOf(o.op))))
  {
    ReadRendered(o);
  }

  /** A loop body that reads each rendered line as the dial's turn counts the dial's clicks at 0. */
  lemma {:induction false} CountsPasses(f: (int, string) -> Result<(int, int), Error>, v: int, ops: seq<Day01.Operation>)
    requires Day01.ValidOps(ops)
    requires forall u: int, o: Day01.Operation | (o.op == 'L' || o.op == 'R') && o.steps >= 0 ::
               f(u, Day01.RenderOperation(o)) == Success((Day01.Rotated(u, o), Day01.ZeroHits(u, o.steps, Day01.DirectionOf(o.op))))
    ensures FoldCount(f, v, Day01.RenderLines(ops)) == Success(Day01.Passes(v, ops))
    decreases |ops|
  {
    if ops != [] {
      var lines := Day01.RenderLines(ops);
      assert ops[0] == ops[0 + 0];
      assert lines[0] == Day01.RenderOperation(ops[0]);
      FoldCountStep(f, v, lines);
      Day01.ValidOpsTail(ops);
      CountsPasses(f, Day01.Rotated(v, ops[0]), ops[1..]);
      assert lines[1..] == Day01.RenderLines(ops[1..]);
    }
  }

  /** On well-formed input the original part 2 gives the improved solvers' answer. */
  lemma Part2AgreesWithImproved(ops: seq<Day01.Operation>)
    requires Day01.ValidOps(ops)
    ensures Part2(Day01.Render(ops)) == Success(Day01.Passes(50, ops))
    ensures Day01.Part2(Day01.Render(ops)) == Success(Day01.Passes(50, ops))
  {
    Day01.RenderRoundTrip(ops);
    Day01.RenderedText(ops);
    if ops != [] {
      forall u: int, o: Day01.Operation | (o.op == 'L' || o.op == 'R') && o.steps >= 0
        ensures Part2Step(u, Day01.RenderOperation(o)) == Success((Day01.Rotated(u, o), Day01.ZeroHits(u, o.steps, Day01.DirectionOf(o.op))))
      {
        RenderedStep2(u, o);
      }
      CountsPasses(Part2Step, 50, ops);
    } else {
      assert Part2Step(50, "") == Success((50, 0));
    }
  }

  /** A loop body that reads each rendered line as `TurnAsWritten` counts the lines that leave 0. */
  lemma {:induction false} CountsLandingsAsWritten(f: (int, string) -> Result<(int, int), Error>, v: int, ops: seq<Day01.Operation>)
    requires Day01.ValidOps(ops)
    requires forall u: int, o: Day01.Operation | (o.op == 'L' || o.op == 'R') && o.steps >= 0 ::
               f(u, Day01.RenderOperation(o))
               == Success((TurnAsWritten(u, o.op, o.steps), if TurnAsWritten(u, o.op, o.steps) == 0 then 1 else 0))
    ensures FoldCount(f, v, Day01.RenderLines(ops)) == Success(LandingsAsWritten(v, ops))
    decreases |ops|
  {
    if ops != [] {
      var lines := Day01.RenderLines(ops);
      assert ops[0] == ops[0 + 0];
      assert lines[0] == Day01.RenderOperation(ops[0]);
      FoldCountStep(f, v, lines);
      Day01.ValidOpsTail(ops);
      CountsLandingsAsWritten(f, TurnAsWritten(v, ops[0].op, ops[0].steps), ops[1..]);
      assert lines[1..] == Day01.RenderLines(ops[1..]);
    }
  }

  /** The lines that leave the value at 0 when each turn is wrapped as `solve_part_1` wraps it. */
  function LandingsAsWritten(v: int, ops: seq<Day01.Operation>): nat
    decreases |ops|
  {
    if ops == [] then 0
    else
      var w := TurnAsWritten(v, ops[0].op, ops[0].steps);
      (if w == 0 then 1 else 0) + LandingsAsWritten(w, ops[1..])
  }

  /** On well-formed input the original part 1 counts the landings of its own wrap rule. */
  lemma Part1OnRendered(ops: seq<Day01.Operation>)
    requires Day01.ValidOps(ops)
    ensures Part1(Day01.Render(ops)) == Success(LandingsAsWritten(50, ops))
    ensures Day01.Part1(Day01.Render(ops)) == Success(Day01.Landings(50, ops))
  {
    Day01.RenderRoundTrip(ops);
    Day01.RenderedText(ops);
    if ops != [] {
      forall u: int, o: Day01.Operation | (o.op == 'L' || o.op == 'R') && o.steps >= 0
        ensures Part1Step(u, Day01.RenderOperation(o))
                == Success((TurnAsWritten(u, o.op, o.steps), if TurnAsWritten(u, o.op, o.steps) == 0 then 1 else 0))
      {
        RenderedStep1(u, o);
      }
      CountsLandingsAsWritten(Part1Step, 50, ops);
    } else {
      assert Part1Step(50, "") == Success((50, 0));
    }
  }

  /**
   * Turning `c` clicks left, for `c` in 51..148, and then back to 0 on the
   * dial ("L51\nL99" is one case): the dial lands on 0 once, the original
   * part 1, one position short after its wrap, never. `Part1OnRendered`
   * carries this over to the two solvers run on the rendered input.
   */
  lemma LeftWrapCounterexample(c: int)
    requires 51 <= c <= 148
    ensures LandingsAsWritten(50, [Day01.Operation('L', c), Day01.Operation('L', 150 - c)]) == 0
    ensures Day01.Landings(50, [Day01.Operation('L', c), Day01.Operation('L', 150 - c)]) == 1
  {
    var ops := [Day01.Operation('L', c), Day01.Operation('L', 150 - c)];
    assert TurnAsWritten(50, 'L', c) == 149 - c;
    assert TurnAsWritten(149 - c, 'L', 150 - c) == 98;
    assert Day01.Rotated(50, ops[0]) == 150 - c;
    assert Day01.Rotated(150 - c, ops[1]) == 0;
    assert ops[1..] == [ops[1]] && ops[1..][1..] == [];
    assert LandingsAsWritten(149 - c, ops[1..]) == 0;
    assert Day01.Landings(150 - c, ops[1..]) == 1;
  }

  /**
   * Turning `c` clicks right, for `c` of at least 150 that ends on 0
   * ("R250" is one case): the dial lands on 0, the original part 1 leaves
   * the value at `c - 50`, past the dial's last position.
   * `Part1OnRendered` carries this over to the rendered input.
   */
  lemma RightWrapCounterexample(c: int)
    requires c >= 150 && c % 100 == 50
    ensures LandingsAsWritten(50, [Day01.Operation('R', c)]) == 0
    ensures Day01.Landings(50, [Day01.Operation('R', c)]) == 1
  {
    var ops := [Day01.Operation('R', c)];
    assert TurnAsWritten(50, 'R', c) == c - 50;
    assert Day01.Rotated(50, ops[0]) == 0;
  }
}
