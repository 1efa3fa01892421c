/**
 * Day 6: a worksheet of arithmetic problems. The last line holds operator
 * symbols, the lines above hold numbers. Part 1 reads whitespace-separated
 * numbers by rows and folds each column with its operator; part 2 reads the
 * worksheet column by column, each column of digits being one number, the
 * problems being separated by columns that hold no number.
 */
module Day06 {

  import opened Wrappers
  import opened Text
  import opened Seqs

  /** The exceptions the two parts raise. */
  datatype Error =
    | NotANumber       // part 1: `int` rejects a field of a number row
    | BadShape         // part 1: numpy rejects ragged rows, or a column past the last is asked for
    | IndexOutOfRange  // part 2: a column read past the end of a line, or a worksheet without lines
    | UnknownOperator  // part 2: the KeyError of an operator symbol other than '*' and '+'
    | Unbound          // part 2: `op` or `result` used before any operator symbol was read

  // ---------------------------------------------------------------------------
  // Part 1

  /** `int(x)` for one field of a number row. */
  function ParseWord(word: string): Result<int, Error>
  {
    match ParseInt(word)
    case Some(v) => Success(v)
    case None => Failure(NotANumber)
  }

  /** `[int(x) for x in row]`. */
  function ParseRow(words: seq<string>): Result<seq<int>, Error>
  {
    MapResult(ParseWord, words)
  }

  /** Every row has as many numbers as the first: `np.array` builds a two-dimensional array. */
  predicate Rectangular(numbers: seq<seq<int>>)
  {
    forall r | 0 <= r < |numbers| :: |numbers[r]| == |numbers[0]|
  }

  /** `numbers[:, i]`. */
  function Column(numbers: seq<seq<int>>, i: nat): (nums: seq<int>)
    requires forall r | 0 <= r < |numbers| :: i < |numbers[r]|
    ensures |nums| == |numbers|
    ensures forall r | 0 <= r < |numbers| :: nums[r] == numbers[r][i]
  {
    seq(|numbers|, r requires 0 <= r < |numbers| => numbers[r][i])
  }

  /** `result + num if op == '+' else result * num`. */
  function Combine(plus: bool, result: int, num: int): int
  {
    if plus then result + num else result * num
  }

  /** The inner loop of part 1: `result` starts at the first number and takes in the others from left to right. */
  function Fold(nums: seq<int>, plus: bool): int
    requires |nums| >= 1
  {
    if |nums| == 1 then nums[0] else Combine(plus, Fold(nums[..|nums| - 1], plus), nums[|nums| - 1])
  }

  /** A column folded with '+' is its sum; with any other symbol, its product. */
  lemma {:induction false} FoldMeaning(nums: seq<int>, plus: bool)
    requires |nums| >= 1
    ensures Fold(nums, plus) == if plus then Sum(nums) else Product(nums)
  {
    var n := |nums|;
    if n == 1 {
      assert nums[1..] == [];
    } else {
      var init := nums[..n - 1];
      FoldMeaning(init, plus);
      assert nums == init + [nums[n - 1]];
      assert [nums[n - 1]][1..] == [];
      SumAppend(init, [nums[n - 1]]);
      ProductAppend(init, [nums[n - 1]]);
    }
  }

  /** The column results of part 1, one per operator. */
  function Results(numbers: seq<seq<int>>, operations: seq<string>): seq<int>
    requires |operations| > 0 ==> |numbers| > 0
    requires forall r | 0 <= r < |numbers| :: |operations| <= |numbers[r]|
  {
    seq(|operations|, i requires 0 <= i < |operations| => Fold(Column(numbers, i), operations[i] == "+"))
  }

  /** `parsed_lines`: the fields of every line. */
  function Fields(data: string): (rows: seq<seq<string>>)
    ensures |rows| >= 1
  {
    Map(Words, Lines(data))
  }

  /** `solve_part_1`. */
  function Part1(data: string): Result<int, Error>
  {
    var parsedLines := Fields(data);
    var numbers :- MapResult(ParseRow, parsedLines[..|parsedLines| - 1]);
    var operations := parsedLines[|parsedLines| - 1];
    if !Rectangular(numbers) then Failure(BadShape)
    else if |operations| > 0 && (|numbers| == 0 || |operations| > |numbers[0]|) then Failure(BadShape)
    else Success(Sum(Results(numbers, operations)))
  }

  /** Every field of the number rows is an integer. */
  predicate AllIntegers(rows: seq<seq<string>>)
  {
    forall r, j | 0 <= r < |rows| && 0 <= j < |rows[r]| :: ParseInt(rows[r][j]).Some?
  }

  /** `[int(x) for x in row]` succeeds exactly when every field is an integer, keeping the number of fields. */
  lemma ParseRowIff(words: seq<string>)
    ensures ParseRow(words).Success? <==> forall j | 0 <= j < |words| :: ParseInt(words[j]).Some?
    ensures ParseRow(words).Success? ==> |ParseRow(words).value| == |words|
  {
    assert forall j | 0 <= j < |words| :: ParseWord(words[j]).Success? <==> ParseInt(words[j]).Some?;
  }

  /**
   * Part 1 fails exactly when a field of a number row is not an integer (a
   * ValueError from `int`), or the number rows have different numbers of
   * fields, or there are operators but no number rows or more operators than
   * numbers in a row (numpy errors).
   */
  lemma Part1Errors(data: string)
    ensures var rows := Fields(data);
            var numberRows := rows[..|rows| - 1];
            var operations := rows[|rows| - 1];
            && (Part1(data) == Failure(NotANumber) <==> !AllIntegers(numberRows))
            && (Part1(data) == Failure(BadShape) <==>
                  && AllIntegers(numberRows)
                  && ((exists r | 0 <= r < |numberRows| :: |numberRows[r]| != |numberRows[0]|)
                      || (|operations| > 0 && (numberRows == [] || |operations| > |numberRows[0]|))))
            && (Part1(data).Failure? ==> Part1(data).error in {NotANumber, BadShape})
  {
    var rows := Fields(data);
    var numberRows := rows[..|rows| - 1];
    var parsed := MapResult(ParseRow, numberRows);
    forall r | 0 <= r < |numberRows| ensures ParseRow(numberRows[r]).Failure? ==> ParseRow(numberRows[r]).error == NotANumber {
      if ParseRow(numberRows[r]).Failure? {
        var j :| FirstFailure(ParseWord, numberRows[r], j) && ParseWord(numberRows[r][j]).error == ParseRow(numberRows[r]).error;
      }
    }
    forall r | 0 <= r < |numberRows| ensures ParseRow(numberRows[r]).Success? <==> forall j | 0 <= j < |numberRows[r]| :: ParseInt(numberRows[r][j]).Some? {
      ParseRowIff(numberRows[r]);
    }
    if parsed.Failure? {
      var r :| FirstFailure(ParseRow, numberRows, r) && ParseRow(numberRows[r]).error == parsed.error;
    } else {
      forall r | 0 <= r < |numberRows| ensures |parsed.value[r]| == |numberRows[r]| {
        ParseRowIff(numberRows[r]);
      }
    }
  }

  /** What each column comes to: its sum under '+', its product under any other symbol. */
  function Totals(numbers: seq<seq<int>>, operations: seq<string>): seq<int>
    requires |operations| > 0 ==> |numbers| > 0
    requires forall r | 0 <= r < |numbers| :: |operations| <= |numbers[r]|
  {
    seq(|operations|, i requires 0 <= i < |operations| =>
      if operations[i] == "+" then Sum(Column(numbers, i)) else Product(Column(numbers, i)))
  }

  /** Folding each column left to right gives the column's sum or product. */
  lemma ResultsMeaning(numbers: seq<seq<int>>, operations: seq<string>)
    requires |operations| > 0 ==> |numbers| > 0
    requires forall r | 0 <= r < |numbers| :: |operations| <= |numbers[r]|
    ensures Results(numbers, operations) == Totals(numbers, operations)
  {
    forall i | 0 <= i < |operations|
      ensures Results(numbers, operations)[i] == Totals(numbers, operations)[i]
    {
      FoldMeaning(Column(numbers, i), operations[i] == "+");
    }
  }

  /** The answer of part 1 is the sum over the operators of the column's sum for '+' and of its product otherwise. */
  lemma Part1Meaning(data: string)
    ensures Part1(data).Success? ==>
              var rows := Fields(data);
              var numbers := MapResult(ParseRow, rows[..|rows| - 1]).value;
              var operations := rows[|rows| - 1];
              && (|operations| > 0 ==> |numbers| > 0)
              && (forall r | 0 <= r < |numbers| :: |operations| <= |numbers[r]|)
              && Part1(data).value == Sum(Totals(numbers, operations))
  {
    if Part1(data).Success? {
      var rows := Fields(data);
      var numbers := MapResult(ParseRow, rows[..|rows| - 1]).value;
      ResultsMeaning(numbers, rows[|rows| - 1]);
    }
  }

  /** The inner loop of `solve_part_1` over `numbers[:, i]`. */
  method FoldColumn(nums: seq<int>, plus: bool) returns (result: int)
    requires |nums| >= 1
    ensures result == Fold(nums, plus)
  {
    result := nums[0];
    assert nums[..1] == [nums[0]];
    for k := 1 to |nums|
      invariant result == Fold(nums[..k], plus)
    {
      result := if plus then result + nums[k] else result * nums[k];
      assert nums[..k + 1][..k] == nums[..k];
    }
    assert nums[..|nums|] == nums;
  }

  /** The `for i, op in enumerate(operations)` loop of `solve_part_1`: `results`, or the IndexError of a column past the last. */
  method ColumnResults(numbers: seq<seq<int>>, operations: seq<string>) returns (r: Result<seq<int>, Error>)
    requires Rectangular(numbers)
    ensures r.Failure? <==> |operations| > 0 && (|numbers| == 0 || |operations| > |numbers[0]|)
    ensures r.Failure? ==> r.error == BadShape
    ensures r.Success? ==> r.value == Results(numbers, operations)
  {
    var results := [];
    for i := 0 to |operations|
      invariant i > 0 ==> |numbers| > 0 && i <= |numbers[0]|
      invariant results == Results(numbers, operations[..i])
    {
      if |numbers| == 0 || i >= |numbers[0]| {
        return Failure(BadShape);
      }
      var op := operations[i];
      var result := FoldColumn(Column(numbers, i), op == "+");
      assert Results(numbers, operations[..i + 1]) == Results(numbers, operations[..i]) + [result];
      results := results + [result];
    }
    assert operations[..|operations|] == operations;
    return Success(results);
  }

  /** `solve_part_1`. */
  method SolvePart1(data: string) returns (r: Result<int, Error>)
    ensures r == Part1(data)
  {
    var lines := Lines(data);
    var parsedLines := Map(Words, lines);
    var numbers :- MapResult(ParseRow, parsedLines[..|parsedLines| - 1]);
    var operations := parsedLines[|parsedLines| - 1];
    if !Rectangular(numbers) {
      return Failure(BadShape);
    }
    var results :- ColumnResults(numbers, operations);
    return Success(Sum(results));
  }

  // ---------------------------------------------------------------------------
  // Part 2

  /** `op` and `result`: the operator of the current problem and its running value. */
  datatype Acc = Acc(op: char, result: int)

  /** The variables the column loop of part 2 updates; `acc` is `None` while `op` and `result` are unbound. */
  datatype Sheet = Sheet(grandTotal: int, acc: Option<Acc>)

  /** `op(result, n)` for `operator.mul` ('*') and `operator.add` ('+'). */
  function Apply(op: char, result: int, n: int): int
  {
    if op == '*' then result * n else result + n
  }

  /** `ops`: each operator symbol with the identity a problem under it starts from. */
  const Ops: map<char, Acc> := map['*' := Acc('*', 1), '+' := Acc('+', 0)]

  /** A symbol other than a space looks up `ops`, starting a problem from the operator's identity. */
  function Select(symbol: char, acc: Option<Acc>): Result<Option<Acc>, Error>
  {
    if symbol == ' ' then Success(acc)
    else if symbol in Ops then Success(Some(Ops[symbol]))
    else Failure(UnknownOperator)
  }

  /** A column whose text strips to digits applies the operator; any other column adds `result` to the grand total. */
  function Absorb(grandTotal: int, acc: Option<Acc>, numberStr: string): Result<Sheet, Error>
  {
    if acc.None? then Failure(Unbound)
    else if IsDigitString(Strip(numberStr)) then
      Success(Sheet(grandTotal, Some(Acc(acc.value.op, Apply(acc.value.op, acc.value.result, NumeralValue(Strip(numberStr)))))))
    else Success(Sheet(grandTotal + acc.value.result, acc))
  }

  /** `int(number_str)` once `number_str.strip().isdigit()` holds: the number the stripped digits spell. */
  lemma ParseColumn(numberStr: string)
    requires IsDigitString(Strip(numberStr))
    ensures ParseInt(numberStr) == Some(NumeralValue(Strip(numberStr)))
  {
    ParseDigits(Strip(numberStr));
  }

  /** `number_str`: the characters of column `col` in the lines above the operator line. */
  function Vertical(problems: seq<string>, opsRow: nat, col: nat): Result<string, Error>
    requires opsRow < |problems|
  {
    if exists r | 0 <= r < opsRow :: col >= |problems[r]| then Failure(IndexOutOfRange)
    else Success(seq(opsRow, r requires 0 <= r < opsRow => problems[r][col]))
  }

  /** One pass of the column loop of `solve_part_2`. */
  function Step(problems: seq<string>, opsRow: nat, col: nat, s: Sheet): Result<Sheet, Error>
    requires opsRow < |problems|
  {
    if col >= |problems[opsRow]| then Failure(IndexOutOfRange)
    else
      var acc :- Select(problems[opsRow][col], s.acc);
      var numberStr :- Vertical(problems, opsRow, col);
      Absorb(s.grandTotal, acc, numberStr)
  }

  /** The column loop of `solve_part_2` from column `col` on. */
  function Scan(problems: seq<string>, opsRow: nat, col: nat, s: Sheet): Result<Sheet, Error>
    requires opsRow < |problems|
    decreases |problems[0]| - col
  {
    if col >= |problems[0]| then Success(s)
    else
      var next :- Step(problems, opsRow, col, s);
      Scan(problems, opsRow, col + 1, next)
  }

  /**
   * A pass raises exactly when the operator line is too short (IndexError),
   * the symbol is neither a space nor in `ops` (KeyError), a line above is
   * too short (IndexError), or a space falls before any operator
   * (UnboundLocalError); the first of these in that order is the one raised.
   */
  lemma StepErrors(problems: seq<string>, opsRow: nat, col: nat, s: Sheet)
    requires opsRow < |problems|
    ensures col >= |problems[opsRow]| ==> Step(problems, opsRow, col, s) == Failure(IndexOutOfRange)
    ensures col < |problems[opsRow]| && problems[opsRow][col] != ' ' && problems[opsRow][col] != '*' && problems[opsRow][col] != '+'
            ==> Step(problems, opsRow, col, s) == Failure(UnknownOperator)
    ensures col < |problems[opsRow]| && (problems[opsRow][col] in " *+") && (exists r | 0 <= r < opsRow :: col >= |problems[r]|)
            ==> Step(problems, opsRow, col, s) == Failure(IndexOutOfRange)
    ensures col < |problems[opsRow]| && problems[opsRow][col] == ' ' && (forall r | 0 <= r < opsRow :: col < |problems[r]|) && s.acc.None?
            ==> Step(problems, opsRow, col, s) == Failure(Unbound)
    ensures Step(problems, opsRow, col, s).Success?
            <==> col < |problems[opsRow]| && (problems[opsRow][col] in " *+")
                 && (forall r | 0 <= r < opsRow :: col < |problems[r]|)
                 && (problems[opsRow][col] != ' ' || s.acc.Some?)
  {
  }

  /** A pass that fails ends the loop with its error; one that succeeds hands the loop on to the next column. */
  lemma ScanStep(problems: seq<string>, opsRow: nat, col: nat, s: Sheet)
    requires opsRow < |problems| && col < |problems[0]|
    ensures Step(problems, opsRow, col, s).Failure? ==> Scan(problems, opsRow, col, s) == Failure(Step(problems, opsRow, col, s).error)
    ensures Step(problems, opsRow, col, s).Success? ==> Scan(problems, opsRow, col, s) == Scan(problems, opsRow, col + 1, Step(problems, opsRow, col, s).value)
  {
  }

  /** `solve_part_2`. */
  function Part2(data: string): Result<int, Error>
  {
    Worksheet(SplitLines(data))
  }

  /** `solve_part_2` once the text is split into lines. */
  function Worksheet(problems: seq<string>): Result<int, Error>
  {
    if problems == [] then Failure(IndexOutOfRange)
    else Finish(Scan(problems, |problems| - 1, 0, Sheet(0, None)))
  }

  /** After the column loop: its error, `Unbound` when no operator was seen, or the closed total. */
  function Finish(scanned: Result<Sheet, Error>): Result<int, Error>
  {
    var s :- scanned;
    if s.acc.None? then Failure(Unbound) else Success(Close(s))
  }

  /** `grand_total + result`: the grand total once the last problem is added. */
  function Close(s: Sheet): int
    requires s.acc.Some?
  {
    s.grandTotal + s.acc.value.result
  }

  /** The inner loop of `solve_part_2`: `number_str` for column `col`, or the IndexError of a short line. */
  method BuildNumber(problems: seq<string>, opsRow: nat, col: nat) returns (r: Result<string, Error>)
    requires opsRow < |problems|
    ensures r == Vertical(problems, opsRow, col)
  {
    var numberStr := "";
    for row := 0 to opsRow
      invariant |numberStr| == row
      invariant forall r | 0 <= r < row :: col < |problems[r]| && numberStr[r] == problems[r][col]
    {
      if col >= |problems[row]| {
        return Failure(IndexOutOfRange);
      }
      numberStr := numberStr + [problems[row][col]];
    }
    assert numberStr == seq(opsRow, r requires 0 <= r < opsRow => problems[r][col]);
    return Success(numberStr);
  }

  /** One pass of the column loop of `solve_part_2`: the new `grand_total`, `op` and `result`, or the error the pass raises. */
  method ProcessColumn(problems: seq<string>, opsRow: nat, col: nat, grandTotal: int, acc: Option<Acc>) returns (r: Result<Sheet, Error>)
    requires opsRow < |problems|
    ensures r == Step(problems, opsRow, col, Sheet(grandTotal, acc))
  {
    if col >= |problems[opsRow]| {
      return Failure(IndexOutOfRange);
    }
    var symbol := problems[opsRow][col];
    var current := acc;
    if symbol != ' ' {
      if symbol !in Ops {
        return Failure(UnknownOperator);
      }
      current := Some(Ops[symbol]);
    }
    assert Select(symbol, acc) == Success(current);
    var numberStr :- BuildNumber(problems, opsRow, col);
    assert Step(problems, opsRow, col, Sheet(grandTotal, acc)) == Absorb(grandTotal, current, numberStr);
    if current.None? {
      return Failure(Unbound);
    }
    var op, result := current.value.op, current.value.result;
    if IsDigitString(Strip(numberStr)) {
      ParseColumn(numberStr);
      result := Apply(op, result, ParseInt(numberStr).value);
      return Success(Sheet(grandTotal, Some(Acc(op, result))));
    } else {
      return Success(Sheet(grandTotal + result, current));
    }
  }

  /** `solve_part_2`. */
  method SolvePart2(data: string) returns (r: Result<int, Error>)
    ensures r == Part2(data)
  {
    r := SolveWorksheet(SplitLines(data));
  }

  /** `solve_part_2` from `problems = data.splitlines()` on. */
  method SolveWorksheet(problems: seq<string>) returns (r: Result<int, Error>)
    ensures r == Worksheet(problems)
  {
    if problems == [] {
      return Failure(IndexOutOfRange);
    }
    var scanned := ScanColumns(problems, |problems| - 1, Sheet(0, None));
    r := Total(scanned);
  }

  /** The end of `solve_part_2`: `grand_total + result`, or the error the loop or an unbound `result` raises. */
  method Total(scanned: Result<Sheet, Error>) returns (r: Result<int, Error>)
    ensures r == Finish(scanned)
  {
    if scanned.Failure? {
      return Failure(scanned.error);
    }
    var sheet := scanned.value;
    if sheet.acc.None? {
      return Failure(Unbound);
    }
    return Success(sheet.grandTotal + sheet.acc.value.result);
  }

  /** The column loop of `solve_part_2`, from the grand total and the `op`/`result` of `start`. */
  method ScanColumns(problems: seq<string>, opsRowIdx: nat, start: Sheet) returns (r: Result<Sheet, Error>)
    requires opsRowIdx < |problems|
    ensures r == Scan(problems, opsRowIdx, 0, start)
  {
    var grandTotal := start.grandTotal;
    var acc := start.acc;
    for col := 0 to |problems[0]|
      invariant Scan(problems, opsRowIdx, 0, start) == Scan(problems, opsRowIdx, col, Sheet(grandTotal, acc))
    {
      var next := ProcessColumn(problems, opsRowIdx, col, grandTotal, acc);
      ScanStep(problems, opsRowIdx, col, Sheet(grandTotal, acc));
      if next.Failure? {
        return Failure(next.error);
      }
      grandTotal, acc := next.value.grandTotal, next.value.acc;
    }
    return Success(Sheet(grandTotal, acc));
  }

  // ---------------------------------------------------------------------------
  // What part 2 computes on a well-formed worksheet

  /** A column of the worksheet: the symbol on the operator line and the text above it. */
  type Cell = (char, string)

  /** One pass of the column loop, on a column already read. */
  function Feed(s: Sheet, c: Cell): Result<Sheet, Error>
  {
    var acc :- Select(c.0, s.acc);
    Absorb(s.grandTotal, acc, c.1)
  }

  /** The column loop over columns already read. */
  function Run(s: Sheet, cells: seq<Cell>): Result<Sheet, Error>
    decreases |cells|
  {
    if cells == [] then Success(s)
    else
      var next :- Feed(s, cells[0]);
      Run(next, cells[1..])
  }

  /** Every line is at least as long as the first: no column the loop visits is read past a line's end. */
  predicate Wide(problems: seq<string>)
  {
    problems != [] && forall r | 0 <= r < |problems| :: |problems[r]| >= |problems[0]|
  }

  /** The columns `col..` of the worksheet, as the loop reads them. */
  function Cells(problems: seq<string>, opsRow: nat, col: nat): (cells: seq<Cell>)
    requires Wide(problems) && opsRow < |problems| && col <= |problems[0]|
    ensures |cells| == |problems[0]| - col
  {
    seq(|problems[0]| - col, k requires 0 <= k < |problems[0]| - col =>
      (problems[opsRow][col + k], seq(opsRow, r requires 0 <= r < opsRow => problems[r][col + k])))
  }

  /** On a worksheet without short lines, the loop runs over its columns as read. */
  lemma {:induction false} ScanCells(problems: seq<string>, opsRow: nat, col: nat, s: Sheet)
    requires Wide(problems) && opsRow < |problems| && col <= |problems[0]|
    ensures Scan(problems, opsRow, col, s) == Run(s, Cells(problems, opsRow, col))
    decreases |problems[0]| - col
  {
    var cells := Cells(problems, opsRow, col);
    if col < |problems[0]| {
      assert Vertical(problems, opsRow, col) == Success(cells[0].1);
      assert Step(problems, opsRow, col, s) == Feed(s, cells[0]);
      assert cells[1..] == Cells(problems, opsRow, col + 1);
      forall next | Step(problems, opsRow, col, s) == Success(next)
        ensures Scan(problems, opsRow, col + 1, next) == Run(next, cells[1..])
      {
        ScanCells(problems, opsRow, col + 1, next);
      }
    }
  }

  /** Running over two stretches of columns: the first stretch, then the second from where it left off. */
  lemma {:induction false} RunAppend(s: Sheet, a: seq<Cell>, b: seq<Cell>)
    ensures Run(s, a + b) == match Run(s, a) case Failure(e) => Failure(e) case Success(t) => Run(t, b)
    decreases |a|
  {
    if a == [] {
      assert a + b == b;
    } else {
      assert (a + b)[0] == a[0];
      assert (a + b)[1..] == a[1..] + b;
      match Feed(s, a[0])
      case Failure(_) =>
      case Success(next) => RunAppend(next, a[1..], b);
    }
  }

  /** A problem of the worksheet: its operator and the texts of its columns, one number each. */
  datatype Problem = Problem(op: char, texts: seq<string>)

  /** The operator is '+' or '*', and every column of the problem strips to digits. */
  predicate WellFormed(p: Problem)
  {
    && (p.op == '+' || p.op == '*')
    && |p.texts| >= 1
    && forall k | 0 <= k < |p.texts| :: IsDigitString(Strip(p.texts[k]))
  }

  /** The numbers of a problem, one per column. */
  function Numbers(p: Problem): (ns: seq<int>)
    ensures |ns| == |p.texts|
  {
    seq(|p.texts|, k requires 0 <= k < |p.texts| => NumeralValue(Strip(p.texts[k])))
  }

  /** What a problem comes to: the product or the sum of its numbers. */
  function Value(p: Problem): int
  {
    Combined(p.op, Numbers(p))
  }

  /** The product of numbers under '*', their sum under any other operator. */
  function Combined(op: char, ns: seq<int>): int
  {
    if op == '*' then Product(ns) else Sum(ns)
  }

  /** The columns of a problem: the operator under the first, spaces under the others. */
  function ProblemCells(p: Problem): (cells: seq<Cell>)
    ensures |cells| == |p.texts|
  {
    seq(|p.texts|, k requires 0 <= k < |p.texts| => (if k == 0 then p.op else ' ', p.texts[k]))
  }

  /** A separating column: a space on the operator line and no number above it. */
  predicate Separator(c: Cell)
  {
    c.0 == ' ' && !IsDigitString(Strip(c.1))
  }

  /** Problems laid out left to right, with the separator column between neighbours. */
  function Layout(ps: seq<Problem>, sep: Cell): seq<Cell>
    requires ps != []
  {
    if |ps| == 1 then ProblemCells(ps[0])
    else ProblemCells(ps[0]) + ([sep] + Layout(ps[1..], sep))
  }

  /** Applying the operator to one more number. */
  lemma Snoc(op: char, ns: seq<int>, k: nat)
    requires 1 <= k <= |ns|
    ensures Combined(op, ns[..k]) == Apply(op, Combined(op, ns[..k - 1]), ns[k - 1])
  {
    assert ns[..k] == ns[..k - 1] + [ns[k - 1]];
    assert [ns[k - 1]][1..] == [];
    SumAppend(ns[..k - 1], [ns[k - 1]]);
    ProductAppend(ns[..k - 1], [ns[k - 1]]);
  }

  /** Running over one more column is feeding it to where the others left off. */
  lemma RunSnoc(s: Sheet, cells: seq<Cell>, k: nat)
    requires 1 <= k <= |cells|
    ensures Run(s, cells[..k]) == match Run(s, cells[..k - 1]) case Failure(e) => Failure(e) case Success(t) => Feed(t, cells[k - 1])
  {
    assert cells[..k] == cells[..k - 1] + [cells[k - 1]];
    RunAppend(s, cells[..k - 1], [cells[k - 1]]);
    assert [cells[k - 1]][1..] == [];
  }

  /** A column of a problem whose symbol is `symbol`: the operator it selects takes in the column's number. */
  lemma FeedNumber(t: Sheet, symbol: char, text: string, op: char, start: int)
    requires IsDigitString(Strip(text))
    requires Select(symbol, t.acc) == Success(Some(Acc(op, start)))
    ensures Feed(t, (symbol, text)) == Success(Sheet(t.grandTotal, Some(Acc(op, Apply(op, start, NumeralValue(Strip(text)))))))
  {
  }

  /** The first `k` columns of a problem leave its operator with the sum or product of their numbers. */
  lemma {:induction false} RunProblemPrefix(p: Problem, s: Sheet, k: nat)
    requires WellFormed(p) && 1 <= k <= |p.texts|
    ensures Run(s, ProblemCells(p)[..k]) == Success(Sheet(s.grandTotal, Some(Acc(p.op, Combined(p.op, Numbers(p)[..k])))))
  {
    var cells := ProblemCells(p);
    var ns := Numbers(p);
    var acc := Acc(p.op, Combined(p.op, ns[..k - 1]));
    assert cells[k - 1] == (if k == 1 then p.op else ' ', p.texts[k - 1]);
    assert ns[k - 1] == NumeralValue(Strip(p.texts[k - 1]));
    Snoc(p.op, ns, k);
    RunSnoc(s, cells, k);
    if k == 1 {
      assert ns[..0] == [];
      FeedNumber(s, p.op, p.texts[0], p.op, acc.result);
    } else {
      RunProblemPrefix(p, s, k - 1);
      FeedNumber(Sheet(s.grandTotal, Some(acc)), ' ', p.texts[k - 1], p.op, acc.result);
    }
  }

  /** A problem's columns, whatever came before, leave its operator and its value. */
  lemma RunProblem(p: Problem, s: Sheet)
    requires WellFormed(p)
    ensures Run(s, ProblemCells(p)) == Success(Sheet(s.grandTotal, Some(Acc(p.op, Value(p)))))
  {
    RunProblemPrefix(p, s, |p.texts|);
    assert ProblemCells(p)[..|p.texts|] == ProblemCells(p);
    assert Numbers(p)[..|p.texts|] == Numbers(p);
  }

  /** The values of the problems. */
  function Values(ps: seq<Problem>): (vs: seq<int>)
    ensures |vs| == |ps|
  {
    seq(|ps|, i requires 0 <= i < |ps| => Value(ps[i]))
  }

  /** A separator adds the problem just finished to the grand total and keeps its operator. */
  lemma RunSeparator(t: Sheet, sep: Cell, rest: seq<Cell>)
    requires t.acc.Some? && Separator(sep)
    ensures Run(t, [sep] + rest) == Run(Sheet(Close(t), t.acc), rest)
  {
    assert Feed(t, sep) == Success(Sheet(Close(t), t.acc));
    assert ([sep] + rest)[0] == sep && ([sep] + rest)[1..] == rest;
  }

  /**
   * The loop over a laid-out worksheet ends holding a problem, and closing it
   * adds the values of all the problems to the grand total it started from.
   */
  lemma {:induction false} RunLayout(ps: seq<Problem>, sep: Cell, s: Sheet)
    requires ps != [] && Separator(sep)
    requires forall i | 0 <= i < |ps| :: WellFormed(ps[i])
    ensures Run(s, Layout(ps, sep)).Success? && Run(s, Layout(ps, sep)).value.acc.Some?
    ensures Close(Run(s, Layout(ps, sep)).value) == s.grandTotal + Sum(Values(ps))
    decreases |ps|
  {
    var first := ps[0];
    var u := Sheet(s.grandTotal, Some(Acc(first.op, Value(first))));
    RunProblem(first, s);
    assert Values(ps)[1..] == Values(ps[1..]);
    if |ps| > 1 {
      var rest := ps[1..];
      RunAppend(s, ProblemCells(first), [sep] + Layout(rest, sep));
      RunSeparator(u, sep, Layout(rest, sep));
      RunLayout(rest, sep, Sheet(Close(u), u.acc));
    } else {
      assert Values(ps[1..]) == [];
    }
  }

  /**
   * On a worksheet whose lines all reach the width of the first, and whose
   * columns lay out well-formed problems separated by one blank column each,
   * part 2 answers the sum of the problems' values.
   */
  lemma Part2Layout(data: string, ps: seq<Problem>, sep: Cell)
    requires Wide(SplitLines(data))
    requires ps != [] && Separator(sep)
    requires forall i | 0 <= i < |ps| :: WellFormed(ps[i])
    requires Cells(SplitLines(data), |SplitLines(data)| - 1, 0) == Layout(ps, sep)
    ensures Part2(data) == Success(Sum(Values(ps)))
  {
    WorksheetLayout(SplitLines(data), ps, sep);
  }

  /** `Part2Layout` on the lines of the worksheet. */
  lemma WorksheetLayout(problems: seq<string>, ps: seq<Problem>, sep: Cell)
    requires Wide(problems)
    requires ps != [] && Separator(sep)
    requires forall i | 0 <= i < |ps| :: WellFormed(ps[i])
    requires Cells(problems, |problems| - 1, 0) == Layout(ps, sep)
    ensures Worksheet(problems) == Success(Sum(Values(ps)))
  {
    ScanCells(problems, |problems| - 1, 0, Sheet(0, None));
    RunLayout(ps, sep, Sheet(0, None));
  }

  /** Part 2 of a text without lines fails on `problems[0]`. */
  lemma Part2NoLines()
    ensures Part2("") == Failure(IndexOutOfRange)
  {
  }
}
