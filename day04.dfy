/**
 * Day 4: rolls of paper '@' lie on a grid of text. A roll can be reached by a
 * forklift when fewer than four of its eight neighbouring cells hold rolls.
 * Part 1 marks the reachable rolls with 'x' and reports how many there are;
 * part 2 removes the reachable rolls round after round, all at once in each
 * round, until none is reachable, and counts the rolls removed.
 */
module Day04 {

  import opened Wrappers
  import opened Text

  /** `[list(line) for line in lines]`: rows of cells, not necessarily all of one length. */
  type Grid = seq<seq<char>>

  /** The IndexError raised when a row shorter than the first is read past its end. */
  datatype Error = IndexOutOfRange

  /** The eight neighbours, as (row, column) offsets, in the order the solver visits them. */
  const Directions: seq<(int, int)> := [(-1, -1), (-1, 0), (-1, 1), (0, -1), (0, 1), (1, -1), (1, 0), (1, 1)]

  /** `data.strip().split('\n')`. */
  function Parse(data: string): (grid: Grid)
    ensures |grid| >= 1
    ensures forall x | 0 <= x < |grid| :: '\n' !in grid[x]
  {
    Split(Strip(data), '\n')
  }

  /** `len(grid[0])`: every bound on columns is taken from the first row. */
  function Width(grid: Grid): nat
  {
    if grid == [] then 0 else |grid[0]|
  }

  /** Within `len(grid)` rows and `len(grid[0])` columns. */
  predicate InGrid(grid: Grid, x: int, y: int)
  {
    0 <= x < |grid| && 0 <= y < Width(grid)
  }

  /** Within the bounds, but past the end of a row shorter than the first: reading it raises. */
  predicate Unreadable(grid: Grid, x: int, y: int)
  {
    InGrid(grid, x, y) && y >= |grid[x]|
  }

  /** A roll of paper within the bounds. */
  predicate Roll(grid: Grid, x: int, y: int)
  {
    InGrid(grid, x, y) && y < |grid[x]| && grid[x][y] == '@'
  }

  /** No row is shorter than the first, so no cell within the bounds is unreadable. */
  predicate Wide(grid: Grid)
  {
    forall x | 0 <= x < |grid| :: |grid[x]| >= Width(grid)
  }

  // ---------------------------------------------------------------------------
  // count_adjacent_rolls

  /** The rolls among the first `k` neighbours of (x, y). */
  function AdjacentUpTo(grid: Grid, x: int, y: int, k: nat): (r: nat)
    requires k <= |Directions|
    ensures r <= k
  {
    if k == 0 then 0
    else
      var d := Directions[k - 1];
      AdjacentUpTo(grid, x, y, k - 1) + (if Roll(grid, x + d.0, y + d.1) then 1 else 0)
  }

  /** `count_adjacent_rolls(x, y)`: the rolls among the eight neighbours of (x, y). */
  function Adjacent(grid: Grid, x: int, y: int): nat
  {
    AdjacentUpTo(grid, x, y, |Directions|)
  }

  /** Some neighbour of (x, y) within the bounds cannot be read. */
  predicate NeighbourUnreadable(grid: Grid, x: int, y: int)
  {
    exists k | 0 <= k < |Directions| :: Unreadable(grid, x + Directions[k].0, y + Directions[k].1)
  }

  /** A neighbour count lies between 0 and 8. */
  lemma AdjacentBounds(grid: Grid, x: int, y: int)
    ensures 0 <= Adjacent(grid, x, y) <= 8
  {
  }

  /** `after` holds a roll only where `before` does. */
  predicate Fewer(before: Grid, after: Grid)
  {
    && |after| == |before|
    && Width(after) == Width(before)
    && forall x, y | 0 <= x < |after| && 0 <= y < Width(after) :: Roll(after, x, y) ==> Roll(before, x, y)
  }

  /** Taking rolls away never raises a neighbour count. */
  lemma {:induction false} AdjacentMonotone(before: Grid, after: Grid, x: int, y: int, k: nat)
    requires k <= |Directions| && Fewer(before, after)
    ensures AdjacentUpTo(after, x, y, k) <= AdjacentUpTo(before, x, y, k)
  {
    if k > 0 {
      AdjacentMonotone(before, after, x, y, k - 1);
    }
  }

  /** A roll with fewer than four rolls around it. */
  predicate Accessible(grid: Grid, x: int, y: int)
  {
    Roll(grid, x, y) && Adjacent(grid, x, y) < 4
  }

  /** A roll that was reachable stays reachable while rolls are only taken away. */
  lemma AccessibleStays(before: Grid, after: Grid, x: int, y: int)
    requires Fewer(before, after) && Accessible(before, x, y) && Roll(after, x, y)
    ensures Accessible(after, x, y)
  {
    AdjacentMonotone(before, after, x, y, |Directions|);
  }

  // ---------------------------------------------------------------------------
  // Counting cells, row by row as the loops of the solver visit them

  /** The columns `y < n` of row `x` where `p` holds. */
  function RowCount(p: (int, int) -> bool, x: int, n: nat): (r: nat)
    ensures r <= n
  {
    if n == 0 then 0 else RowCount(p, x, n - 1) + (if p(x, n - 1) then 1 else 0)
  }

  /** The cells of the first `m` rows and `w` columns where `p` holds. */
  function GridCount(p: (int, int) -> bool, m: nat, w: nat): nat
  {
    if m == 0 then 0 else GridCount(p, m - 1, w) + RowCount(p, m - 1, w)
  }

  /** Counting the cells of a disjoint union. */
  lemma {:induction false} RowCountSplit(p: (int, int) -> bool, q: (int, int) -> bool, s: (int, int) -> bool, x: int, n: nat)
    requires forall y | 0 <= y < n :: (p(x, y) <==> q(x, y) || s(x, y)) && !(q(x, y) && s(x, y))
    ensures RowCount(p, x, n) == RowCount(q, x, n) + RowCount(s, x, n)
  {
    if n > 0 {
      RowCountSplit(p, q, s, x, n - 1);
    }
  }

  /** Counting the cells of a disjoint union. */
  lemma {:induction false} GridCountSplit(p: (int, int) -> bool, q: (int, int) -> bool, s: (int, int) -> bool, m: nat, w: nat)
    requires forall x, y | 0 <= x < m && 0 <= y < w :: (p(x, y) <==> q(x, y) || s(x, y)) && !(q(x, y) && s(x, y))
    ensures GridCount(p, m, w) == GridCount(q, m, w) + GridCount(s, m, w)
  {
    if m > 0 {
      GridCountSplit(p, q, s, m - 1, w);
      RowCountSplit(p, q, s, m - 1, w);
    }
  }

  /** Predicates that agree on every cell count the same cells. */
  lemma {:induction false} RowCountSame(p: (int, int) -> bool, q: (int, int) -> bool, x: int, n: nat)
    requires forall y | 0 <= y < n :: p(x, y) == q(x, y)
    ensures RowCount(p, x, n) == RowCount(q, x, n)
  {
    if n > 0 {
      RowCountSame(p, q, x, n - 1);
    }
  }

  /** Predicates that agree on every cell count the same cells. */
  lemma {:induction false} GridCountSame(p: (int, int) -> bool, q: (int, int) -> bool, m: nat, w: nat)
    requires forall x, y | 0 <= x < m && 0 <= y < w :: p(x, y) == q(x, y)
    ensures GridCount(p, m, w) == GridCount(q, m, w)
  {
    if m > 0 {
      GridCountSame(p, q, m - 1, w);
      RowCountSame(p, q, m - 1, w);
    }
  }

  /** A count is zero exactly when no cell qualifies. */
  lemma {:induction false} RowCountZero(p: (int, int) -> bool, x: int, n: nat)
    ensures RowCount(p, x, n) == 0 <==> forall y | 0 <= y < n :: !p(x, y)
  {
    if n > 0 {
      RowCountZero(p, x, n - 1);
    }
  }

  /** A count is zero exactly when no cell qualifies. */
  lemma {:induction false} GridCountZero(p: (int, int) -> bool, m: nat, w: nat)
    ensures GridCount(p, m, w) == 0 <==> forall x, y | 0 <= x < m && 0 <= y < w :: !p(x, y)
  {
    if m > 0 {
      GridCountZero(p, m - 1, w);
      RowCountZero(p, m - 1, w);
      if GridCount(p, m, w) != 0 {
        if GridCount(p, m - 1, w) != 0 {
          var x, y :| 0 <= x < m - 1 && 0 <= y < w && p(x, y);
        } else {
          var y :| 0 <= y < w && p(m - 1, y);
        }
      }
    }
  }

  function RollAt(grid: Grid): (int, int) -> bool
  {
    (x, y) => Roll(grid, x, y)
  }

  function AccessibleAt(grid: Grid): (int, int) -> bool
  {
    (x, y) => Accessible(grid, x, y)
  }

  /** The rolls on the grid. */
  function Rolls(grid: Grid): nat
  {
    GridCount(RollAt(grid), |grid|, Width(grid))
  }

  /** The reachable rolls on the grid. */
  function AccessibleCount(grid: Grid): nat
  {
    GridCount(AccessibleAt(grid), |grid|, Width(grid))
  }

  /** `grid` with every reachable roll replaced by `c`, every other cell kept. */
  function Replace(grid: Grid, c: char): (r: Grid)
    ensures |r| == |grid|
    ensures forall x | 0 <= x < |grid| :: |r[x]| == |grid[x]|
    ensures forall x, y | 0 <= x < |grid| && 0 <= y < |grid[x]| ::
              r[x][y] == if Accessible(grid, x, y) then c else grid[x][y]
  {
    seq(|grid|, x requires 0 <= x < |grid| =>
      seq(|grid[x]|, y requires 0 <= y < |grid[x]| => if Accessible(grid, x, y) then c else grid[x][y]))
  }

  // ---------------------------------------------------------------------------
  // Part 1

  /** The line appended after the grid, and an empty line before it. */
  function Note(count: nat): string
  {
    "There are " + NatToString(count) + " rolls of paper that can be accessed by a forklift."
  }

  /** `solve_part_1`: the marked grid, an empty line, and the count of reachable rolls. */
  function Part1(data: string): Result<string, Error>
  {
    var grid := Parse(data);
    if !Wide(grid) then Failure(IndexOutOfRange)
    else Success(Join(Replace(grid, 'x'), '\n') + "\n\n" + Note(AccessibleCount(grid)))
  }

  /** The cell (x, y) differs between the two grids. */
  predicate Changed(before: Grid, after: Grid, x: int, y: int)
  {
    0 <= x < |before| && x < |after| && 0 <= y < |before[x]| && y < |after[x]| && after[x][y] != before[x][y]
  }

  function ChangedAt(before: Grid, after: Grid): (int, int) -> bool
  {
    (x, y) => Changed(before, after, x, y)
  }

  /**
   * Marking keeps the shape of the grid and changes a cell exactly when it
   * holds a reachable roll, into an 'x'; the count reported is the number of
   * cells changed.
   */
  lemma MarkedCells(grid: Grid)
    requires Wide(grid)
    ensures |Replace(grid, 'x')| == |grid|
    ensures forall x | 0 <= x < |grid| :: |Replace(grid, 'x')[x]| == |grid[x]|
    ensures forall x, y | 0 <= x < |grid| && 0 <= y < |grid[x]| ::
              Changed(grid, Replace(grid, 'x'), x, y) <==> Accessible(grid, x, y)
    ensures forall x, y | Changed(grid, Replace(grid, 'x'), x, y) :: Replace(grid, 'x')[x][y] == 'x'
    ensures GridCount(ChangedAt(grid, Replace(grid, 'x')), |grid|, Width(grid)) == AccessibleCount(grid)
  {
    var marked := Replace(grid, 'x');
    GridCountSame(ChangedAt(grid, marked), AccessibleAt(grid), |grid|, Width(grid));
  }

  /** Lines without line breaks, joined and followed by an empty line and `last`, split back into those lines. */
  lemma RenderLines(lines: seq<string>, last: string)
    requires lines != []
    requires forall x | 0 <= x < |lines| :: '\n' !in lines[x]
    ensures Split(Join(lines, '\n') + "\n\n" + last, '\n') == lines + [""] + Split(last, '\n')
  {
    assert Join(lines, '\n') + "\n\n" + last == Join(lines, '\n') + ['\n'] + (['\n'] + last);
    SplitJoinThen(lines, '\n', ['\n'] + last);
    var s := ['\n'] + last;
    assert Find(s, '\n') == 0;
    assert s[1..] == last;
  }

  /**
   * The output reads back, line by line, as the marked grid, an empty line
   * and the line giving the count.
   */
  lemma Part1Lines(data: string)
    ensures Part1(data).Success? <==> Wide(Parse(data))
    ensures Part1(data).Success? ==>
              Split(Part1(data).value, '\n') == Replace(Parse(data), 'x') + [""] + Split(Note(AccessibleCount(Parse(data))), '\n')
  {
    var grid := Parse(data);
    if Wide(grid) {
      var marked := Replace(grid, 'x');
      forall x | 0 <= x < |marked| ensures '\n' !in marked[x] {
        assert '\n' !in grid[x];
      }
      RenderLines(marked, Note(AccessibleCount(grid)));
    }
  }

  // ---------------------------------------------------------------------------
  // Part 2

  /** Removing the reachable rolls leaves exactly the other rolls. */
  lemma RemovalCount(grid: Grid)
    ensures Rolls(Replace(grid, '.')) + AccessibleCount(grid) == Rolls(grid)
  {
    var removed := Replace(grid, '.');
    assert Width(removed) == Width(grid);
    GridCountSplit(RollAt(grid), RollAt(removed), AccessibleAt(grid), |grid|, Width(grid));
  }

  /** Removing the reachable rolls only takes rolls away. */
  lemma RemovalFewer(grid: Grid)
    ensures Fewer(grid, Replace(grid, '.'))
  {
  }

  /**
   * The rounds of part 2: while some roll is reachable, remove every reachable
   * roll at once. The grid left at the fixpoint and the rolls removed.
   */
  function Rounds(grid: Grid): (r: (Grid, nat))
    decreases Rolls(grid)
  {
    var removed := AccessibleCount(grid);
    if removed == 0 then (grid, 0)
    else
      RemovalCount(grid);
      var (final, total) := Rounds(Replace(grid, '.'));
      (final, removed + total)
  }

  /** `solve_part_2`: the rolls removed before none is reachable. */
  function Part2(data: string): Result<nat, Error>
  {
    var grid := Parse(data);
    if !Wide(grid) then Failure(IndexOutOfRange) else Success(Rounds(grid).1)
  }

  /**
   * The rounds end at a grid where no roll is reachable; every roll removed
   * was on the grid, so the total is the initial number of rolls minus those
   * left, and at least the rolls reachable in the first round.
   */
  lemma {:induction false} RoundsFixpoint(grid: Grid)
    ensures forall x, y | 0 <= x < |grid| && 0 <= y < Width(grid) :: !Accessible(Rounds(grid).0, x, y)
    ensures Rounds(grid).1 + Rolls(Rounds(grid).0) == Rolls(grid)
    ensures Rounds(grid).1 >= AccessibleCount(grid)
    decreases Rolls(grid)
  {
    if AccessibleCount(grid) == 0 {
      GridCountZero(AccessibleAt(grid), |grid|, Width(grid));
      forall x, y | 0 <= x < |grid| && 0 <= y < Width(grid) ensures !Accessible(grid, x, y) {
        assert !AccessibleAt(grid)(x, y);
      }
    } else {
      RemovalCount(grid);
      RoundsFixpoint(Replace(grid, '.'));
    }
  }

  /** Only rolls are ever removed: the final grid has the shape of the first, and a changed cell was a roll and is now empty. */
  lemma {:induction false} RoundsOnlyRemove(grid: Grid)
    ensures |Rounds(grid).0| == |grid|
    ensures forall x | 0 <= x < |grid| :: |Rounds(grid).0[x]| == |grid[x]|
    ensures forall x, y | Changed(grid, Rounds(grid).0, x, y) :: grid[x][y] == '@' && Rounds(grid).0[x][y] == '.'
    decreases Rolls(grid)
  {
    if AccessibleCount(grid) != 0 {
      RemovalCount(grid);
      var next := Replace(grid, '.');
      RoundsOnlyRemove(next);
      forall x, y | Changed(grid, Rounds(grid).0, x, y)
        ensures grid[x][y] == '@' && Rounds(grid).0[x][y] == '.'
      {
        if next[x][y] == grid[x][y] {
          assert Changed(next, Rounds(next).0, x, y);
        }
      }
    }
  }

  /** The total removed is at most the rolls on the grid at the start. */
  lemma Part2Bounded(data: string)
    ensures Part2(data).Success? <==> Wide(Parse(data))
    ensures Part2(data).Success? ==> AccessibleCount(Parse(data)) <= Part2(data).value <= Rolls(Parse(data))
  {
    RoundsFixpoint(Parse(data));
  }

  /** The reachable rolls of row `x` among its first `n` columns, left to right. */
  function RowReachable(grid: Grid, x: int, n: nat): seq<(int, int)>
  {
    if n == 0 then []
    else RowReachable(grid, x, n - 1) + (if Accessible(grid, x, n - 1) then [(x, n - 1)] else [])
  }

  /** `accessible_rolls` after scanning the first `m` rows: the reachable rolls in row-major order. */
  function Reachable(grid: Grid, m: nat): seq<(int, int)>
  {
    if m == 0 then []
    else Reachable(grid, m - 1) + RowReachable(grid, m - 1, Width(grid))
  }

  /** The scan of a row lists each reachable roll of the row once. */
  lemma {:induction false} RowReachableLists(grid: Grid, x: int, n: nat)
    ensures forall a, b :: (a, b) in RowReachable(grid, x, n) <==> a == x && 0 <= b < n && Accessible(grid, a, b)
    ensures |RowReachable(grid, x, n)| == RowCount(AccessibleAt(grid), x, n)
  {
    if n > 0 {
      RowReachableLists(grid, x, n - 1);
    }
  }

  /** The scan lists each reachable roll of the first `m` rows once: `accessible_rolls` is empty exactly when no roll is reachable. */
  lemma {:induction false} ReachableLists(grid: Grid, m: nat)
    ensures forall a, b :: (a, b) in Reachable(grid, m) <==> 0 <= a < m && Accessible(grid, a, b)
    ensures |Reachable(grid, m)| == GridCount(AccessibleAt(grid), m, Width(grid))
  {
    if m > 0 {
      ReachableLists(grid, m - 1);
      RowReachableLists(grid, m - 1, Width(grid));
    }
  }

  // ---------------------------------------------------------------------------
  // Where the scans raise

  /** Visiting cell (x, y) raises: the cell itself, or, for a roll, one of its neighbours, cannot be read. */
  predicate CellRaises(grid: Grid, x: int, y: int)
  {
    0 <= x < |grid| && 0 <= y && (y >= |grid[x]| || (grid[x][y] == '@' && NeighbourUnreadable(grid, x, y)))
  }

  /** Some cell of row `x`, within the width of the first row, raises when visited. */
  predicate RowRaises(grid: Grid, x: int)
  {
    exists y | 0 <= y < Width(grid) :: CellRaises(grid, x, y)
  }

  /** A scan over every row raises exactly when some row is shorter than the first. */
  lemma RaisesIffNarrow(grid: Grid)
    ensures (exists x | 0 <= x < |grid| :: RowRaises(grid, x)) <==> !Wide(grid)
  {
    if !Wide(grid) {
      var x :| 0 <= x < |grid| && |grid[x]| < Width(grid);
      assert CellRaises(grid, x, |grid[x]|);
      assert RowRaises(grid, x);
    }
    if exists x | 0 <= x < |grid| :: RowRaises(grid, x) {
      var x :| 0 <= x < |grid| && RowRaises(grid, x);
      var y :| 0 <= y < Width(grid) && CellRaises(grid, x, y);
      if y < |grid[x]| {
        var k :| 0 <= k < |Directions| && Unreadable(grid, x + Directions[k].0, y + Directions[k].1);
        assert |grid[x + Directions[k].0]| < Width(grid);
      }
    }
  }

  // ---------------------------------------------------------------------------
  // The solver's loops

  /** `count_adjacent_rolls(x, y)`: the rolls around (x, y), or the IndexError of a short neighbouring row. */
  method CountAdjacentRolls(grid: Grid, x: int, y: int) returns (r: Result<nat, Error>)
    ensures r.Failure? <==> NeighbourUnreadable(grid, x, y)
    ensures r.Success? ==> r.value == Adjacent(grid, x, y)
  {
    var count := 0;
    for k := 0 to |Directions|
      invariant count == AdjacentUpTo(grid, x, y, k)
      invariant forall i | 0 <= i < k :: !Unreadable(grid, x + Directions[i].0, y + Directions[i].1)
    {
      var (dx, dy) := Directions[k];
      var nx, ny := x + dx, y + dy;
      if 0 <= nx < |grid| && 0 <= ny < |grid[0]| {
        if ny >= |grid[nx]| {
          assert Unreadable(grid, x + Directions[k].0, y + Directions[k].1);
          return Failure(IndexOutOfRange);
        }
        if grid[nx][ny] == '@' {
          count := count + 1;
        }
      }
    }
    return Success(count);
  }

  /** The inner loop of `solve_part_1` over row `x`: the row of `result_grid`, and `accessible_count` grown from `count`. */
  method MarkRow(grid: Grid, x: nat, count: nat) returns (r: Result<(seq<char>, nat), Error>)
    requires x < |grid|
    ensures r.Failure? <==> RowRaises(grid, x)
    ensures r.Success? ==> r.value == (Replace(grid, 'x')[x], count + RowCount(AccessibleAt(grid), x, Width(grid)))
  {
    var row := grid[x];
    var total := count;
    for y := 0 to |grid[0]|
      invariant |row| == |grid[x]|
      invariant forall j | 0 <= j < |row| :: row[j] == if j < y && Accessible(grid, x, j) then 'x' else grid[x][j]
      invariant forall j | 0 <= j < y :: !CellRaises(grid, x, j)
      invariant total == count + RowCount(AccessibleAt(grid), x, y)
    {
      if y >= |grid[x]| {
        assert CellRaises(grid, x, y);
        return Failure(IndexOutOfRange);
      }
      if grid[x][y] == '@' {
        var adjacent := CountAdjacentRolls(grid, x, y);
        if adjacent.Failure? {
          assert CellRaises(grid, x, y);
          return Failure(adjacent.error);
        }
        if adjacent.value < 4 {
          row := row[y := 'x'];
          total := total + 1;
        }
      }
    }
    assert row == Replace(grid, 'x')[x];
    return Success((row, total));
  }

  /** The loops of `solve_part_1`: `result_grid` and `accessible_count`, or the IndexError of a short row. */
  method Mark(grid: Grid) returns (r: Result<(Grid, nat), Error>)
    ensures r.Failure? <==> !Wide(grid)
    ensures r.Success? ==> r.value == (Replace(grid, 'x'), AccessibleCount(grid))
  {
    RaisesIffNarrow(grid);
    var result := grid;
    var count := 0;
    for x := 0 to |grid|
      invariant |result| == |grid|
      invariant forall i | 0 <= i < x :: result[i] == Replace(grid, 'x')[i]
      invariant forall i | x <= i < |grid| :: result[i] == grid[i]
      invariant forall i | 0 <= i < x :: !RowRaises(grid, i)
      invariant count == GridCount(AccessibleAt(grid), x, Width(grid))
    {
      var marked := MarkRow(grid, x, count);
      if marked.Failure? {
        return Failure(marked.error);
      }
      result := result[x := marked.value.0];
      count := marked.value.1;
    }
    assert result == Replace(grid, 'x');
    return Success((result, count));
  }

  /** `solve_part_1`. */
  method SolvePart1(data: string) returns (r: Result<string, Error>)
    ensures r == Part1(data)
  {
    var grid := Parse(data);
    var marked := Mark(grid);
    if marked.Failure? {
      return Failure(IndexOutOfRange);
    }
    var (resultGrid, accessibleCount) := marked.value;
    var result := Join(resultGrid, '\n');
    result := result + "\n\n" + Note(accessibleCount);
    return Success(result);
  }

  /** The inner loop of the scan of `solve_part_2` over row `x`: `found` extended with the reachable rolls of the row. */
  method CollectRow(grid: Grid, x: nat, found: seq<(int, int)>) returns (r: Result<seq<(int, int)>, Error>)
    requires x < |grid|
    ensures r.Failure? <==> RowRaises(grid, x)
    ensures r.Success? ==> r.value == found + RowReachable(grid, x, Width(grid))
  {
    var accessibleRolls := found;
    for y := 0 to |grid[0]|
      invariant accessibleRolls == found + RowReachable(grid, x, y)
      invariant forall j | 0 <= j < y :: !CellRaises(grid, x, j)
    {
      if y >= |grid[x]| {
        assert CellRaises(grid, x, y);
        return Failure(IndexOutOfRange);
      }
      if grid[x][y] == '@' {
        var adjacent := CountAdjacentRolls(grid, x, y);
        if adjacent.Failure? {
          assert CellRaises(grid, x, y);
          return Failure(adjacent.error);
        }
        if adjacent.value < 4 {
          accessibleRolls := accessibleRolls + [(x, y)];
        }
      }
    }
    return Success(accessibleRolls);
  }

  /** The scan of one round of `solve_part_2`: `accessible_rolls`, or the IndexError of a short row. */
  method Collect(grid: Grid) returns (r: Result<seq<(int, int)>, Error>)
    ensures r.Failure? <==> !Wide(grid)
    ensures r.Success? ==> r.value == Reachable(grid, |grid|)
  {
    RaisesIffNarrow(grid);
    var accessibleRolls := [];
    for x := 0 to |grid|
      invariant accessibleRolls == Reachable(grid, x)
      invariant forall i | 0 <= i < x :: !RowRaises(grid, i)
    {
      var collected := CollectRow(grid, x, accessibleRolls);
      if collected.Failure? {
        return Failure(collected.error);
      }
      accessibleRolls := collected.value;
    }
    return Success(accessibleRolls);
  }

  /** `grid[i][j] = '.'` for every (i, j) of `rolls`, in place. */
  method RemoveAll(grid: Grid, rolls: seq<(int, int)>) returns (cleared: Grid)
    requires forall k | 0 <= k < |rolls| :: 0 <= rolls[k].0 < |grid| && 0 <= rolls[k].1 < |grid[rolls[k].0]|
    ensures |cleared| == |grid|
    ensures forall x | 0 <= x < |grid| :: |cleared[x]| == |grid[x]|
    ensures forall x, y | 0 <= x < |grid| && 0 <= y < |grid[x]| ::
              cleared[x][y] == if (x, y) in rolls then '.' else grid[x][y]
  {
    cleared := grid;
    for k := 0 to |rolls|
      invariant |cleared| == |grid|
      invariant forall x | 0 <= x < |grid| :: |cleared[x]| == |grid[x]|
      invariant forall x, y | 0 <= x < |grid| && 0 <= y < |grid[x]| ::
                  cleared[x][y] == if (x, y) in rolls[..k] then '.' else grid[x][y]
    {
      var (x, y) := rolls[k];
      cleared := cleared[x := cleared[x][y := '.']];
      assert rolls[..k + 1] == rolls[..k] + [rolls[k]];
    }
    assert rolls[..|rolls|] == rolls;
  }

  /** Clearing the cells of `accessible_rolls` is removing the reachable rolls. */
  lemma ClearReachable(grid: Grid, cleared: Grid)
    requires |cleared| == |grid|
    requires forall x | 0 <= x < |grid| :: |cleared[x]| == |grid[x]|
    requires forall x, y | 0 <= x < |grid| && 0 <= y < |grid[x]| ::
               cleared[x][y] == if (x, y) in Reachable(grid, |grid|) then '.' else grid[x][y]
    ensures cleared == Replace(grid, '.')
  {
    var removed := Replace(grid, '.');
    ReachableLists(grid, |grid|);
    forall x | 0 <= x < |grid| ensures cleared[x] == removed[x] {
      assert forall y | 0 <= y < |grid[x]| :: cleared[x][y] == removed[x][y];
    }
  }

  /** Every cell listed by the scan lies on the grid. */
  lemma ReachableOnGrid(grid: Grid)
    ensures forall k | 0 <= k < |Reachable(grid, |grid|)| ::
              0 <= Reachable(grid, |grid|)[k].0 < |grid| && 0 <= Reachable(grid, |grid|)[k].1 < |grid[Reachable(grid, |grid|)[k].0]|
  {
    var rolls := Reachable(grid, |grid|);
    ReachableLists(grid, |grid|);
    forall k | 0 <= k < |rolls| ensures 0 <= rolls[k].0 < |grid| && 0 <= rolls[k].1 < |grid[rolls[k].0]| {
      var (a, b) := rolls[k];
      assert (a, b) in rolls;
    }
  }

  /** Grids with the same row lengths raise alike. */
  lemma SameShapeWide(a: Grid, b: Grid)
    requires |a| == |b| && Width(a) == Width(b)
    requires forall x | 0 <= x < |a| :: |a[x]| == |b[x]|
    ensures Wide(a) <==> Wide(b)
  {
  }

  /**
   * One pass of `solve_part_2`'s loop: the reachable rolls are collected (or
   * a short row raises), and when there are any they are cleared.
   */
  method RemovalRound(grid: Grid) returns (r: Result<(Grid, nat), Error>)
    ensures r.Failure? <==> !Wide(grid)
    ensures r.Failure? ==> r.error == IndexOutOfRange
    ensures r.Success? ==> r.value.1 == AccessibleCount(grid)
    ensures r.Success? && r.value.1 > 0 ==> r.value.0 == Replace(grid, '.')
    ensures r.Success? && r.value.1 == 0 ==> r.value.0 == grid
  {
    var scanned := Collect(grid);
    if scanned.Failure? {
      return Failure(IndexOutOfRange);
    }
    var accessibleRolls := scanned.value;
    ReachableLists(grid, |grid|);
    if |accessibleRolls| == 0 {
      return Success((grid, 0));
    }
    ReachableOnGrid(grid);
    var cleared := RemoveAll(grid, accessibleRolls);
    ClearReachable(grid, cleared);
    return Success((cleared, |accessibleRolls|));
  }

  /** `solve_part_2`: rounds of removal until no roll is reachable, or the IndexError of a short row. */
  method SolvePart2(data: string) returns (r: Result<nat, Error>)
    ensures r == Part2(data)
  {
    var grid := Parse(data);
    ghost var start := grid;
    var totalRemoved := 0;
    while true
      invariant |grid| == |start| && Width(grid) == Width(start)
      invariant forall x | 0 <= x < |grid| :: |grid[x]| == |start[x]|
      invariant Rounds(start).1 == totalRemoved + Rounds(grid).1
      decreases Rolls(grid)
    {
      var round := RemovalRound(grid);
      SameShapeWide(start, grid);
      if round.Failure? {
        return Failure(IndexOutOfRange);
      }
      var (cleared, removed) := round.value;
      if removed == 0 {
        assert Rounds(grid).1 == 0;
        break;
      }
      RemovalCount(grid);
      assert Rounds(grid).1 == removed + Rounds(cleared).1;
      grid := cleared;
      totalRemoved := totalRemoved + removed;
    }
    return Success(totalRemoved);
  }
}
