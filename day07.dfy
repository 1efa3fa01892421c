/**
 * Day 7: tachyon beams fall through a manifold drawn as rows of text. A beam
 * starts just below 'S' and moves down one row per step; a beam that meets a
 * splitter '^' stops there, and two beams carry on from the cells left and
 * right of the splitter, one row down. Beams leaving the manifold are dropped.
 * Part 1 counts the splitters reached; part 2 counts timelines, where the
 * timelines reaching a splitter each split in two.
 */
module Day07 {

  import opened Wrappers
  import opened Text

  /** A cell as `(x, y)`: column, then row. */
  type Pos = (int, int)

  /** Timelines per beam column, the dictionary of part 2 for the row the beams stand on. */
  type Counts = map<int, nat>

  datatype Error =
    | NoStartingPoint  // the ValueError of solve_part_1
    | NoneOperand      // the TypeError of solve_part_2: `sy + 1` while `sy` is still None
    | IndexOutOfRange  // the IndexError of `manifold[y][x]` on a row shorter than the first

  // ---------------------------------------------------------------------------
  // The starting point

  /** The first 'S' at or below row `y`: the first row holding one, and its leftmost 'S' there. */
  function StartFrom(manifold: seq<string>, y: nat): (r: Option<Pos>)
    requires y <= |manifold|
    ensures r.None? <==> forall z | y <= z < |manifold| :: 'S' !in manifold[z]
    ensures r.Some? ==> && y <= r.value.1 < |manifold|
                        && 0 <= r.value.0 < |manifold[r.value.1]|
                        && manifold[r.value.1][r.value.0] == 'S'
                        && 'S' !in manifold[r.value.1][..r.value.0]
                        && forall z | y <= z < r.value.1 :: 'S' !in manifold[z]
    decreases |manifold| - y
  {
    if y == |manifold| then None
    else if 'S' in manifold[y] then Some((Find(manifold[y], 'S'), y))
    else StartFrom(manifold, y + 1)
  }

  /** `sx, sy` after the search loop: the leftmost 'S' of the first row that has one. */
  function StartOf(manifold: seq<string>): Option<Pos>
  {
    StartFrom(manifold, 0)
  }

  // ---------------------------------------------------------------------------
  // One step of the beams
  //
  // The beams of a step all stand on one row: the first is just below 'S', and
  // every beam of `next_active` is one row below the beam it comes from. So a
  // step is described by its row `y` and the set of its beams' columns.

  /** `0 <= x < W and 0 <= y < H`, the test that drops a position. */
  predicate InBounds(manifold: seq<string>, width: int, y: int, x: int)
  {
    0 <= x < width && 0 <= y < |manifold|
  }

  /** An in-bounds position on a row shorter than the first: reading its cell raises. */
  predicate Unreadable(manifold: seq<string>, width: int, y: int, x: int)
  {
    InBounds(manifold, width, y, x) && x >= |manifold[y]|
  }

  /** An in-bounds position whose cell is a splitter. */
  predicate Splitter(manifold: seq<string>, width: int, y: int, x: int)
  {
    InBounds(manifold, width, y, x) && x < |manifold[y]| && manifold[y][x] == '^'
  }

  /** An in-bounds position whose cell lets the beam through. */
  predicate Passes(manifold: seq<string>, width: int, y: int, x: int)
  {
    InBounds(manifold, width, y, x) && x < |manifold[y]| && manifold[y][x] != '^'
  }

  /** Some beam of row `y` reads a cell that is not there. */
  predicate Raises(manifold: seq<string>, width: int, y: int, beams: set<int>)
  {
    exists x | x in beams :: Unreadable(manifold, width, y, x)
  }

  /** `split_events`: the beams of row `y` standing on a splitter. */
  function Hits(manifold: seq<string>, width: int, y: int, beams: set<int>): set<int>
  {
    set x | x in beams && Splitter(manifold, width, y, x)
  }

  /** The beams that continue straight down, while there is a row below. */
  function Straight(manifold: seq<string>, width: int, y: int, beams: set<int>): set<int>
  {
    set x | x in beams && Passes(manifold, width, y, x) && y + 1 < |manifold|
  }

  /**
   * The beams leaving the splitters `hits` of row `y`: the columns left and
   * right of each one that lie in `0 <= x < W`, while there is a row below.
   */
  function Branches(manifold: seq<string>, width: int, y: int, hits: set<int>): set<int>
  {
    set x | 0 <= x < width && y + 1 < |manifold| && Beside(hits, x)
  }

  /** A splitter of `hits` stands right or left of column `x`. */
  predicate Beside(hits: set<int>, x: int)
  {
    x + 1 in hits || x - 1 in hits
  }

  /** `next_active`: the columns of the beams one row further down. */
  function Next(manifold: seq<string>, width: int, y: int, beams: set<int>): set<int>
  {
    Straight(manifold, width, y, beams) + Branches(manifold, width, y, Hits(manifold, width, y, beams))
  }

  /** Beams that would leave the manifold are dropped: the next beams are in bounds, and there are none below the last row. */
  lemma NextInBounds(manifold: seq<string>, width: int, y: int, beams: set<int>)
    ensures forall x | x in Next(manifold, width, y, beams) :: InBounds(manifold, width, y + 1, x)
    ensures y + 1 >= |manifold| ==> Next(manifold, width, y, beams) == {}
  {
  }

  /** One more splitter, inside the row, adds its own branches, those in bounds. */
  lemma BranchesAdd(manifold: seq<string>, width: int, y: int, hits: set<int>, h: int)
    requires 0 <= h < width
    ensures Branches(manifold, width, y, hits + {h})
            == Branches(manifold, width, y, hits)
               + (if y + 1 < |manifold| && h - 1 >= 0 then {h - 1} else {})
               + (if y + 1 < |manifold| && h + 1 < width then {h + 1} else {})
  {
  }

  // ---------------------------------------------------------------------------
  // Part 1

  /** A count so far plus the rest of the count, or the error the rest raises. */
  function Plus(n: nat, rest: Result<nat, Error>): Result<nat, Error>
  {
    if rest.Success? then Success(n + rest.value) else rest
  }

  lemma PlusSuccess(total: Result<nat, Error>, n: nat, rest: Result<nat, Error>, value: nat, sum: nat)
    requires total == Plus(n, rest) && rest == Success(value) && n + value == sum
    ensures total == Success(sum)
  {
  }

  lemma PlusPlus(a: nat, b: nat, rest: Result<nat, Error>)
    ensures Plus(a, Plus(b, rest)) == Plus(a + b, rest)
  {
  }

  /** The splits counted from the step at row `y` on, or the IndexError a step raises. */
  function Splits(manifold: seq<string>, width: int, y: nat, beams: set<int>): (r: Result<nat, Error>)
    ensures r.Failure? ==> r.error == IndexOutOfRange
    decreases |manifold| - y
  {
    if beams == {} then Success(0)
    else if Raises(manifold, width, y, beams) then Failure(IndexOutOfRange)
    else if y >= |manifold| then Success(0)
    else Plus(|Hits(manifold, width, y, beams)|, Splits(manifold, width, y + 1, Next(manifold, width, y, beams)))
  }

  lemma PlusZero(rest: Result<nat, Error>)
    ensures Plus(0, rest) == rest
  {
  }

  lemma PlusFailure(n: nat, rest: Result<nat, Error>)
    requires rest.Failure?
    ensures Plus(n, rest) == rest
  {
  }

  /** No beams: nothing more to count. */
  lemma SplitsNone(manifold: seq<string>, width: int, y: nat)
    ensures Splits(manifold, width, y, {}) == Success(0)
  {
  }

  /** One step of the count: the hits of row `y`, then the count from the next row on. */
  lemma SplitsStep(manifold: seq<string>, width: int, y: nat, beams: set<int>)
    requires beams != {} && !Raises(manifold, width, y, beams) && y < |manifold|
    ensures Splits(manifold, width, y, beams)
            == Plus(|Hits(manifold, width, y, beams)|, Splits(manifold, width, y + 1, Next(manifold, width, y, beams)))
  {
  }

  /** The beams before the loop: the column of 'S' on the row below it, if there is one. */
  function FirstBeams(manifold: seq<string>, start: Pos): set<int>
  {
    if start.1 + 1 < |manifold| then {start.0} else {}
  }

  /** What `solve_part_1` returns or raises. */
  function Part1(data: string): Result<nat, Error>
  {
    var manifold := Lines(data);
    match StartOf(manifold)
    case None => Failure(NoStartingPoint)
    case Some(start) => Splits(manifold, |manifold[0]|, start.1 + 1, FirstBeams(manifold, start))
  }

  /** The number of splitters on a row. */
  function RowSplitters(row: string): nat
  {
    |set x | 0 <= x < |row| && row[x] == '^'|
  }

  /** The number of splitters on the rows from `y` down. */
  function SplittersFrom(manifold: seq<string>, y: nat): nat
    decreases |manifold| - y
  {
    if y >= |manifold| then 0 else RowSplitters(manifold[y]) + SplittersFrom(manifold, y + 1)
  }

  lemma SubsetCard<T>(a: set<T>, b: set<T>)
    requires a <= b
    ensures |a| <= |b|
  {
    assert b == a + (b - a);
  }

  /** Each splitter is counted at most once: the splits never exceed the splitters from row `y` down. */
  lemma {:induction false} SplitsBounded(manifold: seq<string>, width: int, y: nat, beams: set<int>)
    ensures Splits(manifold, width, y, beams).Success?
            ==> Splits(manifold, width, y, beams).value <= SplittersFrom(manifold, y)
    decreases |manifold| - y
  {
    if beams != {} && !Raises(manifold, width, y, beams) && y < |manifold| {
      SplitsBounded(manifold, width, y + 1, Next(manifold, width, y, beams));
      var row := manifold[y];
      SubsetCard(Hits(manifold, width, y, beams), set x | 0 <= x < |row| && row[x] == '^');
    }
  }

  /** `solve_part_1` raises ValueError exactly when no row holds an 'S'. */
  lemma Part1NoStart(data: string)
    ensures Part1(data) == Failure(NoStartingPoint)
            <==> forall y | 0 <= y < |Lines(data)| :: 'S' !in Lines(data)[y]
  {
  }

  /** Splitters further down are among all those further up. */
  lemma {:induction false} SplittersFromMonotone(manifold: seq<string>, y: nat)
    ensures SplittersFrom(manifold, y) <= SplittersFrom(manifold, 0)
    decreases y
  {
    if y > 0 {
      SplittersFromMonotone(manifold, y - 1);
    }
  }

  /** The count of `solve_part_1` is at most the number of splitters in the manifold. */
  lemma Part1Bounded(data: string)
    ensures Part1(data).Success? ==> Part1(data).value <= SplittersFrom(Lines(data), 0)
  {
    var manifold := Lines(data);
    if StartOf(manifold).Some? {
      var start := StartOf(manifold).value;
      SplitsBounded(manifold, |manifold[0]|, start.1 + 1, FirstBeams(manifold, start));
      SplittersFromMonotone(manifold, start.1 + 1);
    }
  }

  // ---------------------------------------------------------------------------
  // Part 1, beam by beam
  //
  // An independent account of part 1: follow each beam on its own, down to
  // every splitter it meets, and count the splitters reached.

  /** No row is shorter than the first, so no cell read by a beam is missing. */
  predicate Wide(manifold: seq<string>, width: int)
  {
    forall y | 0 <= y < |manifold| :: |manifold[y]| >= width
  }

  /**
   * A beam at column `x` of row `y` gets to the cell `(tx, ty)`: it is there,
   * or it goes on down, straight through an empty cell, or left or right of a
   * splitter, without leaving the manifold.
   */
  ghost predicate Reaches(manifold: seq<string>, width: int, x: int, y: nat, tx: int, ty: int)
    decreases |manifold| - y
  {
    && InBounds(manifold, width, y, x)
    && (|| (x == tx && y == ty)
        || (&& y < ty && y + 1 < |manifold|
            && if Splitter(manifold, width, y, x)
               then || (x - 1 >= 0 && Reaches(manifold, width, x - 1, y + 1, tx, ty))
                    || (x + 1 < width && Reaches(manifold, width, x + 1, y + 1, tx, ty))
               else Reaches(manifold, width, x, y + 1, tx, ty)))
  }

  /** The splitters that some beam of row `y` gets to. */
  ghost function Reached(manifold: seq<string>, width: int, y: nat, beams: set<int>): set<Pos>
  {
    set tx, ty | 0 <= ty < |manifold| && 0 <= tx < width && Splitter(manifold, width, ty, tx)
                 && (exists x | x in beams :: Reaches(manifold, width, x, y, tx, ty))
      :: (tx, ty)
  }

  /** The splitters hit on row `y`, as cells. */
  function OnRow(hits: set<int>, y: int): set<Pos>
  {
    set x | x in hits :: (x, y)
  }

  /** Some element of a non-empty set. */
  lemma Member<T>(s: set<T>) returns (x: T)
    requires s != {}
    ensures x in s
  {
    x :| x in s;
  }

  lemma {:induction false} OnRowCard(hits: set<int>, y: int)
    ensures |OnRow(hits, y)| == |hits|
    decreases hits
  {
    if hits != {} {
      var x := Member(hits);
      OnRowCard(hits - {x}, y);
      assert OnRow(hits, y) == OnRow(hits - {x}, y) + {(x, y)};
    }
  }

  /** A beam only gets to cells on its own row or further down. */
  lemma ReachesBelow(manifold: seq<string>, width: int, x: int, y: nat, tx: int, ty: int)
    requires Reaches(manifold, width, x, y, tx, ty)
    ensures ty >= y
  {
  }

  /** The splitters reached from row `y` are those hit there and those reached from the next beams. */
  lemma ReachedStep(manifold: seq<string>, width: int, y: nat, beams: set<int>)
    requires !Raises(manifold, width, y, beams) && y < |manifold|
    ensures Reached(manifold, width, y, beams)
            == OnRow(Hits(manifold, width, y, beams), y) + Reached(manifold, width, y + 1, Next(manifold, width, y, beams))
  {
    var hits := Hits(manifold, width, y, beams);
    var next := Next(manifold, width, y, beams);
    forall p | p in Reached(manifold, width, y, beams)
      ensures p in OnRow(hits, y) + Reached(manifold, width, y + 1, next)
    {
      var (tx, ty) := p;
      var x :| x in beams && Reaches(manifold, width, x, y, tx, ty);
      if x == tx && y == ty {
        assert x in hits;
      } else if Splitter(manifold, width, y, x) {
        assert x in hits;
        if x - 1 >= 0 && Reaches(manifold, width, x - 1, y + 1, tx, ty) {
          assert Beside(hits, x - 1);
          assert x - 1 in next;
        } else {
          assert Beside(hits, x + 1);
          assert x + 1 in next;
        }
      } else {
        assert !Unreadable(manifold, width, y, x);
        assert x in next;
      }
    }
    forall p | p in OnRow(hits, y)
      ensures p in Reached(manifold, width, y, beams)
    {
      var (tx, ty) := p;
      assert tx in beams && Reaches(manifold, width, tx, y, tx, ty);
    }
    forall p | p in Reached(manifold, width, y + 1, next)
      ensures p in Reached(manifold, width, y, beams)
    {
      var (tx, ty) := p;
      var x' :| x' in next && Reaches(manifold, width, x', y + 1, tx, ty);
      ReachesBelow(manifold, width, x', y + 1, tx, ty);
      if x' in Straight(manifold, width, y, beams) {
        assert Reaches(manifold, width, x', y, tx, ty);
      } else if x' + 1 in hits {
        assert Reaches(manifold, width, x' + 1, y, tx, ty);
      } else {
        assert x' - 1 in hits;
        assert Reaches(manifold, width, x' - 1, y, tx, ty);
      }
    }
  }

  /** The splitters reached from row `y` lie on row `y` or further down. */
  lemma ReachedBelow(manifold: seq<string>, width: int, y: nat, beams: set<int>)
    ensures forall p | p in Reached(manifold, width, y, beams) :: p.1 >= y
  {
    forall p | p in Reached(manifold, width, y, beams) ensures p.1 >= y {
      var x :| x in beams && Reaches(manifold, width, x, y, p.0, p.1);
      ReachesBelow(manifold, width, x, y, p.0, p.1);
    }
  }

  /** Splitters hit on row `y` and splitters reached further down are counted apart. */
  lemma CountApart(hits: set<int>, y: int, below: set<Pos>)
    requires forall p | p in below :: p.1 > y
    ensures |OnRow(hits, y) + below| == |hits| + |below|
  {
    OnRowCard(hits, y);
    assert OnRow(hits, y) !! below;
  }

  /** The splitters reached from row `y`: those hit there, plus those reached from the next row. */
  lemma ReachedCount(manifold: seq<string>, width: int, y: nat, beams: set<int>)
    requires !Raises(manifold, width, y, beams) && y < |manifold|
    ensures |Reached(manifold, width, y, beams)|
            == |Hits(manifold, width, y, beams)| + |Reached(manifold, width, y + 1, Next(manifold, width, y, beams))|
  {
    var below := Reached(manifold, width, y + 1, Next(manifold, width, y, beams));
    ReachedStep(manifold, width, y, beams);
    ReachedBelow(manifold, width, y + 1, Next(manifold, width, y, beams));
    CountApart(Hits(manifold, width, y, beams), y, below);
  }

  /** No beams, or no rows left: no splitter is reached. */
  lemma ReachedNone(manifold: seq<string>, width: int, y: nat, beams: set<int>)
    requires beams == {} || y >= |manifold|
    ensures Reached(manifold, width, y, beams) == {}
  {
    forall x, tx: int, ty: int | x in beams ensures !Reaches(manifold, width, x, y, tx, ty) {
    }
  }

  /** On a manifold with no short row, no beam reads a missing cell. */
  lemma WideNeverRaises(manifold: seq<string>, width: int, y: nat, beams: set<int>)
    requires Wide(manifold, width)
    ensures !Raises(manifold, width, y, beams)
  {
  }

  /**
   * On a manifold with no short row, the splits counted from row `y` on are
   * the splitters that the beams of row `y` get to, each counted once.
   */
  lemma {:induction false} SplitsReached(manifold: seq<string>, width: int, y: nat, beams: set<int>)
    requires Wide(manifold, width)
    ensures Splits(manifold, width, y, beams) == Success(|Reached(manifold, width, y, beams)|)
    decreases |manifold| - y
  {
    if beams == {} || y >= |manifold| {
      ReachedNone(manifold, width, y, beams);
    } else {
      WideNeverRaises(manifold, width, y, beams);
      var hits := Hits(manifold, width, y, beams);
      var next := Next(manifold, width, y, beams);
      var below := Reached(manifold, width, y + 1, next);
      SplitsStep(manifold, width, y, beams);
      SplitsReached(manifold, width, y + 1, next);
      assert Splits(manifold, width, y, beams) == Success(|hits| + |below|);
      ReachedCount(manifold, width, y, beams);
    }
  }

  /**
   * On a manifold with no row shorter than the first, `solve_part_1` counts
   * the splitters that the beam starting just below 'S' gets to.
   */
  lemma Part1CountsReached(data: string)
    requires Wide(Lines(data), |Lines(data)[0]|) && StartOf(Lines(data)).Some?
    ensures Part1(data) == Success(|Reached(Lines(data), |Lines(data)[0]|, StartOf(Lines(data)).value.1 + 1,
                                           {StartOf(Lines(data)).value.0})|)
  {
    var manifold := Lines(data);
    var width := |manifold[0]|;
    var start := StartOf(manifold).value;
    SplitsReached(manifold, width, start.1 + 1, FirstBeams(manifold, start));
    if start.1 + 1 >= |manifold| {
      assert Reached(manifold, width, start.1 + 1, {start.0}) == {};
    }
  }

  // ---------------------------------------------------------------------------
  // Part 1, as the solver runs it

  /** The search loop: rows from the top, `break` at the first row holding an 'S'. */
  method FindStart(manifold: seq<string>) returns (start: Option<Pos>)
    ensures start == StartOf(manifold)
  {
    start := None;
    for y := 0 to |manifold|
      invariant StartOf(manifold) == StartFrom(manifold, y)
    {
      var row := manifold[y];
      if 'S' in row {
        start := Some((Find(row, 'S'), y));
        break;
      }
    }
  }

  /** Some beam of a non-empty set: the next one a loop over the set visits. */
  method Pick<T>(beams: set<T>) returns (x: T)
    requires beams != {}
    ensures x in beams
  {
    x :| x in beams;
  }

  /** One more beam scanned: its hit, its straight continuation, its IndexError. */
  lemma ScanAdd(manifold: seq<string>, width: int, y: int, done: set<int>, x: int)
    ensures Hits(manifold, width, y, done + {x})
            == Hits(manifold, width, y, done) + (if Splitter(manifold, width, y, x) then {x} else {})
    ensures Straight(manifold, width, y, done + {x})
            == Straight(manifold, width, y, done)
               + (if Passes(manifold, width, y, x) && y + 1 < |manifold| then {x} else {})
    ensures Raises(manifold, width, y, done + {x}) <==> Raises(manifold, width, y, done) || Unreadable(manifold, width, y, x)
  {
  }

  /**
   * The first loop of a step over the beams of row `y`, in any order: the
   * splitter hits, and the beams that go straight down; or the IndexError of a
   * short row.
   */
  method Scan(manifold: seq<string>, width: int, y: int, active: set<int>)
      returns (r: Result<(set<int>, set<int>), Error>)
    ensures r.Failure? <==> Raises(manifold, width, y, active)
    ensures r.Failure? ==> r.error == IndexOutOfRange
    ensures r.Success? ==> r.value == (Hits(manifold, width, y, active), Straight(manifold, width, y, active))
  {
    var height := |manifold|;
    var nextActive: set<int> := {};
    var splitEvents: set<int> := {};
    var todo := active;
    while todo != {}
      invariant todo <= active
      invariant !Raises(manifold, width, y, active - todo)
      invariant splitEvents == Hits(manifold, width, y, active - todo)
      invariant nextActive == Straight(manifold, width, y, active - todo)
      decreases todo
    {
      var x := Pick(todo);
      ghost var done := active - todo;
      todo := todo - {x};
      assert active - todo == done + {x};
      ScanAdd(manifold, width, y, done, x);
      if !(0 <= x < width && 0 <= y < height) {
        continue;
      }
      if x >= |manifold[y]| {
        assert Unreadable(manifold, width, y, x);
        return Failure(IndexOutOfRange);
      }
      var cell := manifold[y][x];
      if cell == '^' {
        splitEvents := splitEvents + {x};
      } else {
        var ny := y + 1;
        if ny < height {
          nextActive := nextActive + {x};
        }
      }
    }
    assert active - todo == active;
    return Success((splitEvents, nextActive));
  }

  /** The second loop of a step: the two beams leaving each splitter hit, added to `straight`. */
  method Branch(manifold: seq<string>, width: int, y: int, splitEvents: set<int>, straight: set<int>)
      returns (nextActive: set<int>)
    requires forall x | x in splitEvents :: 0 <= x < width
    ensures nextActive == straight + Branches(manifold, width, y, splitEvents)
  {
    var height := |manifold|;
    nextActive := straight;
    var todo := splitEvents;
    while todo != {}
      invariant todo <= splitEvents
      invariant nextActive == straight + Branches(manifold, width, y, splitEvents - todo)
      decreases todo
    {
      var x := Pick(todo);
      ghost var done := splitEvents - todo;
      todo := todo - {x};
      assert splitEvents - todo == done + {x};
      ghost var before := nextActive;
      var ny := y + 1;
      if ny < height {
        if x - 1 >= 0 {
          nextActive := nextActive + {x - 1};
        }
        if x + 1 < width {
          nextActive := nextActive + {x + 1};
        }
      }
      assert nextActive == before + (if ny < height && x - 1 >= 0 then {x - 1} else {})
                                  + (if ny < height && x + 1 < width then {x + 1} else {});
      BranchesAdd(manifold, width, y, done, x);
    }
    assert splitEvents - todo == splitEvents;
  }

  /** One pass of the `while active` body: the splitters hit and the next beams, or the IndexError. */
  method Step(manifold: seq<string>, width: int, y: int, active: set<int>) returns (r: Result<(nat, set<int>), Error>)
    ensures r.Failure? <==> Raises(manifold, width, y, active)
    ensures r.Failure? ==> r.error == IndexOutOfRange
    ensures r.Success? ==> r.value == (|Hits(manifold, width, y, active)|, Next(manifold, width, y, active))
  {
    var scanned := Scan(manifold, width, y, active);
    if scanned.Failure? {
      return Failure(scanned.error);
    }
    var (splitEvents, straight) := scanned.value;
    var nextActive := Branch(manifold, width, y, splitEvents, straight);
    return Success((|splitEvents|, nextActive));
  }

  /**
   * One pass of the `while active` loop of `solve_part_1`: the new count and
   * beams, or the IndexError of the row.
   */
  method PropagateRow(manifold: seq<string>, width: int, row: nat, active: set<int>, splits: nat)
    returns (r: Result<(nat, set<int>), Error>)
    requires active != {} && row < |manifold|
    ensures r.Failure? ==> Splits(manifold, width, row, active) == Failure(r.error)
    ensures r.Success? ==> r.value.1 != {} ==> row + 1 < |manifold|
    ensures r.Success? ==> Plus(splits, Splits(manifold, width, row, active))
                           == Plus(r.value.0, Splits(manifold, width, row + 1, r.value.1))
  {
    var stepped := Step(manifold, width, row, active);
    if stepped.Failure? {
      return Failure(stepped.error);
    }
    var (hits, nextActive) := stepped.value;
    SplitsStep(manifold, width, row, active);
    NextInBounds(manifold, width, row, active);
    PlusPlus(splits, hits, Splits(manifold, width, row + 1, nextActive));
    return Success((splits + hits, nextActive));
  }

  /** The `while active` loop of `solve_part_1`, from the beams of row `y` on. */
  method Propagate(manifold: seq<string>, width: int, y: nat, beams: set<int>) returns (r: Result<nat, Error>)
    requires beams != {} ==> y < |manifold|
    ensures r == Splits(manifold, width, y, beams)
  {
    var height := |manifold|;
    var active := beams;
    var row := y;
    var splits: nat := 0;
    PlusZero(Splits(manifold, width, y, beams));
    while active != {}
      invariant active != {} ==> row < height
      invariant Splits(manifold, width, y, beams) == Plus(splits, Splits(manifold, width, row, active))
      decreases height - row
    {
      var next := PropagateRow(manifold, width, row, active, splits);
      if next.Failure? {
        PlusFailure(splits, Splits(manifold, width, row, active));
        return Failure(next.error);
      }
      splits, active := next.value.0, next.value.1;
      row := row + 1;
    }
    SplitsNone(manifold, width, row);
    return Success(splits);
  }

  /** `solve_part_1`. */
  method SolvePart1(data: string) returns (r: Result<nat, Error>)
    ensures r == Part1(data)
  {
    var manifold := Lines(data);
    var height := |manifold|;
    var width := |manifold[0]|;
    var start := FindStart(manifold);
    if start.None? {
      return Failure(NoStartingPoint);
    }
    var (sx, sy) := start.value;
    var active: set<int> := {};
    if sy + 1 < height {
      active := {sx};
    }
    r := Propagate(manifold, width, sy + 1, active);
  }

  // ---------------------------------------------------------------------------
  // Part 2

  /** The sum of `counts` over `cells`. */
  ghost function Total<K>(counts: map<K, nat>, cells: set<K>): nat
    requires cells <= counts.Keys
    decreases cells
  {
    if cells == {} then 0
    else
      var k :| k in cells;
      counts[k] + Total(counts, cells - {k})
  }

  /** The sum does not depend on the order the cells are taken in. */
  lemma {:induction false} TotalRemove<K>(counts: map<K, nat>, cells: set<K>, k: K)
    requires cells <= counts.Keys && k in cells
    ensures Total(counts, cells) == counts[k] + Total(counts, cells - {k})
    decreases cells
  {
    var j :| j in cells && Total(counts, cells) == counts[j] + Total(counts, cells - {j});
    if j != k {
      TotalRemove(counts, cells - {j}, k);
      TotalRemove(counts, cells - {k}, j);
      assert cells - {j} - {k} == cells - {k} - {j};
    }
  }

  /** Cells holding at least one timeline each hold at least as many timelines as there are cells. */
  lemma {:induction false} TotalAtLeastSize<K>(counts: map<K, nat>, cells: set<K>)
    requires cells <= counts.Keys && forall k | k in cells :: counts[k] >= 1
    ensures Total(counts, cells) >= |cells|
    decreases cells
  {
    if cells != {} {
      var k :| k in cells && Total(counts, cells) == counts[k] + Total(counts, cells - {k});
      TotalAtLeastSize(counts, cells - {k});
    }
  }

  /**
   * The timelines the beams `done` of row `y` send to column `x` of the next
   * row: from a beam passing straight down in column `x`, and from splitters
   * right and left of `x`.
   */
  function Arriving(manifold: seq<string>, width: int, y: int, counts: Counts, done: set<int>, x: int): nat
    requires done <= counts.Keys
  {
    (if x in done && Passes(manifold, width, y, x) then counts[x] else 0)
    + (if x + 1 in done && Splitter(manifold, width, y, x + 1) then counts[x + 1] else 0)
    + (if x - 1 in done && Splitter(manifold, width, y, x - 1) then counts[x - 1] else 0)
  }

  /** `next_active` after the beams `done` of row `y`: timelines arriving at the same cell are added up. */
  function Spread(manifold: seq<string>, width: int, y: int, counts: Counts, done: set<int>): Counts
    requires done <= counts.Keys
  {
    map x | x in Next(manifold, width, y, done) :: Arriving(manifold, width, y, counts, done, x)
  }

  /** The timelines counted from the step at row `y` on, or the IndexError a step raises. */
  ghost function Timelines(manifold: seq<string>, width: int, y: nat, counts: Counts): (r: Result<nat, Error>)
    ensures r.Failure? ==> r.error == IndexOutOfRange
    decreases |manifold| - y
  {
    if counts.Keys == {} then Success(0)
    else if Raises(manifold, width, y, counts.Keys) then Failure(IndexOutOfRange)
    else if y >= |manifold| then Success(0)
    else
      Plus(Total(counts, Hits(manifold, width, y, counts.Keys)),
           Timelines(manifold, width, y + 1, Spread(manifold, width, y, counts, counts.Keys)))
  }

  /** The dictionary before the loop: one timeline below 'S', if there is a row below. */
  function FirstCounts(manifold: seq<string>, start: Pos): Counts
  {
    if start.1 + 1 < |manifold| then map[start.0 := 1] else map[]
  }

  /** What `solve_part_2` returns or raises. */
  ghost function Part2(data: string): Result<nat, Error>
  {
    var manifold := Lines(data);
    match StartOf(manifold)
    case None => Failure(NoneOperand)
    case Some(start) => Plus(1, Timelines(manifold, |manifold[0]|, start.1 + 1, FirstCounts(manifold, start)))
  }

  /** A column outside the next beams receives nothing. */
  lemma ArrivingOutside(manifold: seq<string>, width: int, y: int, counts: Counts, done: set<int>, x: int)
    requires done <= counts.Keys
    requires InBounds(manifold, width, y + 1, x) && x !in Next(manifold, width, y, done)
    ensures Arriving(manifold, width, y, counts, done, x) == 0
  {
    assert x + 1 in done && Splitter(manifold, width, y, x + 1) ==> x + 1 in Hits(manifold, width, y, done);
    assert x - 1 in done && Splitter(manifold, width, y, x - 1) ==> x - 1 in Hits(manifold, width, y, done);
  }

  /** Every next beam carries at least one timeline when every beam does. */
  lemma SpreadPositive(manifold: seq<string>, width: int, y: int, counts: Counts)
    requires forall x | x in counts :: counts[x] >= 1
    ensures forall x | x in Spread(manifold, width, y, counts, counts.Keys) :: Spread(manifold, width, y, counts, counts.Keys)[x] >= 1
  {
    var hits := Hits(manifold, width, y, counts.Keys);
    forall x | x in Next(manifold, width, y, counts.Keys)
      ensures Arriving(manifold, width, y, counts, counts.Keys, x) >= 1
    {
      if x !in Straight(manifold, width, y, counts.Keys) {
        assert x + 1 in hits || x - 1 in hits;
      }
    }
  }

  /** The one addition `x` makes to `next_active`: `next_active.get(x, 0) + count`. */
  function AddTo(next: Counts, x: int, count: nat): Counts
  {
    next[x := Get(next, x) + count]
  }

  /** The addition at column `x` made only when `add` holds: the bounds tests before the two additions at a splitter. */
  function AddIf(next: Counts, add: bool, x: int, count: nat): Counts
  {
    if add then AddTo(next, x, count) else next
  }

  /** `next_active.get(x, 0)`. */
  function Get(next: Counts, x: int): nat
  {
    if x in next then next[x] else 0
  }

  /** What the body of the `for` loop of part 2 adds to `next_active` for a beam at column `x` holding `count` timelines. */
  function Deliver(manifold: seq<string>, width: int, y: int, next: Counts, x: int, count: nat): Counts
  {
    if !InBounds(manifold, width, y, x) || x >= |manifold[y]| || y + 1 >= |manifold| then next
    else if manifold[y][x] == '^' then AddIf(AddIf(next, x - 1 >= 0, x - 1, count), x + 1 < width, x + 1, count)
    else AddTo(next, x, count)
  }

  /** The beam at column `x` of row `y` sends its timelines to column `k` of the next row. */
  predicate Feeds(manifold: seq<string>, width: int, y: int, x: int, k: int)
  {
    && y + 1 < |manifold|
    && ((k == x && Passes(manifold, width, y, x))
        || (k == x - 1 && k >= 0 && Splitter(manifold, width, y, x))
        || (k == x + 1 && k < width && Splitter(manifold, width, y, x)))
  }

  /** One more beam adds the columns it feeds to the next beams. */
  lemma NextAdd(manifold: seq<string>, width: int, y: int, done: set<int>, x: int, k: int)
    ensures k in Next(manifold, width, y, done + {x}) <==> k in Next(manifold, width, y, done) || Feeds(manifold, width, y, x, k)
  {
    ScanAdd(manifold, width, y, done, x);
    if Splitter(manifold, width, y, x) {
      BranchesAdd(manifold, width, y, Hits(manifold, width, y, done), x);
    } else {
      assert Hits(manifold, width, y, done + {x}) == Hits(manifold, width, y, done);
    }
  }

  /** One more beam adds its timelines to each in-bounds column it feeds. */
  lemma ArrivingAdd(manifold: seq<string>, width: int, y: int, counts: Counts, done: set<int>, x: int, k: int)
    requires done <= counts.Keys && x in counts && x !in done
    requires InBounds(manifold, width, y + 1, k)
    ensures Arriving(manifold, width, y, counts, done + {x}, k)
            == Arriving(manifold, width, y, counts, done, k) + (if Feeds(manifold, width, y, x, k) then counts[x] else 0)
  {
  }

  /** The loop body adds `count` to each column the beam feeds, and leaves the other entries alone. */
  lemma DeliverAt(manifold: seq<string>, width: int, y: int, next: Counts, x: int, count: nat, k: int)
    requires !Unreadable(manifold, width, y, x)
    ensures k in Deliver(manifold, width, y, next, x, count) <==> k in next || Feeds(manifold, width, y, x, k)
    ensures k in Deliver(manifold, width, y, next, x, count)
            ==> Deliver(manifold, width, y, next, x, count)[k]
                == (if k in next then next[k] else 0) + (if Feeds(manifold, width, y, x, k) then count else 0)
  {
  }

  /** Taking one more beam into `next_active` is exactly what the loop body does with it. */
  lemma SpreadAdd(manifold: seq<string>, width: int, y: int, counts: Counts, done: set<int>, x: int)
    requires done <= counts.Keys && x in counts && x !in done
    requires !Unreadable(manifold, width, y, x)
    ensures Spread(manifold, width, y, counts, done + {x})
            == Deliver(manifold, width, y, Spread(manifold, width, y, counts, done), x, counts[x])
  {
    var before := Spread(manifold, width, y, counts, done);
    var after := Spread(manifold, width, y, counts, done + {x});
    var delivered := Deliver(manifold, width, y, before, x, counts[x]);
    forall k ensures k in after <==> k in delivered {
      NextAdd(manifold, width, y, done, x, k);
      DeliverAt(manifold, width, y, before, x, counts[x], k);
    }
    forall k | k in after ensures after[k] == delivered[k] {
      NextAdd(manifold, width, y, done, x, k);
      DeliverAt(manifold, width, y, before, x, counts[x], k);
      NextInBounds(manifold, width, y, done + {x});
      ArrivingAdd(manifold, width, y, counts, done, x, k);
      if k !in before {
        ArrivingOutside(manifold, width, y, counts, done, k);
      }
    }
  }

  /** One step of the timeline count: the timelines at this row's splitters, then the count from the next row on. */
  lemma TimelinesStep(manifold: seq<string>, width: int, y: nat, counts: Counts)
    requires counts.Keys != {} && !Raises(manifold, width, y, counts.Keys) && y < |manifold|
    ensures Timelines(manifold, width, y, counts)
            == Plus(Total(counts, Hits(manifold, width, y, counts.Keys)),
                    Timelines(manifold, width, y + 1, Spread(manifold, width, y, counts, counts.Keys)))
  {
  }

  /**
   * Part 2 follows the same beams as part 1 and raises exactly when part 1
   * does; while every beam carries a timeline, every splitter hit adds at
   * least one timeline, so the timelines are at least the splits.
   */
  lemma {:induction false} TimelinesCoverSplits(manifold: seq<string>, width: int, y: nat, counts: Counts)
    requires forall x | x in counts :: counts[x] >= 1
    ensures Timelines(manifold, width, y, counts).Success? <==> Splits(manifold, width, y, counts.Keys).Success?
    ensures Timelines(manifold, width, y, counts).Success?
            ==> Timelines(manifold, width, y, counts).value >= Splits(manifold, width, y, counts.Keys).value
    decreases |manifold| - y
  {
    var beams := counts.Keys;
    if beams != {} && !Raises(manifold, width, y, beams) && y < |manifold| {
      var next := Spread(manifold, width, y, counts, beams);
      assert next.Keys == Next(manifold, width, y, beams);
      SpreadPositive(manifold, width, y, counts);
      TimelinesCoverSplits(manifold, width, y + 1, next);
      TotalAtLeastSize(counts, Hits(manifold, width, y, beams));
      TimelinesStep(manifold, width, y, counts);
      SplitsStep(manifold, width, y, beams);
    }
  }

  /** `solve_part_2` raises TypeError exactly when no row holds an 'S'. */
  lemma Part2NoStart(data: string)
    ensures Part2(data) == Failure(NoneOperand)
            <==> forall y | 0 <= y < |Lines(data)| :: 'S' !in Lines(data)[y]
  {
  }

  /** Both parts fail on the same manifolds; otherwise part 2 counts at least one timeline per split, plus the first. */
  lemma Part2CoversPart1(data: string)
    ensures Part2(data).Success? <==> Part1(data).Success?
    ensures Part2(data).Success? ==> Part2(data).value >= 1 + Part1(data).value
  {
    var manifold := Lines(data);
    if StartOf(manifold).Some? {
      var start := StartOf(manifold).value;
      var counts := FirstCounts(manifold, start);
      assert counts.Keys == FirstBeams(manifold, start);
      TimelinesCoverSplits(manifold, |manifold[0]|, start.1 + 1, counts);
    }
  }

  // ---------------------------------------------------------------------------
  // Part 2, path by path
  //
  // An independent account of part 2: the timelines are the ways a single
  // particle can go down from 'S', taking either side at every splitter, until
  // it leaves the manifold.

  /**
   * The ways down from a beam at column `x` of row `y`: one way once it is
   * outside the manifold; at a splitter, the ways from the cell left of it
   * plus those from the cell right of it, one row down; otherwise the ways
   * from the cell below.
   */
  function Paths(manifold: seq<string>, width: int, x: int, y: nat): (r: nat)
    ensures r >= 1
    decreases |manifold| - y
  {
    if !InBounds(manifold, width, y, x) then 1
    else if Splitter(manifold, width, y, x) then Paths(manifold, width, x - 1, y + 1) + Paths(manifold, width, x + 1, y + 1)
    else Paths(manifold, width, x, y + 1)
  }

  /** The splits ahead of one timeline at each column of row `y`. */
  function Ahead(manifold: seq<string>, width: int, y: nat): int -> nat
  {
    x => Paths(manifold, width, x, y) - 1
  }

  /** Each beam's timelines, times `f` of its column. */
  ghost function Scaled(counts: Counts, f: int -> nat): Counts
  {
    map x | x in counts :: counts[x] * f(x)
  }

  /** The timelines that the beams `counts` of row `y` will still add. */
  ghost function Weight(manifold: seq<string>, width: int, y: nat, counts: Counts): nat
  {
    Total(Scaled(counts, Ahead(manifold, width, y)), counts.Keys)
  }

  /** Sums over maps that agree on the cells are equal. */
  lemma {:induction false} TotalSame<K>(a: map<K, nat>, b: map<K, nat>, cells: set<K>)
    requires cells <= a.Keys && cells <= b.Keys
    requires forall k | k in cells :: a[k] == b[k]
    ensures Total(a, cells) == Total(b, cells)
    decreases cells
  {
    if cells != {} {
      var k := Member(cells);
      TotalRemove(a, cells, k);
      TotalRemove(b, cells, k);
      TotalSame(a, b, cells - {k});
    }
  }

  /** A sum of zeros is zero. */
  lemma {:induction false} TotalZero<K>(a: map<K, nat>, cells: set<K>)
    requires cells <= a.Keys
    requires forall k | k in cells :: a[k] == 0
    ensures Total(a, cells) == 0
    decreases cells
  {
    if cells != {} {
      var k := Member(cells);
      TotalRemove(a, cells, k);
      TotalZero(a, cells - {k});
    }
  }

  /** Below the last row no split is ahead. */
  lemma WeightBelow(manifold: seq<string>, width: int, y: nat, counts: Counts)
    requires y >= |manifold|
    ensures Weight(manifold, width, y, counts) == 0
  {
    TotalZero(Scaled(counts, Ahead(manifold, width, y)), counts.Keys);
  }

  /** A sum over a map changed at one key, by `d` more there, grows by `d`. */
  lemma TotalPoint<K>(a: map<K, nat>, b: map<K, nat>, k: K, d: nat)
    requires a.Keys == b.Keys + {k}
    requires forall j | j in b && j != k :: a[j] == b[j]
    requires a[k] == (if k in b then b[k] else 0) + d
    ensures Total(a, a.Keys) == Total(b, b.Keys) + d
  {
    TotalRemove(a, a.Keys, k);
    if k in b {
      TotalRemove(b, b.Keys, k);
      assert a.Keys - {k} == b.Keys - {k};
      TotalSame(a, b, b.Keys - {k});
    } else {
      assert a.Keys - {k} == b.Keys;
      TotalSame(a, b, b.Keys);
    }
  }

  lemma Distribute(a: nat, b: nat, p: nat)
    ensures (a + b) * p == a * p + b * p
  {
  }

  /** Timelines at a splitter: one more each, and the splits ahead on both sides. */
  lemma SplitShare(count: nat, left: nat, right: nat)
    ensures count + count * left + count * right == count * (1 + left + right)
  {
  }

  /** Adding `count` timelines to column `k` adds `count` times its factor. */
  lemma ScaledAddTo(next: Counts, k: int, count: nat, f: int -> nat)
    ensures Total(Scaled(AddTo(next, k, count), f), AddTo(next, k, count).Keys)
            == Total(Scaled(next, f), next.Keys) + count * f(k)
  {
    var after := AddTo(next, k, count);
    var a := Scaled(after, f);
    var b := Scaled(next, f);
    assert a[k] == (Get(next, k) + count) * f(k);
    Distribute(Get(next, k), count, f(k));
    TotalPoint(a, b, k, count * f(k));
    assert a.Keys == after.Keys && b.Keys == next.Keys;
  }

  /** One step of the ways down, as splits ahead. */
  lemma AheadStep(manifold: seq<string>, width: int, x: int, y: nat)
    ensures !InBounds(manifold, width, y, x) ==> Ahead(manifold, width, y)(x) == 0
    ensures Splitter(manifold, width, y, x)
            ==> Ahead(manifold, width, y)(x) == 1 + Ahead(manifold, width, y + 1)(x - 1) + Ahead(manifold, width, y + 1)(x + 1)
    ensures InBounds(manifold, width, y, x) && !Splitter(manifold, width, y, x)
            ==> Ahead(manifold, width, y)(x) == Ahead(manifold, width, y + 1)(x)
  {
  }

  /** An addition made only when `add` holds adds `count` times the factor only then. */
  lemma ScaledAddIf(next: Counts, add: bool, k: int, count: nat, f: int -> nat)
    ensures Total(Scaled(AddIf(next, add, k, count), f), AddIf(next, add, k, count).Keys)
            == Total(Scaled(next, f), next.Keys) + (if add then count * f(k) else 0)
  {
    if add {
      ScaledAddTo(next, k, count, f);
    }
  }

  /** A splitter with a row below sends its timelines to the in-bounds columns beside it. */
  lemma ScaledSplit(manifold: seq<string>, width: int, y: nat, next: Counts, x: int, count: nat, f: int -> nat)
    requires Splitter(manifold, width, y, x) && y + 1 < |manifold|
    ensures Total(Scaled(Deliver(manifold, width, y, next, x, count), f), Deliver(manifold, width, y, next, x, count).Keys)
            == Total(Scaled(next, f), next.Keys)
               + (if x - 1 >= 0 then count * f(x - 1) else 0) + (if x + 1 < width then count * f(x + 1) else 0)
  {
    ScaledAddIf(next, x - 1 >= 0, x - 1, count, f);
    ScaledAddIf(AddIf(next, x - 1 >= 0, x - 1, count), x + 1 < width, x + 1, count, f);
  }

  /**
   * What one beam's delivery does to a sum scaled by `f`, the factor of the
   * next row: with `here` the factor the beam's cell gets from `f` (one more
   * than both sides at a splitter, the cell below otherwise, nothing outside
   * or on the last row), the timelines added now and the scaled sum sent down
   * make up `count * here`.
   */
  lemma ScaledDeliver(manifold: seq<string>, width: int, y: nat, next: Counts, x: int, count: nat, f: int -> nat, here: nat)
    requires !Unreadable(manifold, width, y, x)
    requires here == if Splitter(manifold, width, y, x)
                     then 1 + (if x - 1 >= 0 && y + 1 < |manifold| then f(x - 1) else 0)
                            + (if x + 1 < width && y + 1 < |manifold| then f(x + 1) else 0)
                     else if InBounds(manifold, width, y, x) && y + 1 < |manifold| then f(x)
                     else 0
    ensures Total(Scaled(Deliver(manifold, width, y, next, x, count), f), Deliver(manifold, width, y, next, x, count).Keys)
            + (if Splitter(manifold, width, y, x) then count else 0)
            == Total(Scaled(next, f), next.Keys) + count * here
  {
    if Splitter(manifold, width, y, x) {
      var left := if x - 1 >= 0 && y + 1 < |manifold| then f(x - 1) else 0;
      var right := if x + 1 < width && y + 1 < |manifold| then f(x + 1) else 0;
      if y + 1 < |manifold| {
        ScaledSplit(manifold, width, y, next, x, count, f);
      }
      SplitShare(count, left, right);
    } else if InBounds(manifold, width, y, x) && y + 1 < |manifold| {
      ScaledAddTo(next, x, count, f);
    }
  }

  /** The beam at column `x` of row `y` hands on its timelines: what it adds now and what it sends down make up its splits ahead. */
  lemma WeightDeliver(manifold: seq<string>, width: int, y: nat, next: Counts, x: int, count: nat)
    requires !Unreadable(manifold, width, y, x)
    ensures Weight(manifold, width, y + 1, Deliver(manifold, width, y, next, x, count))
            + (if Splitter(manifold, width, y, x) then count else 0)
            == Weight(manifold, width, y + 1, next) + count * Ahead(manifold, width, y)(x)
  {
    AheadStep(manifold, width, x, y);
    AheadStep(manifold, width, x - 1, y + 1);
    AheadStep(manifold, width, x + 1, y + 1);
    AheadStep(manifold, width, x, y + 1);
    ScaledDeliver(manifold, width, y, next, x, count, Ahead(manifold, width, y + 1), Ahead(manifold, width, y)(x));
  }

  /**
   * The beams `done` of row `y`, taken one by one as the loop takes them:
   * the timelines they add at splitters, plus the splits ahead of what they
   * send down, are the splits ahead of them.
   */
  lemma {:induction false} StepWeight(manifold: seq<string>, width: int, y: nat, counts: Counts, done: set<int>)
    requires done <= counts.Keys && !Raises(manifold, width, y, done)
    ensures Total(counts, Hits(manifold, width, y, done))
            + Weight(manifold, width, y + 1, Spread(manifold, width, y, counts, done))
            == Total(Scaled(counts, Ahead(manifold, width, y)), done)
    decreases done
  {
    if done == {} {
      assert Hits(manifold, width, y, done) == {};
      assert Spread(manifold, width, y, counts, done) == map[];
    } else {
      var x := Member(done);
      var rest := done - {x};
      assert rest + {x} == done;
      assert !Unreadable(manifold, width, y, x);
      StepWeight(manifold, width, y, counts, rest);
      SpreadAdd(manifold, width, y, counts, rest, x);
      HitsTotalAdd(manifold, width, y, counts, rest, x);
      WeightDeliver(manifold, width, y, Spread(manifold, width, y, counts, rest), x, counts[x]);
      TotalRemove(Scaled(counts, Ahead(manifold, width, y)), done, x);
    }
  }

  /** On a manifold with no short row, the timelines counted from row `y` on are the splits ahead of its beams. */
  lemma {:induction false} TimelinesWeight(manifold: seq<string>, width: int, y: nat, counts: Counts)
    requires Wide(manifold, width)
    ensures Timelines(manifold, width, y, counts) == Success(Weight(manifold, width, y, counts))
    decreases |manifold| - y
  {
    if counts.Keys == {} {
    } else if y >= |manifold| {
      WeightBelow(manifold, width, y, counts);
    } else {
      WideNeverRaises(manifold, width, y, counts.Keys);
      var next := Spread(manifold, width, y, counts, counts.Keys);
      TimelinesStep(manifold, width, y, counts);
      TimelinesWeight(manifold, width, y + 1, next);
      StepWeight(manifold, width, y, counts, counts.Keys);
      PlusSuccess(Timelines(manifold, width, y, counts), Total(counts, Hits(manifold, width, y, counts.Keys)),
                  Timelines(manifold, width, y + 1, next), Weight(manifold, width, y + 1, next), Weight(manifold, width, y, counts));
    }
  }

  /**
   * On a manifold with no row shorter than the first, `solve_part_2` counts
   * the ways down from the cell below 'S': the distinct timelines.
   */
  lemma Part2CountsPaths(data: string)
    requires Wide(Lines(data), |Lines(data)[0]|) && StartOf(Lines(data)).Some?
    ensures Part2(data) == Success(Paths(Lines(data), |Lines(data)[0]|, StartOf(Lines(data)).value.0,
                                         StartOf(Lines(data)).value.1 + 1))
  {
    var manifold := Lines(data);
    var width := |manifold[0]|;
    var start := StartOf(manifold).value;
    var counts := FirstCounts(manifold, start);
    TimelinesWeight(manifold, width, start.1 + 1, counts);
    FirstWeight(manifold, width, start);
    PlusSuccess(Part2(data), 1, Timelines(manifold, width, start.1 + 1, counts), Weight(manifold, width, start.1 + 1, counts),
                Paths(manifold, width, start.0, start.1 + 1));
  }

  /** The single timeline below 'S' has as many splits ahead as there are ways down from there, less one. */
  lemma FirstWeight(manifold: seq<string>, width: int, start: Pos)
    requires start.1 >= 0
    ensures 1 + Weight(manifold, width, start.1 + 1, FirstCounts(manifold, start)) == Paths(manifold, width, start.0, start.1 + 1)
  {
    var f := Ahead(manifold, width, start.1 + 1);
    if start.1 + 1 < |manifold| {
      var counts := map[start.0 := 1];
      TotalRemove(Scaled(counts, f), counts.Keys, start.0);
      assert counts.Keys - {start.0} == {};
    } else {
      WeightBelow(manifold, width, start.1 + 1, map[]);
    }
  }

  // ---------------------------------------------------------------------------
  // Part 2, as the solver runs it

  /** One more beam adds its timelines to the total exactly when it hits a splitter. */
  lemma HitsTotalAdd(manifold: seq<string>, width: int, y: int, counts: Counts, done: set<int>, x: int)
    requires done <= counts.Keys && x in counts && x !in done
    ensures Total(counts, Hits(manifold, width, y, done + {x}))
            == Total(counts, Hits(manifold, width, y, done)) + (if Splitter(manifold, width, y, x) then counts[x] else 0)
  {
    ScanAdd(manifold, width, y, done, x);
    if Splitter(manifold, width, y, x) {
      TotalRemove(counts, Hits(manifold, width, y, done + {x}), x);
      assert Hits(manifold, width, y, done + {x}) - {x} == Hits(manifold, width, y, done);
    } else {
      assert Hits(manifold, width, y, done + {x}) == Hits(manifold, width, y, done);
    }
  }

  /**
   * The body of the `for` loop of `solve_part_2` for the beam at column `x`
   * holding `count` timelines: the timelines grown at a splitter and the
   * timelines delivered to the next row, or the IndexError of a short row.
   */
  method Visit(manifold: seq<string>, width: int, y: int, x: int, count: nat, nextActive: Counts, timelines: nat)
      returns (r: Result<(nat, Counts), Error>)
    ensures r.Failure? <==> Unreadable(manifold, width, y, x)
    ensures r.Failure? ==> r.error == IndexOutOfRange
    ensures r.Success? ==> r.value == (timelines + (if Splitter(manifold, width, y, x) then count else 0),
                                       Deliver(manifold, width, y, nextActive, x, count))
  {
    var height := |manifold|;
    if !(0 <= x < width && 0 <= y < height) {
      return Success((timelines, nextActive));
    }
    if x >= |manifold[y]| {
      return Failure(IndexOutOfRange);
    }
    var next := nextActive;
    var total := timelines;
    var cell := manifold[y][x];
    if cell == '^' {
      total := total + count;
      var ny := y + 1;
      if ny < height {
        if x - 1 >= 0 {
          next := next[x - 1 := Get(next, x - 1) + count];
        }
        if x + 1 < width {
          next := next[x + 1 := Get(next, x + 1) + count];
        }
      }
    } else {
      var ny := y + 1;
      if ny < height {
        next := next[x := Get(next, x) + count];
      }
    }
    return Success((total, next));
  }

  /**
   * One pass of the `while active` body of `solve_part_2` over the beams of
   * row `y`, in any order: `timelines` grown by the timelines at splitters,
   * and `next_active`; or the IndexError of a short row.
   */
  method StepTimelines(manifold: seq<string>, width: int, y: int, active: Counts, timelines: nat)
      returns (r: Result<(nat, Counts), Error>)
    ensures r.Failure? <==> Raises(manifold, width, y, active.Keys)
    ensures r.Failure? ==> r.error == IndexOutOfRange
    ensures r.Success? ==> r.value == (timelines + Total(active, Hits(manifold, width, y, active.Keys)),
                                       Spread(manifold, width, y, active, active.Keys))
  {
    var nextActive: Counts := map[];
    var total := timelines;
    var todo := active.Keys;
    while todo != {}
      invariant todo <= active.Keys
      invariant !Raises(manifold, width, y, active.Keys - todo)
      invariant nextActive == Spread(manifold, width, y, active, active.Keys - todo)
      invariant total == timelines + Total(active, Hits(manifold, width, y, active.Keys - todo))
      decreases todo
    {
      var x := Pick(todo);
      ghost var done := active.Keys - todo;
      todo := todo - {x};
      assert active.Keys - todo == done + {x};
      ScanAdd(manifold, width, y, done, x);
      var visited := Visit(manifold, width, y, x, active[x], nextActive, total);
      if visited.Failure? {
        return Failure(visited.error);
      }
      SpreadAdd(manifold, width, y, active, done, x);
      HitsTotalAdd(manifold, width, y, active, done, x);
      total, nextActive := visited.value.0, visited.value.1;
    }
    assert active.Keys - todo == active.Keys;
    return Success((total, nextActive));
  }

  /** The `while active` loop of `solve_part_2`, from the beams of row `y` on, with `timelines` counted so far. */
  method Flow(manifold: seq<string>, width: int, y: nat, counts: Counts, timelines: nat) returns (r: Result<nat, Error>)
    requires counts != map[] ==> y < |manifold|
    ensures r == Plus(timelines, Timelines(manifold, width, y, counts))
  {
    var height := |manifold|;
    var active := counts;
    var row := y;
    var total := timelines;
    while active != map[]
      invariant active != map[] ==> row < height
      invariant Plus(timelines, Timelines(manifold, width, y, counts)) == Plus(total, Timelines(manifold, width, row, active))
      decreases height - row
    {
      assert active.Keys != {};
      var stepped := StepTimelines(manifold, width, row, active, total);
      if stepped.Failure? {
        assert Timelines(manifold, width, row, active) == Failure(IndexOutOfRange);
        return Failure(stepped.error);
      }
      var (grown, nextActive) := stepped.value;
      TimelinesStep(manifold, width, row, active);
      NextInBounds(manifold, width, row, active.Keys);
      assert nextActive.Keys == Next(manifold, width, row, active.Keys);
      PlusPlus(total, grown - total, Timelines(manifold, width, row + 1, nextActive));
      total := grown;
      active := nextActive;
      row := row + 1;
    }
    assert active.Keys == {};
    assert Timelines(manifold, width, row, active) == Success(0);
    return Success(total);
  }

  /** `solve_part_2`. */
  method SolvePart2(data: string) returns (r: Result<nat, Error>)
    ensures r == Part2(data)
  {
    var manifold := Lines(data);
    var height := |manifold|;
    var width := |manifold[0]|;
    var start := FindStart(manifold);
    if start.None? {
      return Failure(NoneOperand);
    }
    var (sx, sy) := start.value;
    var active: Counts := if sy + 1 < height then map[sx := 1] else map[];
    var timelines := 1;
    r := Flow(manifold, width, sy + 1, active, timelines);
  }
}
