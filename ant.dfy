/** Langton's Ant: a position (row, col) and a heading on a toroidal board.
    One step reads the cell under the ant, turns left on black or right on white,
    paints the cell the other colour and then moves one cell along the new heading,
    wrapping at the edges. */
module Ant {
  import opened Grid

  /** The four headings, in the cyclic order of the enumerators' values 0..3. */
  datatype Direction = UP | RIGHT | DOWN | LEFT

  /** The numeric value the enumeration gives a heading. */
  function Ordinal(d: Direction): (k: nat)
    ensures k < 4
  {
    match d
    case UP => 0
    case RIGHT => 1
    case DOWN => 2
    case LEFT => 3
  }

  /** The heading a `static_cast<Direction>` of k yields. */
  function FromOrdinal(k: nat): (d: Direction)
    requires k < 4
    ensures Ordinal(d) == k
  {
    if k == 0 then UP else if k == 1 then RIGHT else if k == 2 then DOWN else LEFT
  }

  /** The numbering of headings is a bijection onto 0..3. */
  lemma OrdinalRoundTrip(d: Direction, k: nat)
    requires k < 4
    ensures FromOrdinal(Ordinal(d)) == d
    ensures Ordinal(FromOrdinal(k)) == k
  {
  }

  /** A quarter turn clockwise, computed as (dir + 1) % 4:
      UP -> RIGHT -> DOWN -> LEFT -> UP. */
  function RightOf(d: Direction): (r: Direction)
    ensures d == UP ==> r == RIGHT
    ensures d == RIGHT ==> r == DOWN
    ensures d == DOWN ==> r == LEFT
    ensures d == LEFT ==> r == UP
  {
    FromOrdinal((Ordinal(d) + 1) % 4)
  }

  /** A quarter turn counter-clockwise, computed as (dir + 3) % 4:
      UP -> LEFT -> DOWN -> RIGHT -> UP. */
  function LeftOf(d: Direction): (r: Direction)
    ensures d == UP ==> r == LEFT
    ensures d == LEFT ==> r == DOWN
    ensures d == DOWN ==> r == RIGHT
    ensures d == RIGHT ==> r == UP
  {
    FromOrdinal((Ordinal(d) + 3) % 4)
  }

  /** Four right turns bring the ant back to its heading. */
  lemma FourRightTurns(d: Direction)
    ensures RightOf(RightOf(RightOf(RightOf(d)))) == d
  {
  }

  /** A left turn undoes a right turn, and a right turn undoes a left turn. */
  lemma LeftUndoesRight(d: Direction)
    ensures LeftOf(RightOf(d)) == d
    ensures RightOf(LeftOf(d)) == d
  {
  }

  /** The reverse heading: two quarter turns. */
  function Opposite(d: Direction): Direction {
    RightOf(RightOf(d))
  }

  /** C++'s `%` on int for a positive divisor: the quotient is truncated toward
      zero, so a negative dividend leaves a remainder in (-n, 0]. */
  function CppRem(a: int, n: int): (r: int)
    requires n > 0
    ensures a >= 0 ==> r == a % n
    ensures a < 0 ==> -n < r <= 0
  {
    if a >= 0 then a % n else -((-a) % n)
  }

  /** Row offset of one move along the heading (rows grow downwards). */
  function RowDelta(d: Direction): int {
    match d
    case UP => -1
    case DOWN => 1
    case _ => 0
  }

  /** Column offset of one move along the heading (columns grow to the right). */
  function ColDelta(d: Direction): int {
    match d
    case LEFT => -1
    case RIGHT => 1
    case _ => 0
  }

  /** Where MoveForward takes an ant at (row, col) heading d on a board whose
      size is gridSize: only the coordinate along the heading changes, and from
      a cell of the board the ant stays on the board. */
  function Forward(d: Direction, row: int, col: int, gridSize: int): (p: (int, int))
    requires gridSize > 0
    ensures d == UP || d == DOWN ==> p.1 == col
    ensures d == LEFT || d == RIGHT ==> p.0 == row
    ensures (d == UP || d == DOWN) && row >= 0 ==> 0 <= p.0 < gridSize
    ensures (d == LEFT || d == RIGHT) && col >= 0 ==> 0 <= p.1 < gridSize
    ensures 0 <= row < gridSize && 0 <= col < gridSize ==>
      0 <= p.0 < gridSize && 0 <= p.1 < gridSize
  {
    match d
    case UP => (CppRem(row - 1 + gridSize, gridSize), col)
    case DOWN => (CppRem(row + 1, gridSize), col)
    case LEFT => (row, CppRem(col - 1 + gridSize, gridSize))
    case RIGHT => (row, CppRem(col + 1, gridSize))
  }

  lemma ModSmall(x: int, n: int)
    requires 0 <= x < n
    ensures x % n == x
  {
  }

  lemma ModAbove(x: int, n: int)
    requires n <= x < 2 * n
    ensures x % n == x - n
  {
  }

  lemma ModBelow(x: int, n: int)
    requires n > 0 && -n <= x < 0
    ensures x % n == x + n
  {
  }

  /** From a cell of an n-by-n board, MoveForward reaches the neighbouring cell on
      the torus: the coordinate along the heading moves by one, modulo n, and the
      other stays. */
  lemma ForwardIsTorusNeighbour(d: Direction, row: int, col: int, n: int)
    requires 0 <= row < n && 0 <= col < n
    ensures Forward(d, row, col, n) == ((row + RowDelta(d)) % n, (col + ColDelta(d)) % n)
  {
    ModSmall(row, n);
    ModSmall(col, n);
    match d
    case UP =>
      if row == 0 { ModSmall(n - 1, n); ModBelow(-1, n); } else { ModAbove(row - 1 + n, n); ModSmall(row - 1, n); }
    case DOWN =>
      if row == n - 1 { ModAbove(n, n); } else { ModSmall(row + 1, n); }
    case LEFT =>
      if col == 0 { ModSmall(n - 1, n); ModBelow(-1, n); } else { ModAbove(col - 1 + n, n); ModSmall(col - 1, n); }
    case RIGHT =>
      if col == n - 1 { ModAbove(n, n); } else { ModSmall(col + 1, n); }
  }

  /** Moving UP from the top row lands on the bottom row. */
  lemma UpFromTopRowWraps(col: int, n: int)
    requires n > 0
    ensures Forward(UP, 0, col, n) == (n - 1, col)
  {
  }

  /** Moving RIGHT from the last column lands on the first column. */
  lemma RightFromLastColumnWraps(row: int, n: int)
    requires n > 0
    ensures Forward(RIGHT, row, n - 1, n) == (row, 0)
  {
  }

  /** Moving along the opposite heading returns the ant to where it was. */
  lemma ForwardThenBack(d: Direction, row: int, col: int, n: int)
    requires 0 <= row < n && 0 <= col < n
    ensures Forward(Opposite(d), Forward(d, row, col, n).0, Forward(d, row, col, n).1, n) == (row, col)
  {
    var p := Forward(d, row, col, n);
    ForwardIsTorusNeighbour(d, row, col, n);
    ForwardIsTorusNeighbour(Opposite(d), p.0, p.1, n);
    ModSmall(row, n);
    ModSmall(col, n);
    match d
    case UP =>
      if row == 0 { ModBelow(-1, n); ModAbove(n, n); } else { ModSmall(row - 1, n); }
    case DOWN =>
      if row == n - 1 { ModAbove(n, n); ModBelow(-1, n); } else { ModSmall(row + 1, n); }
    case LEFT =>
      if col == 0 { ModBelow(-1, n); ModAbove(n, n); } else { ModSmall(col - 1, n); }
    case RIGHT =>
      if col == n - 1 { ModAbove(n, n); ModBelow(-1, n); } else { ModSmall(col + 1, n); }
  }

  /** The whole state of an ant: nothing but these three fields enters a step. */
  datatype AntState = AntState(row: int, col: int, dir: Direction)

  /** A board together with the ant walking on it. */
  datatype World = World(cells: Cells, ant: AntState)

  /** The ant stands on a cell of the board. */
  predicate AntOnBoard(w: World) {
    InBounds(w.cells, w.ant.row, w.ant.col)
  }

  /** All rows have one length, at least the number of rows; a square board is one. */
  predicate NoTallerThanWide(c: Cells) {
    forall i, j :: 0 <= i < |c| && 0 <= j < |c| ==> |c[i]| == |c[j]| >= |c|
  }

  /** One LangtonsAnt::Step: read the cell, turn (left on black, right on white),
      paint the cell, then move along the new heading; the wrap uses the number
      of rows for both coordinates, so the ant is kept on every board whose rows
      all have one length, at least the number of rows; square boards are such. */
  function StepWorld(w: World): (r: World)
    requires AntOnBoard(w)
    ensures r.cells == Flipped(w.cells, w.ant.row, w.ant.col)
    ensures NoTallerThanWide(w.cells) ==> AntOnBoard(r)
    ensures IsSquare(w.cells, |w.cells|) ==> AntOnBoard(r)
  {
    var a := w.ant;
    var cell := w.cells[a.row][a.col];
    var dir := if cell then LeftOf(a.dir) else RightOf(a.dir);
    var cells := if cell then Painted(w.cells, a.row, a.col, false)
                 else Painted(w.cells, a.row, a.col, true);
    var p := Forward(dir, a.row, a.col, |w.cells|);
    assert NoTallerThanWide(w.cells) ==> |cells[p.0]| == |w.cells[p.0]| == |w.cells[a.row]| >= |w.cells|;
    World(cells, AntState(p.0, p.1, dir))
  }

  /** On a white cell the ant turns right, blackens the cell and moves along its new heading. */
  lemma StepOnWhite(w: World)
    requires AntOnBoard(w) && !w.cells[w.ant.row][w.ant.col]
    ensures StepWorld(w).cells[w.ant.row][w.ant.col]
    ensures StepWorld(w).ant.dir == RightOf(w.ant.dir)
    ensures (StepWorld(w).ant.row, StepWorld(w).ant.col)
         == Forward(RightOf(w.ant.dir), w.ant.row, w.ant.col, |w.cells|)
  {
  }

  /** On a black cell the ant turns left, whitens the cell and moves along its new heading. */
  lemma StepOnBlack(w: World)
    requires AntOnBoard(w) && w.cells[w.ant.row][w.ant.col]
    ensures !StepWorld(w).cells[w.ant.row][w.ant.col]
    ensures StepWorld(w).ant.dir == LeftOf(w.ant.dir)
    ensures (StepWorld(w).ant.row, StepWorld(w).ant.col)
         == Forward(LeftOf(w.ant.dir), w.ant.row, w.ant.col, |w.cells|)
  {
  }

  /** A step negates the cell under the ant and no other, and keeps the board's shape. */
  lemma StepChangesExactlyOneCell(w: World)
    requires AntOnBoard(w)
    ensures SameShape(w.cells, StepWorld(w).cells)
    ensures forall i, j :: InBounds(w.cells, i, j) ==>
      (StepWorld(w).cells[i][j] != w.cells[i][j] <==> i == w.ant.row && j == w.ant.col)
  {
  }

  /** The move uses the heading after the turn: facing UP on a white cell, the ant
      ends facing RIGHT one column to the right, on the same row. */
  lemma MoveUsesNewHeading(w: World, n: int)
    requires IsSquare(w.cells, n) && AntOnBoard(w)
    requires w.ant.dir == UP && !w.cells[w.ant.row][w.ant.col]
    ensures StepWorld(w).ant == AntState(w.ant.row, (w.ant.col + 1) % n, RIGHT)
  {
  }

  /** Because the column wrap uses the number of rows, a board with fewer columns
      than rows can lose the ant: on a white 3-by-2 board, from (0, 1) facing UP
      the ant turns RIGHT and lands in column 2, which does not exist. */
  lemma NarrowBoardLosesAnt()
    ensures var w := World([[false, false], [false, false], [false, false]], AntState(0, 1, UP));
            && AntOnBoard(w)
            && StepWorld(w).ant == AntState(0, 2, RIGHT)
            && !AntOnBoard(StepWorld(w))
  {
  }

  /** The first two steps from the centre of a white 3-by-3 board facing UP:
      (1, 1) UP, then (1, 2) RIGHT, then (2, 2) DOWN, with both visited cells black. */
  lemma TwoStepsFromCentreOfThree()
    ensures var w1 := StepWorld(World(Blank(3), AntState(1, 1, UP)));
            && w1.ant == AntState(1, 2, RIGHT)
            && w1.cells[1][1]
            && AntOnBoard(w1)
            && var w2 := StepWorld(w1);
               && w2.ant == AntState(2, 2, DOWN)
               && w2.cells[1][1] && w2.cells[1][2]
  {
  }

  /** The ant object: row, col and dir are its only state. */
  class LangtonsAnt {
    var row: int
    var col: int
    var dir: Direction

    /** The value of this ant's fields. */
    function State(): AntState
      reads this
    {
      AntState(row, col, dir)
    }

    /** A new ant stands at (startRow, startCol) facing UP. */
    constructor (startRow: int, startCol: int)
      ensures row == startRow && col == startCol && dir == UP
    {
      row := startRow;
      col := startCol;
      dir := UP;
    }

    method TurnRight()
      modifies this`dir
      ensures dir == RightOf(old(dir))
    {
      dir := FromOrdinal((Ordinal(dir) + 1) % 4);
    }

    method TurnLeft()
      modifies this`dir
      ensures dir == LeftOf(old(dir))
    {
      dir := FromOrdinal((Ordinal(dir) + 3) % 4);
    }

    /** Moves one cell along the current heading, wrapping modulo gridSize. */
    method MoveForward(gridSize: int)
      requires gridSize > 0
      modifies this`row, this`col
      ensures (row, col) == Forward(dir, old(row), old(col), gridSize)
    {
      match dir
      case UP => row := CppRem(row - 1 + gridSize, gridSize);
      case DOWN => row := CppRem(row + 1, gridSize);
      case LEFT => col := CppRem(col - 1 + gridSize, gridSize);
      case RIGHT => col := CppRem(col + 1, gridSize);
    }

    /** One step on the caller's board, updated in place. */
    method Step(grid: array2<bool>)
      requires 0 <= row < grid.Length0 && 0 <= col < grid.Length1
      modifies this, grid
      ensures World(CellsOf(grid), State()) == StepWorld(old(World(CellsOf(grid), State())))
    {
      ghost var w := World(CellsOf(grid), State());
      var cell := grid[row, col];
      if cell {
        TurnLeft();
        grid[row, col] := false;
      } else {
        TurnRight();
        grid[row, col] := true;
      }
      ghost var painted := Painted(w.cells, w.ant.row, w.ant.col, !cell);
      assert CellsOf(grid) == painted by {
        var c := CellsOf(grid);
        forall i | 0 <= i < grid.Length0
          ensures c[i] == painted[i]
        {
          forall j | 0 <= j < grid.Length1
            ensures c[i][j] == painted[i][j]
          {
            assert InBounds(w.cells, i, j);
          }
        }
      }
      MoveForward(grid.Length0);
    }
  }
}
