/** The board owner: an n-by-n board created white with the ant at its centre,
    stepped by delegating to the ant, cleared back to that initial state, and
    edited by toggling one clicked cell. n is the configured grid size, which
    the settings dialog keeps between 1 and 100. */
module Panel {
  import opened Grid
  import opened Ant

  /** A board of n-by-n cells with the ant standing on one of them. */
  predicate WellFormed(w: World, n: int) {
    n >= 1 && IsSquare(w.cells, n) && 0 <= w.ant.row < n && 0 <= w.ant.col < n
  }

  /** The state a new panel starts in: a white n-by-n board and an ant at
      (n / 2, n / 2) facing UP. */
  function Initial(n: nat): (w: World)
    ensures IsSquare(w.cells, n)
    ensures forall i, j :: InBounds(w.cells, i, j) ==> !w.cells[i][j]
    ensures w.ant == AntState(n / 2, n / 2, UP)
  {
    World(Blank(n), AntState(n / 2, n / 2, UP))
  }

  /** The initial state is well formed for every size n >= 1: the centre n / 2 lies below n. */
  lemma InitialWellFormed(n: nat)
    requires n >= 1
    ensures WellFormed(Initial(n), n)
    ensures forall i, j :: InBounds(Initial(n).cells, i, j) ==> !Initial(n).cells[i][j]
  {
  }

  /** ClearGrid: every row filled with white, and a fresh ant at the centre of the
      configured size n, facing UP. */
  function Cleared(w: World, n: int): (v: World)
    ensures SameShape(w.cells, v.cells)
    ensures forall i, j :: InBounds(v.cells, i, j) ==> !v.cells[i][j]
    ensures v.ant == AntState(n / 2, n / 2, UP)
  {
    World(Whitened(w.cells), AntState(n / 2, n / 2, UP))
  }

  /** Clearing an n-by-n board yields the initial state, whatever the ant did before. */
  lemma ClearedIsInitial(w: World, n: nat)
    requires IsSquare(w.cells, n)
    ensures Cleared(w, n) == Initial(n)
  {
  }

  /** Clearing twice is the same as clearing once. */
  lemma ClearIdempotent(w: World, n: int)
    ensures Cleared(Cleared(w, n), n) == Cleared(w, n)
  {
  }

  /** The cell toggle of a mouse click at cell (r, k) of a board of configured size n:
      inside the board that one cell is negated, outside nothing changes. */
  function Toggled(w: World, n: int, r: int, k: int): (v: World)
    requires IsSquare(w.cells, n)
    ensures v.ant == w.ant
    ensures SameShape(w.cells, v.cells)
    ensures forall i, j :: InBounds(w.cells, i, j) ==>
      (v.cells[i][j] <==> (if i == r && j == k then !w.cells[i][j] else w.cells[i][j]))
  {
    if r >= 0 && r < n && k >= 0 && k < n then World(Flipped(w.cells, r, k), w.ant) else w
  }

  /** A click outside the board changes nothing. */
  lemma ToggleOutsideIsNoop(w: World, n: int, r: int, k: int)
    requires IsSquare(w.cells, n)
    requires !(0 <= r < n && 0 <= k < n)
    ensures Toggled(w, n, r, k) == w
  {
  }

  /** Clicking the same cell twice restores the board. */
  lemma ToggleTwice(w: World, n: int, r: int, k: int)
    requires IsSquare(w.cells, n)
    ensures Toggled(Toggled(w, n, r, k), n, r, k) == w
  {
    if 0 <= r < n && 0 <= k < n {
      FlipTwice(w.cells, r, k);
    }
  }

  /** What the user can do to the panel: a step (toolbar or timer), a clear, a click on a cell. */
  datatype Event = StepEvent | ClearEvent | ClickEvent(row: int, col: int)

  /** The panel's reaction to one event; it keeps the board n-by-n and the ant on it. */
  function Apply(w: World, n: int, e: Event): (v: World)
    requires WellFormed(w, n)
    ensures WellFormed(v, n)
  {
    match e
    case StepEvent => StepWorld(w)
    case ClearEvent => ClearedIsInitial(w, n); Cleared(w, n)
    case ClickEvent(r, k) => Toggled(w, n, r, k)
  }

  /** The state after a whole sequence of events: every sequence of steps, clears
      and clicks keeps the board n-by-n and the ant on it. */
  function Run(w: World, n: int, events: seq<Event>): (v: World)
    requires WellFormed(w, n)
    ensures WellFormed(v, n)
    decreases |events|
  {
    if events == [] then w else Run(Apply(w, n, events[0]), n, events[1..])
  }

  /** Running two sequences one after the other is running their concatenation. */
  lemma {:induction false} RunConcat(w: World, n: int, xs: seq<Event>, ys: seq<Event>)
    requires WellFormed(w, n)
    ensures Run(w, n, xs + ys) == Run(Run(w, n, xs), n, ys)
    decreases |xs|
  {
    if xs == [] {
      assert xs + ys == ys;
    } else {
      assert (xs + ys)[0] == xs[0];
      assert (xs + ys)[1..] == xs[1..] + ys;
      RunConcat(Apply(w, n, xs[0]), n, xs[1..], ys);
    }
  }

  /** Whatever happened before, a clear brings the panel back to its initial state. */
  lemma ClearAfterAnyRun(w: World, n: int, events: seq<Event>)
    requires WellFormed(w, n)
    ensures Run(w, n, events + [ClearEvent]) == Initial(n)
  {
    RunConcat(w, n, events, [ClearEvent]);
    var v := Run(w, n, events);
    ClearedIsInitial(v, n);
    assert Run(v, n, [ClearEvent]) == Run(Apply(v, n, ClearEvent), n, []);
  }

  /** Each step of a run flips exactly the cell the ant stood on. */
  lemma StepSimulationFlipsOneCell(w: World, n: int)
    requires WellFormed(w, n)
    ensures WellFormed(Apply(w, n, StepEvent), n)
    ensures forall i, j :: 0 <= i < n && 0 <= j < n ==>
      (Apply(w, n, StepEvent).cells[i][j] != w.cells[i][j] <==> i == w.ant.row && j == w.ant.col)
  {
  }

  /** The panel: the board as an n-by-n array and the ant it owns. */
  class DrawingPanel {
    /** settings.gridSize, fixed for the panel's lifetime. */
    const gridSize: int
    var grid: array2<bool>
    var ant: LangtonsAnt

    /** The board is gridSize-by-gridSize and the ant stands on it. */
    ghost predicate Valid()
      reads this, ant
    {
      gridSize >= 1 && grid.Length0 == gridSize && grid.Length1 == gridSize
      && 0 <= ant.row < gridSize && 0 <= ant.col < gridSize
    }

    /** The value of the board and of the ant. */
    ghost function Snapshot(): World
      reads this, ant, grid
    {
      World(CellsOf(grid), ant.State())
    }

    /** A white gridSize-by-gridSize board with a new ant at its centre facing UP. */
    constructor (gridSize: int)
      requires gridSize >= 1
      ensures this.gridSize == gridSize
      ensures Valid() && Snapshot() == Initial(gridSize)
      ensures fresh(grid) && fresh(ant)
    {
      this.gridSize := gridSize;
      grid := new bool[gridSize, gridSize]((i, j) => false);
      ant := new LangtonsAnt(gridSize / 2, gridSize / 2);
      new;
      assert CellsOf(grid) == Blank(gridSize) by {
        var c, b := CellsOf(grid), Blank(gridSize);
        forall i | 0 <= i < gridSize
          ensures c[i] == b[i]
        {
          forall j | 0 <= j < gridSize
            ensures c[i][j] == b[i][j]
          {
            assert InBounds(b, i, j);
          }
        }
      }
    }

    /** One generation: the ant steps on the panel's board. */
    method StepSimulation()
      requires Valid()
      modifies ant, grid
      ensures Valid() && Snapshot() == StepWorld(old(Snapshot()))
    {
      ant.Step(grid);
    }

    /** Whitens every row in place and replaces the ant by a fresh centred one. */
    method ClearGrid()
      requires Valid()
      modifies this, grid
      ensures grid == old(grid) && fresh(ant)
      ensures Valid() && Snapshot() == Cleared(old(Snapshot()), gridSize)
    {
      ghost var w := Snapshot();
      var r := 0;
      while r < grid.Length0
        invariant grid == old(grid) && ant == old(ant)
        invariant 0 <= r <= grid.Length0
        invariant forall i, j :: 0 <= i < r && 0 <= j < grid.Length1 ==> !grid[i, j]
      {
        var c := 0;
        while c < grid.Length1
          invariant grid == old(grid) && ant == old(ant)
          invariant 0 <= c <= grid.Length1
          invariant forall i, j :: 0 <= i < r && 0 <= j < grid.Length1 ==> !grid[i, j]
          invariant forall j :: 0 <= j < c ==> !grid[r, j]
        {
          grid[r, c] := false;
          c := c + 1;
        }
        r := r + 1;
      }
      ant := new LangtonsAnt(gridSize / 2, gridSize / 2);
      assert CellsOf(grid) == Whitened(w.cells) by {
        var c, b := CellsOf(grid), Whitened(w.cells);
        forall i | 0 <= i < gridSize
          ensures c[i] == b[i]
        {
          forall j | 0 <= j < gridSize
            ensures c[i][j] == b[i][j]
          {
            assert InBounds(b, i, j);
          }
        }
      }
    }

    /** The toggle of a click already mapped to cell (row, col): a cell of the
        board is negated, a position outside it is ignored. */
    method OnMouseClick(row: int, col: int)
      requires Valid()
      modifies grid
      ensures Valid() && Snapshot() == Toggled(old(Snapshot()), gridSize, row, col)
    {
      ghost var w := Snapshot();
      if row >= 0 && row < gridSize && col >= 0 && col < gridSize {
        grid[row, col] := !grid[row, col];
        assert CellsOf(grid) == Flipped(w.cells, row, col) by {
          var c, b := CellsOf(grid), Flipped(w.cells, row, col);
          forall i | 0 <= i < gridSize
            ensures c[i] == b[i]
          {
            forall j | 0 <= j < gridSize
              ensures c[i][j] == b[i][j]
            {
              assert InBounds(w.cells, i, j);
            }
          }
        }
      } else {
        assert CellsOf(grid) == w.cells;
      }
    }
  }
}
