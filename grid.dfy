/** The board of the simulation: a square of boolean cells indexed [row][col],
    true meaning a black (living) cell and false a white (dead) one.
    The source holds it as a vector of row vectors; this module gives its value
    view and the single-cell and whole-board updates the ant and the panel make. */
module Grid {

  /** The value of a board: a sequence of rows. */
  type Cells = seq<seq<bool>>

  /** The board has n rows of n cells each. */
  predicate IsSquare(c: Cells, n: int) {
    |c| == n && forall i :: 0 <= i < |c| ==> |c[i]| == n
  }

  /** Both boards have the same number of rows, and row by row the same length. */
  predicate SameShape(c: Cells, d: Cells) {
    |c| == |d| && forall i :: 0 <= i < |c| ==> |c[i]| == |d[i]|
  }

  /** (r, k) names a cell of the board. */
  predicate InBounds(c: Cells, r: int, k: int) {
    0 <= r < |c| && 0 <= k < |c[r]|
  }

  /** The board after `grid[r][k] = v`: that cell holds v, every other cell is as before. */
  function Painted(c: Cells, r: int, k: int, v: bool): (d: Cells)
    requires InBounds(c, r, k)
    ensures SameShape(c, d)
    ensures d[r][k] == v
    ensures forall i, j :: InBounds(c, i, j) && (i != r || j != k) ==> d[i][j] == c[i][j]
  {
    c[r := c[r][k := v]]
  }

  /** The board after `grid[r][k] = !grid[r][k]`: exactly that cell is negated. */
  function Flipped(c: Cells, r: int, k: int): (d: Cells)
    requires InBounds(c, r, k)
    ensures SameShape(c, d)
    ensures forall i, j :: InBounds(c, i, j) ==>
      (d[i][j] <==> (if i == r && j == k then !c[i][j] else c[i][j]))
  {
    Painted(c, r, k, !c[r][k])
  }

  /** Flipping the same cell twice gives back the board. */
  lemma FlipTwice(c: Cells, r: int, k: int)
    requires InBounds(c, r, k)
    ensures Flipped(Flipped(c, r, k), r, k) == c
  {
    var d := Flipped(Flipped(c, r, k), r, k);
    assert |d| == |c|;
    forall i | 0 <= i < |c|
      ensures d[i] == c[i]
    {
      assert |d[i]| == |c[i]|;
      forall j | 0 <= j < |c[i]|
        ensures d[i][j] == c[i][j]
      {
        assert InBounds(c, i, j);
      }
    }
  }

  /** The board after every row is filled with false: same shape, no black cell. */
  function Whitened(c: Cells): (d: Cells)
    ensures SameShape(c, d)
    ensures forall i, j :: InBounds(d, i, j) ==> !d[i][j]
  {
    seq(|c|, i requires 0 <= i < |c| => seq(|c[i]|, _ => false))
  }

  /** The n-by-n board with every cell white. */
  function Blank(n: nat): (d: Cells)
    ensures IsSquare(d, n)
    ensures forall i, j :: InBounds(d, i, j) ==> !d[i][j]
  {
    seq(n, _ => seq(n, _ => false))
  }

  /** On a square board, whitening every row gives the canonical blank board. */
  lemma WhitenedSquareIsBlank(c: Cells, n: nat)
    requires IsSquare(c, n)
    ensures Whitened(c) == Blank(n)
  {
  }

  /** Whitening is idempotent. */
  lemma WhitenTwice(c: Cells)
    ensures Whitened(Whitened(c)) == Whitened(c)
  {
  }

  /** The value held by a two-dimensional array of cells. */
  ghost function CellsOf(g: array2<bool>): (c: Cells)
    reads g
    ensures |c| == g.Length0
    ensures forall i :: 0 <= i < |c| ==> |c[i]| == g.Length1
    ensures forall i, j :: 0 <= i < g.Length0 && 0 <= j < g.Length1 ==> c[i][j] == g[i, j]
  {
    seq(g.Length0, i requires 0 <= i < g.Length0 reads g =>
      seq(g.Length1, j requires 0 <= j < g.Length1 reads g => g[i, j]))
  }
}
