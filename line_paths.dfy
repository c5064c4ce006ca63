/** The straight-line path resolver of the word search: the cells between a
    start and an end cell when both lie on one row, one column or one 45-degree
    diagonal. */
module LinePaths {
  import opened Common
  import opened CellIds

  const Rows := 12
  const Cols := 12

  predicate InGrid(p: Coord) {
    0 <= p.row < Rows && 0 <= p.col < Cols
  }

  /** Every position of a list lies in the grid. */
  predicate AllInGrid(p: seq<Coord>) {
    forall k :: 0 <= k < |p| ==> InGrid(p[k])
  }

  function Abs(x: int): nat {
    if x < 0 then -x else x
  }

  function Max(x: int, y: int): int {
    if x < y then y else x
  }

  function Sign(x: int): int {
    if x > 0 then 1 else if x < 0 then -1 else 0
  }

  /** The test of line 191: horizontal, vertical or a pure diagonal. */
  predicate OnLine(a: Coord, b: Coord) {
    var dr, dc := b.row - a.row, b.col - a.col;
    dr == 0 || dc == 0 || Abs(dr) == Abs(dc)
  }

  /** `steps = max(|deltaRow|, |deltaCol|)`. */
  function Steps(a: Coord, b: Coord): nat {
    Max(Abs(b.row - a.row), Abs(b.col - a.col))
  }

  /** `Math.round((delta / steps) * i)`. On a line `delta / steps` is exactly
      -1, 0 or 1, so the rounded product is the sign of `delta` times `i`. */
  function Offset(delta: int, i: int): int {
    if delta > 0 then i else if delta < 0 then -i else 0
  }

  /** The `i`-th cell of the walk from `a` towards `b`. */
  function PointAt(a: Coord, b: Coord, i: int): Coord {
    Coord(a.row + Offset(b.row - a.row, i), a.col + Offset(b.col - a.col, i))
  }

  /** `getCellsInLine` on positions: the walk from `a` to `b`, or no cells when
      the two are not on a common line. */
  function LinePath(a: Coord, b: Coord): (p: seq<Coord>)
    ensures a.row >= 0 && a.col >= 0 && b.row >= 0 && b.col >= 0 ==>
      forall k :: 0 <= k < |p| ==> p[k].row >= 0 && p[k].col >= 0
  {
    if OnLine(a, b) then
      DeltaIsSteps(a, b);
      seq(Steps(a, b) + 1, i requires 0 <= i <= Steps(a, b) => PointAt(a, b, i))
    else []
  }

  /** On a line, each non-zero delta has the full number of steps as its size. */
  lemma DeltaIsSteps(a: Coord, b: Coord)
    requires OnLine(a, b)
    ensures Offset(b.row - a.row, Steps(a, b)) == b.row - a.row
    ensures Offset(b.col - a.col, Steps(a, b)) == b.col - a.col
  {
  }

  /** The path is non-empty exactly when the two cells share a row, a column or
      a diagonal. */
  lemma LinePathNonEmptyIff(a: Coord, b: Coord)
    ensures |LinePath(a, b)| > 0 <==> OnLine(a, b)
    ensures !OnLine(a, b) ==> LinePath(a, b) == []
  {
  }

  /** On a line the path has `max(|dr|, |dc|) + 1` cells, starts at `a`, ends
      at `b`, and every step moves by (sign dr, sign dc). */
  lemma LinePathShape(a: Coord, b: Coord)
    requires OnLine(a, b)
    ensures |LinePath(a, b)| == Max(Abs(b.row - a.row), Abs(b.col - a.col)) + 1
    ensures LinePath(a, b)[0] == a
    ensures LinePath(a, b)[|LinePath(a, b)| - 1] == b
    ensures forall k :: 0 <= k < |LinePath(a, b)| - 1 ==>
      LinePath(a, b)[k + 1].row - LinePath(a, b)[k].row == Sign(b.row - a.row) &&
      LinePath(a, b)[k + 1].col - LinePath(a, b)[k].col == Sign(b.col - a.col)
  {
    DeltaIsSteps(a, b);
    var p, n := LinePath(a, b), Steps(a, b);
    assert p[0] == PointAt(a, b, 0);
    assert p[n] == PointAt(a, b, n);
    forall k | 0 <= k < n
      ensures p[k + 1].row - p[k].row == Sign(b.row - a.row)
      ensures p[k + 1].col - p[k].col == Sign(b.col - a.col)
    {
      assert p[k] == PointAt(a, b, k) && p[k + 1] == PointAt(a, b, k + 1);
    }
  }

  /** A start equal to the end gives the one-cell path. */
  lemma LinePathSameCell(a: Coord)
    ensures LinePath(a, a) == [a]
  {
  }

  /** Reversal symmetry: the path from `b` to `a` is the path from `a` to `b`
      backwards. */
  lemma LinePathReverse(a: Coord, b: Coord)
    ensures LinePath(b, a) == Reverse(LinePath(a, b))
  {
    if OnLine(a, b) {
      var p, q := LinePath(a, b), LinePath(b, a);
      var n := Steps(a, b);
      assert Steps(b, a) == n;
      DeltaIsSteps(a, b);
      forall k | 0 <= k <= n ensures q[k] == p[n - k] {
      }
    }
  }

  /** A path between two cells of the grid stays inside the grid. */
  lemma LinePathInGrid(a: Coord, b: Coord)
    requires InGrid(a) && InGrid(b)
    ensures AllInGrid(LinePath(a, b))
  {
    if OnLine(a, b) {
      DeltaIsSteps(a, b);
    }
  }
}
