/** The unit edges and unit cells of a board with `rows` x `cols` points, in
    the order the computer players enumerate edges (game_players.py), and how
    many there are (the totals game_core.py compares against). */
module Grid {
  import opened Geometry
  import opened Seqs

  /** Python's `range(n)` is empty for negative `n`. */
  function Count(n: int): nat {
    if n < 0 then 0 else n
  }

  /** The edge from (x, y) to the point on its right, (x, y + 1). */
  function RowEdge(x: int, y: int): Line {
    Segment(Point(x, y), Point(x, y + 1))
  }

  /** The edge from (x, y) to the point below it, (x + 1, y). */
  function ColEdge(x: int, y: int): Line {
    Segment(Point(x, y), Point(x + 1, y))
  }

  /** The edges inside row `x`, left to right. */
  function EdgesInRow(x: int, cols: int): seq<Line> {
    seq(Count(cols - 1), y => RowEdge(x, y))
  }

  /** The edges inside column `y`, top to bottom. */
  function EdgesInCol(y: int, rows: int): seq<Line> {
    seq(Count(rows - 1), x => ColEdge(x, y))
  }

  /** The edges inside rows 0 .. `rows` - 1, row by row. */
  function RowEdges(rows: int, cols: int): seq<Line> {
    if rows <= 0 then [] else RowEdges(rows - 1, cols) + EdgesInRow(rows - 1, cols)
  }

  /** The edges inside columns 0 .. `cols` - 1, column by column. */
  function ColEdges(rows: int, cols: int): seq<Line> {
    if cols <= 0 then [] else ColEdges(rows, cols - 1) + EdgesInCol(cols - 1, rows)
  }

  /** Every unit edge of the grid: the row edges, then the column edges. */
  function GridEdges(rows: int, cols: int): seq<Line> {
    RowEdges(rows, cols) + ColEdges(rows, cols)
  }

  /** A unit edge between two points of the grid. */
  predicate IsGridEdge(rows: int, cols: int, l: Line) {
    && 0 <= l.p1.x < rows && 0 <= l.p1.y < cols
    && 0 <= l.p2.x < rows && 0 <= l.p2.y < cols
    && (l.p2 == Point(l.p1.x, l.p1.y + 1) || l.p2 == Point(l.p1.x + 1, l.p1.y))
  }

  lemma {:induction false} RowEdgesMembers(rows: int, cols: int, l: Line)
    ensures l in RowEdges(rows, cols) <==> 0 <= l.p1.x < rows && 0 <= l.p1.y < cols - 1 && l == RowEdge(l.p1.x, l.p1.y)
  {
    if rows > 0 {
      RowEdgesMembers(rows - 1, cols, l);
      if l.p1.x == rows - 1 && 0 <= l.p1.y < cols - 1 && l == RowEdge(l.p1.x, l.p1.y) {
        assert EdgesInRow(rows - 1, cols)[l.p1.y] == l;
      }
    }
  }

  lemma {:induction false} ColEdgesMembers(rows: int, cols: int, l: Line)
    ensures l in ColEdges(rows, cols) <==> 0 <= l.p1.x < rows - 1 && 0 <= l.p1.y < cols && l == ColEdge(l.p1.x, l.p1.y)
  {
    if cols > 0 {
      ColEdgesMembers(rows, cols - 1, l);
      if l.p1.y == cols - 1 && 0 <= l.p1.x < rows - 1 && l == ColEdge(l.p1.x, l.p1.y) {
        assert EdgesInCol(cols - 1, rows)[l.p1.x] == l;
      }
    }
  }

  /** The enumeration holds exactly the unit edges of the grid. */
  lemma GridEdgesMembers(rows: int, cols: int, l: Line)
    ensures l in GridEdges(rows, cols) <==> IsGridEdge(rows, cols, l)
  {
    RowEdgesMembers(rows, cols, l);
    ColEdgesMembers(rows, cols, l);
  }

  lemma {:induction false} RowEdgesNoDup(rows: int, cols: int)
    ensures NoDup(RowEdges(rows, cols))
    ensures |RowEdges(rows, cols)| == Count(rows) * Count(cols - 1)
  {
    if rows > 0 {
      RowEdgesNoDup(rows - 1, cols);
      var a, b := RowEdges(rows - 1, cols), EdgesInRow(rows - 1, cols);
      forall l | l in a ensures l !in b {
        RowEdgesMembers(rows - 1, cols, l);
      }
      NoDupConcat(a, b);
      assert Count(rows) * Count(cols - 1) == Count(rows - 1) * Count(cols - 1) + Count(cols - 1);
    }
  }

  lemma {:induction false} ColEdgesNoDup(rows: int, cols: int)
    ensures NoDup(ColEdges(rows, cols))
    ensures |ColEdges(rows, cols)| == Count(cols) * Count(rows - 1)
  {
    if cols > 0 {
      ColEdgesNoDup(rows, cols - 1);
      var a, b := ColEdges(rows, cols - 1), EdgesInCol(cols - 1, rows);
      forall l | l in a ensures l !in b {
        ColEdgesMembers(rows, cols - 1, l);
      }
      NoDupConcat(a, b);
      assert Count(cols) * Count(rows - 1) == Count(cols - 1) * Count(rows - 1) + Count(rows - 1);
    }
  }

  /** The enumeration repeats no edge, and there are (rows - 1) * cols +
      (cols - 1) * rows edges on a grid of at least one point each way. */
  lemma GridEdgesCount(rows: int, cols: int)
    requires rows >= 1 && cols >= 1
    ensures NoDup(GridEdges(rows, cols))
    ensures |Elems(GridEdges(rows, cols))| == (rows - 1) * cols + (cols - 1) * rows
  {
    assert rows * (cols - 1) == (cols - 1) * rows && cols * (rows - 1) == (rows - 1) * cols;
    RowEdgesNoDup(rows, cols);
    ColEdgesNoDup(rows, cols);
    RowColDisjoint(rows, cols);
    NoDupConcat(RowEdges(rows, cols), ColEdges(rows, cols));
    NoDupCard(GridEdges(rows, cols));
    assert |GridEdges(rows, cols)| == |RowEdges(rows, cols)| + |ColEdges(rows, cols)|;
    assert Count(rows) == rows && Count(cols) == cols && Count(rows - 1) == rows - 1 && Count(cols - 1) == cols - 1;
  }

  lemma RowColDisjoint(rows: int, cols: int)
    ensures forall l :: l in RowEdges(rows, cols) ==> l !in ColEdges(rows, cols)
  {
    forall l | l in RowEdges(rows, cols) ensures l !in ColEdges(rows, cols) {
      RowEdgesMembers(rows, cols, l);
      ColEdgesMembers(rows, cols, l);
    }
  }

  lemma NoDupConcat<T>(a: seq<T>, b: seq<T>)
    requires NoDup(a) && NoDup(b)
    requires forall x :: x in a ==> x !in b
    ensures NoDup(a + b)
  {
    forall i, j | 0 <= i < j < |a + b| ensures (a + b)[i] != (a + b)[j] {
      if i < |a| && j >= |a| {
        assert (a + b)[i] in a && (a + b)[j] in b;
      }
    }
  }

  /** The cells of row `x`, left to right. */
  function CellsInRow(x: int, cols: int): seq<Box> {
    seq(Count(cols - 1), y => Box(x, y))
  }

  /** The cells whose top-left corner is in rows 0 .. `n` - 1. */
  function CellRows(n: int, cols: int): seq<Box> {
    if n <= 0 then [] else CellRows(n - 1, cols) + CellsInRow(n - 1, cols)
  }

  /** Every unit cell of a grid of `rows` x `cols` points. */
  function GridCells(rows: int, cols: int): seq<Box> {
    CellRows(rows - 1, cols)
  }

  /** A cell whose four corners are points of the grid. */
  predicate IsGridCell(rows: int, cols: int, c: Box) {
    0 <= c.x <= rows - 2 && 0 <= c.y <= cols - 2
  }

  lemma {:induction false} CellRowsMembers(n: int, cols: int, c: Box)
    ensures c in CellRows(n, cols) <==> 0 <= c.x < n && 0 <= c.y < cols - 1
  {
    if n > 0 {
      CellRowsMembers(n - 1, cols, c);
      if c.x == n - 1 && 0 <= c.y < cols - 1 {
        assert CellsInRow(n - 1, cols)[c.y] == c;
      }
    }
  }

  lemma GridCellsMembers(rows: int, cols: int, c: Box)
    ensures c in GridCells(rows, cols) <==> IsGridCell(rows, cols, c)
  {
    CellRowsMembers(rows - 1, cols, c);
  }

  lemma {:induction false} CellRowsNoDup(n: int, cols: int)
    ensures NoDup(CellRows(n, cols))
    ensures |CellRows(n, cols)| == Count(n) * Count(cols - 1)
  {
    if n > 0 {
      CellRowsNoDup(n - 1, cols);
      var a, b := CellRows(n - 1, cols), CellsInRow(n - 1, cols);
      forall c | c in a ensures c !in b {
        CellRowsMembers(n - 1, cols, c);
      }
      NoDupConcat(a, b);
      assert Count(n) * Count(cols - 1) == Count(n - 1) * Count(cols - 1) + Count(cols - 1);
    }
  }

  /** There are (cols - 1) * (rows - 1) cells on a grid of at least one point each way. */
  lemma GridCellsCount(rows: int, cols: int)
    requires rows >= 1 && cols >= 1
    ensures NoDup(GridCells(rows, cols))
    ensures |Elems(GridCells(rows, cols))| == (cols - 1) * (rows - 1)
  {
    CellRowsNoDup(rows - 1, cols);
    NoDupCard(GridCells(rows, cols));
  }

  /** The four edges of a grid cell are grid edges. */
  lemma CellEdgesInGrid(rows: int, cols: int, c: Box)
    requires IsGridCell(rows, cols, c)
    ensures forall l :: l in CellEdges(c) ==> IsGridEdge(rows, cols, l)
  {
  }

  /** On a grid at least two points wide and tall, every grid edge is an
      edge of some grid cell. */
  lemma EdgeCell(rows: int, cols: int, l: Line) returns (c: Box)
    requires rows >= 2 && cols >= 2 && IsGridEdge(rows, cols, l)
    ensures IsGridCell(rows, cols, c) && l in CellEdges(c)
  {
    var x, y := l.p1.x, l.p1.y;
    if l.p2 == Point(x, y + 1) {
      c := if x <= rows - 2 then Box(x, y) else Box(x - 1, y);
      assert l == if x <= rows - 2 then Top(c) else Bottom(c);
    } else {
      c := if y <= cols - 2 then Box(x, y) else Box(x, y - 1);
      assert l == if y <= cols - 2 then Left(c) else Right(c);
    }
  }
}
