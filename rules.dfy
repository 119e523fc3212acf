/** The read-only board queries of game_core.py, as functions of the grid
    size and the set of drawn lines: line validation, the lines opposite a
    line, the boxes a new line completes, and conflict detection for a round
    of simultaneous moves. */
module Rules {
  import opened Wrappers
  import opened Seqs
  import opened Geometry
  import opened Grid

  function Abs(n: int): nat {
    if n < 0 then -n else n
  }

  /** `Board.check_line`: both endpoints on the grid (rows 0 .. rows - 1,
      columns 0 .. cols - 1) and coordinate sums that differ by one. */
  function CheckLine(rows: int, cols: int, l: Line): (r: bool)
    ensures r <==> && 0 <= l.p1.x < rows && 0 <= l.p1.y < cols
                   && 0 <= l.p2.x < rows && 0 <= l.p2.y < cols
                   && l.p2.Sum() == l.p1.Sum() + 1
  {
    LineInRange(l, 0, 0, cols - 1, rows - 1) && Abs(l.p1.Sum() - l.p2.Sum()) == 1
  }

  /** `Board.has_line`. */
  function HasLine(rows: int, cols: int, lines: set<Line>, l: Line): (r: bool)
    ensures r ==> l in lines && CheckLine(rows, cols, l)
    ensures r <== l in lines && CheckLine(rows, cols, l)
  {
    CheckLine(rows, cols, l) && l in lines
  }

  /** `Board.has_box`, given the boxes recorded so far. */
  function HasBox(rows: int, cols: int, boxes: set<Box>, c: Box): (r: bool)
    ensures r <==> IsGridCell(rows, cols, c) && c in boxes
  {
    c.Corner().InRange(0, 0, cols - 2, rows - 2) && c in boxes
  }

  /** `check_line` together with the axis test of `generate_opposite_lines`
      accepts exactly the unit edges of the grid. */
  lemma CheckLineAxisIffGridEdge(rows: int, cols: int, l: Line)
    ensures CheckLine(rows, cols, l) && (IsVertical(l) || IsHorizontal(l)) <==> IsGridEdge(rows, cols, l)
  {
  }

  /** `check_line` alone is not a unit-edge test: on a 4 x 4 board it accepts
      the diagonal line from (1, 0) to (0, 2). */
  lemma CheckLineAcceptsDiagonal()
    ensures var l: Line := Segment(Point(1, 0), Point(0, 2));
      CheckLine(4, 4, l) && !IsVertical(l) && !IsHorizontal(l) && !IsGridEdge(4, 4, l)
  {
  }

  /** `Board.generate_opposite_lines`: the two parallel lines one column
      (for a vertical line) or one row (for a horizontal line) away. */
  function OppositeLines(l: Line): (r: Result<seq<Line>>)
    ensures r.Err? <==> !IsVertical(l) && !IsHorizontal(l)
    ensures r.Err? ==> r.error == ValueError
    ensures r.Ok? ==> |r.value| == 2
    ensures IsVertical(l) ==> forall i :: 0 <= i < 2 ==>
      r.value[i].p1 == l.p1.Offset(0, 2 * i - 1) && r.value[i].p2 == l.p2.Offset(0, 2 * i - 1)
    ensures IsHorizontal(l) ==> forall i :: 0 <= i < 2 ==>
      r.value[i].p1 == l.p1.Offset(2 * i - 1, 0) && r.value[i].p2 == l.p2.Offset(2 * i - 1, 0)
  {
    if IsVertical(l) then Ok([LineOffset(l, 0, -1), LineOffset(l, 0, 1)])
    else if IsHorizontal(l) then Ok([LineOffset(l, -1, 0), LineOffset(l, 1, 0)])
    else Err(ValueError)
  }

  /** What one opposite line `o` contributes in `_make_available_new_boxes`:
      if `o` and both side lines joining it to `l` are drawn, the box they
      make with `l`. */
  function BoxVia(rows: int, cols: int, lines: set<Line>, l: Line, o: Line): Result<seq<Box>> {
    if !HasLine(rows, cols, lines, o) then Ok([])
    else
      match (LinkPoint1(l, o), LinkPoint2(l, o))
      case (Err(e), _) => Err(e)
      case (_, Err(e)) => Err(e)
      case (Ok(side1), Ok(side2)) =>
        if HasLine(rows, cols, lines, side1) && HasLine(rows, cols, lines, side2) then
          match FromLines([l, o, side1, side2])
          case Ok(c) => Ok([c])
          case Err(e) => Err(e)
        else Ok([])
  }

  /** Appends the boxes of each opposite line in turn; the first error wins. */
  function BoxesVia(rows: int, cols: int, lines: set<Line>, l: Line, opposites: seq<Line>): Result<seq<Box>> {
    if opposites == [] then Ok([])
    else
      match BoxVia(rows, cols, lines, l, opposites[0])
      case Err(e) => Err(e)
      case Ok(found) => Prepend(found, BoxesVia(rows, cols, lines, l, opposites[1..]))
  }

  function Prepend<T>(front: seq<T>, r: Result<seq<T>>): Result<seq<T>> {
    match r
    case Ok(rest) => Ok(front + rest)
    case Err(e) => Err(e)
  }

  lemma PrependAssoc<T>(a: seq<T>, b: seq<T>, r: Result<seq<T>>)
    ensures Prepend(a, Prepend(b, r)) == Prepend(a + b, r)
  {
    if r.Ok? {
      assert a + (b + r.value) == (a + b) + r.value;
    }
  }

  /** `Board._make_available_new_boxes`, the boxes drawing `l` would complete. */
  function AvailableNewBoxes(rows: int, cols: int, lines: set<Line>, l: Line): Result<seq<Box>> {
    match OppositeLines(l)
    case Err(e) => Err(e)
    case Ok(opposites) => BoxesVia(rows, cols, lines, l, opposites)
  }

  /** The grid cells whose four edges are all drawn. */
  function CompletedCells(rows: int, cols: int, lines: set<Line>): set<Box> {
    set c | c in GridCells(rows, cols) && CellEdges(c) <= lines
  }

  /** The grid cells that have `l` as an edge and whose other three edges are drawn. */
  function CompletedBy(rows: int, cols: int, lines: set<Line>, l: Line): set<Box> {
    set c | c in GridCells(rows, cols) && l in CellEdges(c) && CellEdges(c) - {l} <= lines
  }

  /** The lines opposite across cell `c`, and the two side lines joining them. */
  predicate FacingEdges(c: Box, l: Line, o: Line) {
    || (l == Top(c) && o == Bottom(c)) || (l == Bottom(c) && o == Top(c))
    || (l == Left(c) && o == Right(c)) || (l == Right(c) && o == Left(c))
  }

  /** For facing edges of `c`, the side lines are the other two edges of `c`,
      and the three lines other than `l` are valid exactly when `c` is a grid cell. */
  lemma LinksOfCell(rows: int, cols: int, c: Box, l: Line, o: Line) returns (s1: Line, s2: Line)
    requires FacingEdges(c, l, o)
    ensures LinkPoint1(l, o) == Ok(s1) && LinkPoint2(l, o) == Ok(s2)
    ensures CellEdges(c) - {l} == {o, s1, s2}
    ensures CellEdges(c) == {l, o, s1, s2}
    ensures CheckLine(rows, cols, o) && CheckLine(rows, cols, s1) && CheckLine(rows, cols, s2) <==> IsGridCell(rows, cols, c)
  {
    if l == Top(c) || l == Bottom(c) {
      s1, s2 := Left(c), Right(c);
    } else {
      s1, s2 := Top(c), Bottom(c);
    }
  }

  /** One opposite line, as the edge of cell `c` facing `l`, contributes `c`
      exactly when `c` lies on the grid and its other three edges are drawn. */
  lemma BoxViaCell(rows: int, cols: int, lines: set<Line>, l: Line, o: Line, c: Box)
    requires FacingEdges(c, l, o)
    ensures BoxVia(rows, cols, lines, l, o) ==
      if IsGridCell(rows, cols, c) && CellEdges(c) - {l} <= lines then Ok([c]) else Ok([])
  {
    var s1, s2 := LinksOfCell(rows, cols, c, l, o);
    var drawn := HasLine(rows, cols, lines, o) && HasLine(rows, cols, lines, s1) && HasLine(rows, cols, lines, s2);
    assert drawn <==> IsGridCell(rows, cols, c) && CellEdges(c) - {l} <= lines;
    if drawn {
      assert Elems([l, o, s1, s2]) == {l, o, s1, s2};
      FromLinesCell(c, [l, o, s1, s2]);
    }
  }

  /** The cells that have a given unit edge among their edges. */
  lemma CellsOfEdge(l: Line, c: Box)
    requires l in CellEdges(c)
    ensures l.p2 == Point(l.p1.x, l.p1.y + 1) ==> c == Box(l.p1.x - 1, l.p1.y) || c == Box(l.p1.x, l.p1.y)
    ensures l.p2 == Point(l.p1.x + 1, l.p1.y) ==> c == Box(l.p1.x, l.p1.y - 1) || c == Box(l.p1.x, l.p1.y)
  {
  }

  /** The cell `c` if `l` completes it, otherwise nothing. */
  function Contribution(rows: int, cols: int, lines: set<Line>, l: Line, c: Box): seq<Box> {
    if IsGridCell(rows, cols, c) && CellEdges(c) - {l} <= lines then [c] else []
  }

  /** A unit line along an axis lies between exactly two cells, which face
      it across its two opposite lines. */
  lemma CellsBeside(l: Line) returns (c0: Box, c1: Box)
    requires IsVertical(l) || IsHorizontal(l)
    requires l.p2.Sum() == l.p1.Sum() + 1
    ensures OppositeLines(l).Ok?
    ensures FacingEdges(c0, l, OppositeLines(l).value[0]) && FacingEdges(c1, l, OppositeLines(l).value[1])
    ensures c0 != c1
    ensures forall c :: l in CellEdges(c) ==> c == c0 || c == c1
  {
    var x, y := l.p1.x, l.p1.y;
    var opposites := OppositeLines(l).value;
    if IsHorizontal(l) {
      c0, c1 := Box(x - 1, y), Box(x, y);
      assert l == Bottom(c0) && opposites[0] == Top(c0);
      assert l == Top(c1) && opposites[1] == Bottom(c1);
    } else {
      c0, c1 := Box(x, y - 1), Box(x, y);
      assert l == Right(c0) && opposites[0] == Left(c0);
      assert l == Left(c1) && opposites[1] == Right(c1);
    }
    forall c | l in CellEdges(c) ensures c == c0 || c == c1 {
      CellsOfEdge(l, c);
    }
  }

  /** Two opposite lines that each contribute a result: the two results joined. */
  lemma BoxesViaTwo(rows: int, cols: int, lines: set<Line>, l: Line, opposites: seq<Line>)
    requires |opposites| == 2
    requires BoxVia(rows, cols, lines, l, opposites[0]).Ok? && BoxVia(rows, cols, lines, l, opposites[1]).Ok?
    ensures BoxesVia(rows, cols, lines, l, opposites) ==
      Ok(BoxVia(rows, cols, lines, l, opposites[0]).value + BoxVia(rows, cols, lines, l, opposites[1]).value)
  {
    var rest := opposites[1..];
    assert rest[0] == opposites[1] && rest[1..] == [];
    var b0, b1 := BoxVia(rows, cols, lines, l, opposites[0]).value, BoxVia(rows, cols, lines, l, opposites[1]).value;
    assert BoxesVia(rows, cols, lines, l, rest[1..]) == Ok([]);
    assert BoxesVia(rows, cols, lines, l, rest) == Prepend(b1, Ok([])) == Ok(b1 + []);
    assert b1 + [] == b1;
    assert BoxesVia(rows, cols, lines, l, opposites) == Prepend(b0, Ok(b1));
  }

  /** On a unit line along an axis, `_make_available_new_boxes` returns the
      contributions of the two cells beside it. */
  lemma AvailableNewBoxesBeside(rows: int, cols: int, lines: set<Line>, l: Line) returns (c0: Box, c1: Box)
    requires IsVertical(l) || IsHorizontal(l)
    requires l.p2.Sum() == l.p1.Sum() + 1
    ensures c0 != c1
    ensures forall c :: l in CellEdges(c) ==> c == c0 || c == c1
    ensures l in CellEdges(c0) && l in CellEdges(c1)
    ensures AvailableNewBoxes(rows, cols, lines, l) ==
      Ok(Contribution(rows, cols, lines, l, c0) + Contribution(rows, cols, lines, l, c1))
  {
    c0, c1 := CellsBeside(l);
    var opposites := OppositeLines(l).value;
    BoxViaCell(rows, cols, lines, l, opposites[0], c0);
    BoxViaCell(rows, cols, lines, l, opposites[1], c1);
    BoxesViaTwo(rows, cols, lines, l, opposites);
  }

  /** A line that is not a unit line is an edge of no cell, and finds no box. */
  lemma NonUnitFindsNothing(rows: int, cols: int, lines: set<Line>, l: Line)
    requires IsVertical(l) || IsHorizontal(l)
    requires l.p2.Sum() != l.p1.Sum() + 1
    ensures AvailableNewBoxes(rows, cols, lines, l) == Ok([])
    ensures CompletedBy(rows, cols, lines, l) == {}
  {
    var opposites := OppositeLines(l).value;
    assert opposites[0].p2.Sum() - opposites[0].p1.Sum() == l.p2.Sum() - l.p1.Sum();
    assert opposites[1].p2.Sum() - opposites[1].p1.Sum() == l.p2.Sum() - l.p1.Sum();
    assert BoxVia(rows, cols, lines, l, opposites[0]) == Ok([]);
    assert BoxVia(rows, cols, lines, l, opposites[1]) == Ok([]);
    BoxesViaTwo(rows, cols, lines, l, opposites);
    var none: seq<Box> := [];
    assert none + none == none;
  }

  /** For a vertical or horizontal line, `_make_available_new_boxes` finds
      exactly the cells that the line completes, at most two of them,
      without repetition. */
  lemma AvailableNewBoxesExact(rows: int, cols: int, lines: set<Line>, l: Line)
    requires IsVertical(l) || IsHorizontal(l)
    ensures AvailableNewBoxes(rows, cols, lines, l).Ok?
    ensures var found := AvailableNewBoxes(rows, cols, lines, l).value;
      NoDup(found) && |found| <= 2 && Elems(found) == CompletedBy(rows, cols, lines, l)
  {
    if l.p2.Sum() != l.p1.Sum() + 1 {
      NonUnitFindsNothing(rows, cols, lines, l);
    } else {
      var c0, c1 := AvailableNewBoxesBeside(rows, cols, lines, l);
      var found := AvailableNewBoxes(rows, cols, lines, l).value;
      forall c ensures c in found <==> c in CompletedBy(rows, cols, lines, l) {
        GridCellsMembers(rows, cols, c);
      }
    }
  }

  /** `_make_available_new_boxes` fails exactly on lines that are neither
      vertical nor horizontal, and then with `ValueError`. */
  lemma AvailableNewBoxesFails(rows: int, cols: int, lines: set<Line>, l: Line)
    ensures AvailableNewBoxes(rows, cols, lines, l).Err? <==> !IsVertical(l) && !IsHorizontal(l)
    ensures AvailableNewBoxes(rows, cols, lines, l).Err? ==> AvailableNewBoxes(rows, cols, lines, l).error == ValueError
  {
    if IsVertical(l) || IsHorizontal(l) {
      AvailableNewBoxesExact(rows, cols, lines, l);
    }
  }

  /** Drawing a new line `l` adds to the completed cells exactly the cells `l`
      completes, none of which was complete before. */
  lemma CompletedCellsGrow(rows: int, cols: int, lines: set<Line>, l: Line)
    requires l !in lines
    ensures CompletedCells(rows, cols, lines + {l}) == CompletedCells(rows, cols, lines) + CompletedBy(rows, cols, lines, l)
    ensures CompletedCells(rows, cols, lines) !! CompletedBy(rows, cols, lines, l)
  {
    forall c | c in GridCells(rows, cols)
      ensures CellEdges(c) <= lines + {l} <==> CellEdges(c) <= lines || (l in CellEdges(c) && CellEdges(c) - {l} <= lines)
    {
    }
  }

  /** A new line completes at most two boxes. */
  lemma CompletesAtMostTwo(rows: int, cols: int, lines: set<Line>, l: Line)
    ensures |CompletedBy(rows, cols, lines, l)| <= 2
  {
    if IsVertical(l) || IsHorizontal(l) {
      AvailableNewBoxesExact(rows, cols, lines, l);
      NoDupCard(AvailableNewBoxes(rows, cols, lines, l).value);
    } else {
      forall c | l in CellEdges(c) ensures false {
      }
      assert CompletedBy(rows, cols, lines, l) == {};
    }
  }

  /** `Board.has_box` on the recorded boxes is "a grid cell with all four
      edges drawn" when the recorded boxes are the completed cells. */
  lemma HasBoxIffComplete(rows: int, cols: int, lines: set<Line>, c: Box)
    ensures HasBox(rows, cols, CompletedCells(rows, cols, lines), c) <==> IsGridCell(rows, cols, c) && CellEdges(c) <= lines
  {
    GridCellsMembers(rows, cols, c);
  }

  /** Whether one entry (line, players who chose it) of a round is a
      conflict in `SimultaneousBoard.check_conflict_lines`. */
  function ConflictOf<P>(rows: int, cols: int, lines: set<Line>, entry: (Line, seq<P>)): Result<bool> {
    if |entry.1| > 1 then
      match AvailableNewBoxes(rows, cols, lines, entry.0)
      case Err(e) => Err(e)
      case Ok(boxes) => Ok(!(|boxes| > 0))
    else Ok(false)
  }

  /** An entry is a conflict exactly when more than one player chose its
      line and the line completes no box; testing an entry fails exactly
      when more than one player chose a line that is neither vertical nor horizontal. */
  lemma ConflictOfMeaning<P>(rows: int, cols: int, lines: set<Line>, entry: (Line, seq<P>))
    ensures ConflictOf(rows, cols, lines, entry) == Ok(true) <==>
      |entry.1| > 1 && AvailableNewBoxes(rows, cols, lines, entry.0) == Ok([])
    ensures ConflictOf(rows, cols, lines, entry).Err? <==>
      |entry.1| > 1 && !IsVertical(entry.0) && !IsHorizontal(entry.0)
  {
    AvailableNewBoxesFails(rows, cols, lines, entry.0);
  }

  /** `SimultaneousBoard.check_conflict_lines` over a round's entries, in order. */
  function ConflictLines<P>(rows: int, cols: int, lines: set<Line>, round: seq<(Line, seq<P>)>): Result<seq<Line>> {
    if round == [] then Ok([])
    else
      var last := round[|round| - 1];
      match ConflictLines(rows, cols, lines, round[..|round| - 1])
      case Err(e) => Err(e)
      case Ok(found) =>
        match ConflictOf(rows, cols, lines, last)
        case Err(e) => Err(e)
        case Ok(conflict) => if conflict then Ok(found + [last.0]) else Ok(found)
  }

  /** Conflict detection fails exactly when some entry fails, and otherwise returns
      exactly the lines of the conflicting entries. */
  lemma {:induction false} ConflictLinesExact<P>(rows: int, cols: int, lines: set<Line>, round: seq<(Line, seq<P>)>)
    ensures ConflictLines(rows, cols, lines, round).Err? <==>
      exists i :: 0 <= i < |round| && ConflictOf(rows, cols, lines, round[i]).Err?
    ensures ConflictLines(rows, cols, lines, round).Ok? ==> forall l ::
      l in ConflictLines(rows, cols, lines, round).value <==>
      exists i :: 0 <= i < |round| && round[i].0 == l && ConflictOf(rows, cols, lines, round[i]) == Ok(true)
  {
    if round != [] {
      var front := round[..|round| - 1];
      var last := round[|round| - 1];
      ConflictLinesExact(rows, cols, lines, front);
      assert forall i :: 0 <= i < |front| ==> front[i] == round[i];
      if ConflictLines(rows, cols, lines, round).Ok? {
        var found := ConflictLines(rows, cols, lines, front).value;
        forall l ensures l in ConflictLines(rows, cols, lines, round).value <==>
          exists i :: 0 <= i < |round| && round[i].0 == l && ConflictOf(rows, cols, lines, round[i]) == Ok(true)
        {
          if l in ConflictLines(rows, cols, lines, round).value && l !in found {
            assert round[|round| - 1].0 == l;
          }
        }
      }
    }
  }

  /** Once conflict detection fails on a prefix of the round, it fails on the whole round
      with the same error. */
  lemma {:induction false} ConflictLinesErrExtends<P>(rows: int, cols: int, lines: set<Line>, round: seq<(Line, seq<P>)>, k: nat)
    requires k <= |round| && ConflictLines(rows, cols, lines, round[..k]).Err?
    ensures ConflictLines(rows, cols, lines, round) == ConflictLines(rows, cols, lines, round[..k])
    decreases |round|
  {
    if k < |round| {
      var front := round[..|round| - 1];
      assert front[..k] == round[..k];
      ConflictLinesErrExtends(rows, cols, lines, front, k);
    } else {
      assert round[..k] == round;
    }
  }

  /** On vertical and horizontal lines, "completes no box" is "no cell has its other three edges drawn". */
  lemma NoNewBoxesIffNoneCompleted(rows: int, cols: int, lines: set<Line>, l: Line)
    requires IsVertical(l) || IsHorizontal(l)
    ensures AvailableNewBoxes(rows, cols, lines, l) == Ok([]) <==> CompletedBy(rows, cols, lines, l) == {}
  {
    AvailableNewBoxesExact(rows, cols, lines, l);
    var found := AvailableNewBoxes(rows, cols, lines, l).value;
    if found != [] {
      assert found[0] in Elems(found);
    }
  }

  /** Every unit edge of the grid is drawn. */
  ghost predicate AllDrawn(rows: int, cols: int, lines: set<Line>) {
    forall l :: IsGridEdge(rows, cols, l) ==> l in lines
  }

  /** The line total `is_game_finish` compares against is reached exactly
      when every grid edge is drawn. */
  lemma LinesFull(rows: int, cols: int, lines: set<Line>)
    requires rows >= 2 && cols >= 2
    requires forall l :: l in lines ==> IsGridEdge(rows, cols, l)
    ensures |lines| == (rows - 1) * cols + (cols - 1) * rows <==> AllDrawn(rows, cols, lines)
  {
    var edges := Elems(GridEdges(rows, cols));
    GridEdgesCount(rows, cols);
    forall l ensures l in edges <==> IsGridEdge(rows, cols, l) {
      GridEdgesMembers(rows, cols, l);
    }
    assert lines <= edges;
    if |lines| == |edges| {
      SubsetCardEq(lines, edges);
    }
    if AllDrawn(rows, cols, lines) {
      assert lines == edges;
    }
  }

  /** The box total `is_game_finish` compares against is reached exactly
      when every grid cell is complete, which is when every grid edge is drawn. */
  lemma BoxesFull(rows: int, cols: int, lines: set<Line>)
    requires rows >= 2 && cols >= 2
    ensures |CompletedCells(rows, cols, lines)| == (cols - 1) * (rows - 1) <==> AllDrawn(rows, cols, lines)
  {
    var cells := Elems(GridCells(rows, cols));
    var done := CompletedCells(rows, cols, lines);
    GridCellsCount(rows, cols);
    assert done <= cells;
    if |done| == |cells| {
      SubsetCardEq(done, cells);
      forall l | IsGridEdge(rows, cols, l) ensures l in lines {
        var c := EdgeCell(rows, cols, l);
        GridCellsMembers(rows, cols, c);
        assert c in done;
      }
    }
    if AllDrawn(rows, cols, lines) {
      forall c | c in cells ensures c in done {
        GridCellsMembers(rows, cols, c);
        CellEdgesInGrid(rows, cols, c);
      }
      assert done == cells;
    }
  }

  /** `is_game_finish` never reports an inconsistency on a board whose
      lines are grid edges and whose boxes are the completed cells. */
  lemma FinishConsistent(rows: int, cols: int, lines: set<Line>)
    requires rows >= 2 && cols >= 2
    requires forall l :: l in lines ==> IsGridEdge(rows, cols, l)
    ensures (|lines| == (rows - 1) * cols + (cols - 1) * rows) ==
            (|CompletedCells(rows, cols, lines)| == (cols - 1) * (rows - 1))
  {
    LinesFull(rows, cols, lines);
    BoxesFull(rows, cols, lines);
  }
}
