/** The computer players of game_players.py: the enumeration of the edges
    still free, the one-ply score of an edge, and the two move policies.
    Every operation here only reads the board; none has a `modifies` clause. */
module Players {
  import opened Wrappers
  import opened Seqs
  import opened Geometry
  import opened Grid
  import opened Rules
  import opened Core

  /** The edges of `edges` that `has_line` does not report drawn, in order. */
  function Undrawn(rows: int, cols: int, lines: set<Line>, edges: seq<Line>): (r: seq<Line>)
    ensures |r| <= |edges|
  {
    if edges == [] then []
    else
      var last := edges[|edges| - 1];
      Undrawn(rows, cols, lines, edges[..|edges| - 1]) + if HasLine(rows, cols, lines, last) then [] else [last]
  }

  /** The filter keeps exactly the edges `has_line` does not report drawn. */
  lemma {:induction false} UndrawnMembers(rows: int, cols: int, lines: set<Line>, edges: seq<Line>, l: Line)
    ensures l in Undrawn(rows, cols, lines, edges) <==> l in edges && !HasLine(rows, cols, lines, l)
  {
    if edges != [] {
      var front, last := edges[..|edges| - 1], edges[|edges| - 1];
      UndrawnMembers(rows, cols, lines, front, l);
      assert edges == front + [last];
    }
  }

  /** One more edge adds itself at the end when it is not drawn. */
  lemma UndrawnSnoc(rows: int, cols: int, lines: set<Line>, edges: seq<Line>, e: Line)
    ensures Undrawn(rows, cols, lines, edges + [e])
         == Undrawn(rows, cols, lines, edges) + if HasLine(rows, cols, lines, e) then [] else [e]
  {
    assert (edges + [e])[..|edges|] == edges;
  }

  /** Filtering a concatenation filters each part in turn. */
  lemma {:induction false} UndrawnConcat(rows: int, cols: int, lines: set<Line>, a: seq<Line>, b: seq<Line>)
    ensures Undrawn(rows, cols, lines, a + b) == Undrawn(rows, cols, lines, a) + Undrawn(rows, cols, lines, b)
  {
    if b == [] {
      assert a + b == a;
    } else {
      var front, last := b[..|b| - 1], b[|b| - 1];
      var tail := if HasLine(rows, cols, lines, last) then [] else [last];
      assert b == front + [last];
      calc {
        Undrawn(rows, cols, lines, a + b);
        { assert a + b == (a + front) + [last]; }
        Undrawn(rows, cols, lines, (a + front) + [last]);
        { UndrawnSnoc(rows, cols, lines, a + front, last); }
        Undrawn(rows, cols, lines, a + front) + tail;
        { UndrawnConcat(rows, cols, lines, a, front); }
        (Undrawn(rows, cols, lines, a) + Undrawn(rows, cols, lines, front)) + tail;
        Undrawn(rows, cols, lines, a) + (Undrawn(rows, cols, lines, front) + tail);
        { UndrawnSnoc(rows, cols, lines, front, last); }
        Undrawn(rows, cols, lines, a) + Undrawn(rows, cols, lines, b);
      }
    }
  }

  /** Filtering keeps a list free of repetitions. */
  lemma {:induction false} UndrawnNoDup(rows: int, cols: int, lines: set<Line>, edges: seq<Line>)
    requires NoDup(edges)
    ensures NoDup(Undrawn(rows, cols, lines, edges))
  {
    if edges != [] {
      var front, last := edges[..|edges| - 1], edges[|edges| - 1];
      assert NoDup(front);
      UndrawnNoDup(rows, cols, lines, front);
      assert last !in front;
      UndrawnMembers(rows, cols, lines, front, last);
      var r := Undrawn(rows, cols, lines, edges);
      var u := Undrawn(rows, cols, lines, front);
      forall i, j | 0 <= i < j < |r| ensures r[i] != r[j] {
        if j >= |u| {
          assert r[i] in u;
        }
      }
    }
  }

  /** `_get_available_lines` on a board of `rows` x `cols` points with
      `lines` drawn: the row edges then the column edges, in loop order,
      that are not drawn. */
  function Available(rows: int, cols: int, lines: set<Line>): (r: seq<Line>)
    ensures |r| <= |GridEdges(rows, cols)|
  {
    Undrawn(rows, cols, lines, GridEdges(rows, cols))
  }

  /** The available lines are exactly the unit edges of the grid not yet
      drawn, each once, the row edges before the column edges; each of them
      passes `check_line` and is not reported drawn by `has_line`. */
  lemma AvailableMeaning(rows: int, cols: int, lines: set<Line>)
    ensures forall l :: l in Available(rows, cols, lines) <==> IsGridEdge(rows, cols, l) && l !in lines
    ensures NoDup(Available(rows, cols, lines))
    ensures Available(rows, cols, lines)
         == Undrawn(rows, cols, lines, RowEdges(rows, cols)) + Undrawn(rows, cols, lines, ColEdges(rows, cols))
    ensures forall l :: l in Available(rows, cols, lines) ==> CheckLine(rows, cols, l) && !HasLine(rows, cols, lines, l)
  {
    forall l ensures l in Available(rows, cols, lines) <==> IsGridEdge(rows, cols, l) && l !in lines {
      GridEdgesMembers(rows, cols, l);
      CheckLineAxisIffGridEdge(rows, cols, l);
      UndrawnMembers(rows, cols, lines, GridEdges(rows, cols), l);
    }
    RowEdgesNoDup(rows, cols);
    ColEdgesNoDup(rows, cols);
    RowColDisjoint(rows, cols);
    NoDupConcat(RowEdges(rows, cols), ColEdges(rows, cols));
    UndrawnNoDup(rows, cols, lines, GridEdges(rows, cols));
    UndrawnConcat(rows, cols, lines, RowEdges(rows, cols), ColEdges(rows, cols));
    forall l | l in Available(rows, cols, lines) ensures CheckLine(rows, cols, l) {
      CheckLineAxisIffGridEdge(rows, cols, l);
    }
  }

  /** A prefix one longer, after a fixed front part, ends with the next element. */
  lemma PrefixSnoc(front: seq<Line>, s: seq<Line>, i: int)
    requires 0 <= i < |s|
    ensures front + s[..i + 1] == (front + s[..i]) + [s[i]]
  {
    assert s[..i + 1] == s[..i] + [s[i]];
  }

  /** One more pass of the inner loop over row `x`. */
  lemma RowStep(rows: int, cols: int, lines: set<Line>, x: int, y: int)
    requires 0 <= y < Count(cols - 1)
    ensures Undrawn(rows, cols, lines, RowEdges(x, cols) + EdgesInRow(x, cols)[..y + 1])
         == Undrawn(rows, cols, lines, RowEdges(x, cols) + EdgesInRow(x, cols)[..y])
            + if HasLine(rows, cols, lines, RowEdge(x, y)) then [] else [RowEdge(x, y)]
  {
    PrefixSnoc(RowEdges(x, cols), EdgesInRow(x, cols), y);
    UndrawnSnoc(rows, cols, lines, RowEdges(x, cols) + EdgesInRow(x, cols)[..y], RowEdge(x, y));
  }

  /** The inner loop over row `x` starts after the rows before it and ends
      with that row included. */
  lemma RowEnds(x: int, cols: int)
    requires x >= 0
    ensures RowEdges(x, cols) + EdgesInRow(x, cols)[..0] == RowEdges(x, cols)
    ensures RowEdges(x, cols) + EdgesInRow(x, cols)[..Count(cols - 1)] == RowEdges(x + 1, cols)
  {
    assert EdgesInRow(x, cols)[..Count(cols - 1)] == EdgesInRow(x, cols);
  }

  /** One more pass of the inner loop over column `y`. */
  lemma ColStep(rows: int, cols: int, lines: set<Line>, x: int, y: int)
    requires 0 <= x < Count(rows - 1)
    ensures Undrawn(rows, cols, lines, ColEdges(rows, y) + EdgesInCol(y, rows)[..x + 1])
         == Undrawn(rows, cols, lines, ColEdges(rows, y) + EdgesInCol(y, rows)[..x])
            + if HasLine(rows, cols, lines, ColEdge(x, y)) then [] else [ColEdge(x, y)]
  {
    PrefixSnoc(ColEdges(rows, y), EdgesInCol(y, rows), x);
    UndrawnSnoc(rows, cols, lines, ColEdges(rows, y) + EdgesInCol(y, rows)[..x], ColEdge(x, y));
  }

  /** The inner loop over column `y` starts after the columns before it and
      ends with that column included. */
  lemma ColEnds(rows: int, y: int)
    requires y >= 0
    ensures ColEdges(rows, y) + EdgesInCol(y, rows)[..0] == ColEdges(rows, y)
    ensures ColEdges(rows, y) + EdgesInCol(y, rows)[..Count(rows - 1)] == ColEdges(rows, y + 1)
  {
    assert EdgesInCol(y, rows)[..Count(rows - 1)] == EdgesInCol(y, rows);
  }

  /** The first loop nest of `_get_available_lines`: for each row x and
      column y in turn, the edge (x, y)-(x, y + 1) when it is not drawn. */
  method UndrawnRowEdges(rows: int, cols: int, lines: set<Line>) returns (result: seq<Line>)
    ensures result == Undrawn(rows, cols, lines, RowEdges(rows, cols))
  {
    result := [];
    for x := 0 to Count(rows)
      invariant result == Undrawn(rows, cols, lines, RowEdges(x, cols))
    {
      RowEnds(x, cols);
      for y := 0 to Count(cols - 1)
        invariant result == Undrawn(rows, cols, lines, RowEdges(x, cols) + EdgesInRow(x, cols)[..y])
      {
        var line := Canonical(Point(x, y), Point(x, y + 1));
        RowStep(rows, cols, lines, x, y);
        if !HasLine(rows, cols, lines, line) {
          result := result + [line];
        }
      }
    }
    assert RowEdges(Count(rows), cols) == RowEdges(rows, cols);
  }

  /** The second loop nest of `_get_available_lines`: after `found`, for
      each column y and row x in turn, the edge (x, y)-(x + 1, y) when it is
      not drawn. */
  method AppendUndrawnColEdges(rows: int, cols: int, lines: set<Line>, found: seq<Line>) returns (result: seq<Line>)
    ensures result == found + Undrawn(rows, cols, lines, ColEdges(rows, cols))
  {
    result := found;
    assert ColEdges(rows, 0) == [] && found + [] == found;
    for y := 0 to Count(cols)
      invariant result == found + Undrawn(rows, cols, lines, ColEdges(rows, y))
    {
      ColEnds(rows, y);
      for x := 0 to Count(rows - 1)
        invariant result == found + Undrawn(rows, cols, lines, ColEdges(rows, y) + EdgesInCol(y, rows)[..x])
      {
        var line := Canonical(Point(x, y), Point(x + 1, y));
        ColStep(rows, cols, lines, x, y);
        ghost var step := if HasLine(rows, cols, lines, line) then [] else [line];
        assert (found + Undrawn(rows, cols, lines, ColEdges(rows, y) + EdgesInCol(y, rows)[..x])) + step ==
          found + (Undrawn(rows, cols, lines, ColEdges(rows, y) + EdgesInCol(y, rows)[..x]) + step);
        if !HasLine(rows, cols, lines, line) {
          result := result + [line];
        }
      }
    }
    assert ColEdges(rows, Count(cols)) == ColEdges(rows, cols);
  }

  /** `ComputerPlayer._get_available_lines`: `SystemError` for a player that
      has not joined; otherwise the undrawn row edges followed by the
      undrawn column edges, in the order the two loop nests visit them. */
  method AvailableLines(me: Player) returns (r: Result<seq<Line>>)
    ensures me.board == null ==> r == Err(SystemError)
    ensures me.board != null ==> r == Ok(Available(me.board.maxRow, me.board.maxCol, me.board.lines))
  {
    var joined := me.GameBoard();
    if joined.Err? {
      return Err(joined.error);
    }
    var board := joined.value;
    var rows, cols, lines := board.maxRow, board.maxCol, board.lines;
    var rowPart := UndrawnRowEdges(rows, cols, lines);
    var result := AppendUndrawnColEdges(rows, cols, lines, rowPart);
    UndrawnConcat(rows, cols, lines, RowEdges(rows, cols), ColEdges(rows, cols));
    return Ok(result);
  }

  /** How many of `ls` `has_line` reports drawn: the length of the filtered list. */
  function Drawn(rows: int, cols: int, lines: set<Line>, ls: seq<Line>): (n: nat)
    ensures n <= |ls|
    ensures n == |ls| <==> forall l :: l in ls ==> HasLine(rows, cols, lines, l)
  {
    if ls == [] then 0
    else
      var last := ls[|ls| - 1];
      assert forall l :: l in ls ==> l in ls[..|ls| - 1] || l == last;
      Drawn(rows, cols, lines, ls[..|ls| - 1]) + if HasLine(rows, cols, lines, last) then 1 else 0
  }

  /** What one side of an edge adds to its score, by how many of its three
      other lines are drawn: all three gain 3, two lose 1, one gains 1. */
  function SideValue(drawn: nat): (v: int)
    ensures -1 <= v <= 3
    ensures v == 3 <==> drawn == 3
    ensures drawn != 3 ==> v <= 1
  {
    if drawn == 3 then 3
    else if drawn == 2 then -1
    else if drawn == 1 then 1
    else 0
  }

  /** The value of the side of `l` across which `o` lies, judged on the
      opposite line and the two side lines joining it to `l`. */
  function SideScore(rows: int, cols: int, lines: set<Line>, l: Line, o: Line): Result<int> {
    match (LinkPoint1(l, o), LinkPoint2(l, o))
    case (Err(e), _) => Err(e)
    case (_, Err(e)) => Err(e)
    case (Ok(side1), Ok(side2)) => Ok(SideValue(Drawn(rows, cols, lines, [o, side1, side2])))
  }

  /** The side values of `opposites`, summed in order; the first error wins. */
  function SidesScore(rows: int, cols: int, lines: set<Line>, l: Line, opposites: seq<Line>): Result<int> {
    if opposites == [] then Ok(0)
    else
      match SidesScore(rows, cols, lines, l, opposites[..|opposites| - 1])
      case Err(e) => Err(e)
      case Ok(sum) =>
        match SideScore(rows, cols, lines, l, opposites[|opposites| - 1])
        case Err(e) => Err(e)
        case Ok(v) => Ok(sum + v)
  }

  /** `SmartComputerPlayer._calculate_line_score` on a board of `rows` x
      `cols` points with `lines` drawn. */
  function LineScore(rows: int, cols: int, lines: set<Line>, l: Line): Result<int> {
    match OppositeLines(l)
    case Err(e) => Err(e)
    case Ok(opposites) => SidesScore(rows, cols, lines, l, opposites)
  }

  /** The two opposite lines of a vertical or horizontal line, and that
      their link points never coincide with the line's, so scoring such a
      line never fails. */
  lemma OppositesLink(l: Line)
    requires IsVertical(l) || IsHorizontal(l)
    ensures OppositeLines(l).Ok?
    ensures forall i :: 0 <= i < |OppositeLines(l).value| ==>
      LinkPoint1(l, OppositeLines(l).value[i]).Ok? && LinkPoint2(l, OppositeLines(l).value[i]).Ok?
  {
  }

  /** On one side of a unit edge `l`, facing cell `c` across `o`: the side
      counts 3 exactly when `c` is on the grid with its other three edges
      drawn, and otherwise between -1 and 1. */
  lemma SideOfCell(rows: int, cols: int, lines: set<Line>, l: Line, o: Line, c: Box)
    requires FacingEdges(c, l, o)
    ensures SideScore(rows, cols, lines, l, o).Ok?
    ensures SideScore(rows, cols, lines, l, o).value == 3 <==> IsGridCell(rows, cols, c) && CellEdges(c) - {l} <= lines
    ensures -1 <= SideScore(rows, cols, lines, l, o).value <= 3
  {
    var s1, s2 := LinksOfCell(rows, cols, c, l, o);
    var three := [o, s1, s2];
    assert Elems(three) == {o, s1, s2};
    assert Drawn(rows, cols, lines, three) == 3 <==> HasLine(rows, cols, lines, o) && HasLine(rows, cols, lines, s1) && HasLine(rows, cols, lines, s2) by {
      assert forall x :: x in three <==> x == o || x == s1 || x == s2;
    }
  }

  /** The two-side sum of a line with exactly two opposite lines. */
  lemma SidesOfTwo(rows: int, cols: int, lines: set<Line>, l: Line, opposites: seq<Line>)
    requires |opposites| == 2
    requires SideScore(rows, cols, lines, l, opposites[0]).Ok? && SideScore(rows, cols, lines, l, opposites[1]).Ok?
    ensures SidesScore(rows, cols, lines, l, opposites)
         == Ok(SideScore(rows, cols, lines, l, opposites[0]).value + SideScore(rows, cols, lines, l, opposites[1]).value)
  {
    var first := opposites[..1];
    SidesOfOne(rows, cols, lines, l, first);
    assert opposites[..|opposites| - 1] == first;
  }

  /** The sum over a single opposite line is that line's side value. */
  lemma SidesOfOne(rows: int, cols: int, lines: set<Line>, l: Line, opposites: seq<Line>)
    requires |opposites| == 1
    requires SideScore(rows, cols, lines, l, opposites[0]).Ok?
    ensures SidesScore(rows, cols, lines, l, opposites) == Ok(SideScore(rows, cols, lines, l, opposites[0]).value)
  {
    assert opposites[..0] == [];
  }

  /** A line between two cells completes a box exactly when one of the two
      cells is on the grid with its other three edges drawn. */
  lemma CompletedByBeside(rows: int, cols: int, lines: set<Line>, l: Line, c0: Box, c1: Box)
    requires l in CellEdges(c0) && l in CellEdges(c1)
    requires forall c :: l in CellEdges(c) ==> c == c0 || c == c1
    ensures CompletedBy(rows, cols, lines, l) != {} <==>
      || (IsGridCell(rows, cols, c0) && CellEdges(c0) - {l} <= lines)
      || (IsGridCell(rows, cols, c1) && CellEdges(c1) - {l} <= lines)
  {
    GridCellsMembers(rows, cols, c0);
    GridCellsMembers(rows, cols, c1);
    if IsGridCell(rows, cols, c0) && CellEdges(c0) - {l} <= lines {
      assert c0 in CompletedBy(rows, cols, lines, l);
    }
    if IsGridCell(rows, cols, c1) && CellEdges(c1) - {l} <= lines {
      assert c1 in CompletedBy(rows, cols, lines, l);
    }
    if CompletedBy(rows, cols, lines, l) != {} {
      var c :| c in CompletedBy(rows, cols, lines, l);
      GridCellsMembers(rows, cols, c);
    }
  }

  /** The score of a unit line along an axis: one side value per cell beside it. */
  lemma UnitLineScore(rows: int, cols: int, lines: set<Line>, l: Line)
    requires IsVertical(l) || IsHorizontal(l)
    requires l.p2.Sum() == l.p1.Sum() + 1
    ensures LineScore(rows, cols, lines, l).Ok?
    ensures -2 <= LineScore(rows, cols, lines, l).value <= 6
    ensures CompletedBy(rows, cols, lines, l) != {} ==> LineScore(rows, cols, lines, l).value >= 2
    ensures CompletedBy(rows, cols, lines, l) == {} ==> LineScore(rows, cols, lines, l).value <= 2
  {
    var opposites := OppositeLines(l).value;
    var c0, c1 := CellsBeside(l);
    SideOfCell(rows, cols, lines, l, opposites[0], c0);
    SideOfCell(rows, cols, lines, l, opposites[1], c1);
    SidesOfTwo(rows, cols, lines, l, opposites);
    assert l in CellEdges(c0) && l in CellEdges(c1);
    CompletedByBeside(rows, cols, lines, l, c0, c1);
  }

  /** An axis line longer than a unit completes nothing; its opposite lines
      fail `check_line`, so each side is worth at most 1. */
  lemma LongLineScore(rows: int, cols: int, lines: set<Line>, l: Line)
    requires IsVertical(l) || IsHorizontal(l)
    requires l.p2.Sum() != l.p1.Sum() + 1
    ensures LineScore(rows, cols, lines, l).Ok?
    ensures -2 <= LineScore(rows, cols, lines, l).value <= 2
    ensures CompletedBy(rows, cols, lines, l) == {}
  {
    var opposites := OppositeLines(l).value;
    OppositesLink(l);
    NonUnitFindsNothing(rows, cols, lines, l);
    forall i | 0 <= i < 2
      ensures SideScore(rows, cols, lines, l, opposites[i]).Ok?
      ensures -1 <= SideScore(rows, cols, lines, l, opposites[i]).value <= 1
    {
      var o := opposites[i];
      assert o.p2.Sum() - o.p1.Sum() == l.p2.Sum() - l.p1.Sum();
      assert !HasLine(rows, cols, lines, o);
      var three := [o, LinkPoint1(l, o).value, LinkPoint2(l, o).value];
      assert three[0] == o;
    }
    SidesOfTwo(rows, cols, lines, l, opposites);
  }

  /** The score of a vertical or horizontal line is defined and lies in
      [-2, 6]; a line completing a box scores at least 2 and a line
      completing none at most 2. So the best score reaches 2 whenever some
      free edge completes a box, though a non-completing edge can tie it. */
  lemma LineScoreBounds(rows: int, cols: int, lines: set<Line>, l: Line)
    requires IsVertical(l) || IsHorizontal(l)
    ensures LineScore(rows, cols, lines, l).Ok?
    ensures -2 <= LineScore(rows, cols, lines, l).value <= 6
    ensures CompletedBy(rows, cols, lines, l) != {} ==> LineScore(rows, cols, lines, l).value >= 2
    ensures CompletedBy(rows, cols, lines, l) == {} ==> LineScore(rows, cols, lines, l).value <= 2
  {
    if l.p2.Sum() == l.p1.Sum() + 1 {
      UnitLineScore(rows, cols, lines, l);
    } else {
      LongLineScore(rows, cols, lines, l);
    }
  }

  /** Once an error shows up in a prefix, the whole sum fails with it. */
  lemma {:induction false} SidesErrExtends(rows: int, cols: int, lines: set<Line>, l: Line, opposites: seq<Line>, k: nat)
    requires k <= |opposites|
    requires SidesScore(rows, cols, lines, l, opposites[..k]).Err?
    ensures SidesScore(rows, cols, lines, l, opposites) == SidesScore(rows, cols, lines, l, opposites[..k])
  {
    if k < |opposites| {
      var front := opposites[..|opposites| - 1];
      assert front[..k] == opposites[..k];
      SidesErrExtends(rows, cols, lines, l, front, k);
    } else {
      assert opposites[..k] == opposites;
    }
  }

  /** Scoring one more opposite line of a vertical or horizontal line adds
      its side value to the running sum. */
  lemma SidesStep(rows: int, cols: int, lines: set<Line>, l: Line, os: seq<Line>, i: nat, score: int)
    requires IsVertical(l) || IsHorizontal(l)
    requires os == OppositeLines(l).value && i < |os|
    requires SidesScore(rows, cols, lines, l, os[..i]) == Ok(score)
    ensures LinkPoint1(l, os[i]).Ok? && LinkPoint2(l, os[i]).Ok?
    ensures SidesScore(rows, cols, lines, l, os[..i + 1])
         == Ok(score + SideValue(Drawn(rows, cols, lines, [os[i], LinkPoint1(l, os[i]).value, LinkPoint2(l, os[i]).value])))
  {
    OppositesLink(l);
    assert os[..i + 1][..i] == os[..i];
  }

  /** `SmartComputerPlayer._calculate_line_score`: `SystemError` for a
      player that has not joined, `ValueError` for a line that is neither
      vertical nor horizontal; otherwise the sum over both opposite lines of
      the value of that side. */
  method CalculateLineScore(me: Player, line: Line) returns (r: Result<int>)
    ensures me.board == null ==> r == Err(SystemError)
    ensures me.board != null ==> r == LineScore(me.board.maxRow, me.board.maxCol, me.board.lines, line)
  {
    var joined := me.GameBoard();
    if joined.Err? {
      return Err(joined.error);
    }
    var board := joined.value;
    var rows, cols, lines := board.maxRow, board.maxCol, board.lines;
    var opposites := OppositeLines(line);
    if opposites.Err? {
      return Err(opposites.error);
    }
    var os := opposites.value;
    OppositesLink(line);
    var score := 0;
    assert os[..0] == [];
    for i := 0 to |os|
      invariant SidesScore(rows, cols, lines, line, os[..i]) == Ok(score)
    {
      var o := os[i];
      var side1 := LinkPoint1(line, o).value;
      var side2 := LinkPoint2(line, o).value;
      var existing := Drawn(rows, cols, lines, [o, side1, side2]);
      SidesStep(rows, cols, lines, line, os, i, score);
      if existing == 3 {
        score := score + 3;
      } else if existing == 2 {
        score := score - 1;
      } else if existing == 1 {
        score := score + 1;
      }
    }
    assert os[..|os|] == os;
    return Ok(score);
  }

  /** The highest score in a non-empty list of (score, line) pairs. */
  function TopScore(scored: seq<(int, Line)>): (m: int)
    requires scored != []
    ensures forall i :: 0 <= i < |scored| ==> scored[i].0 <= m
    ensures exists i :: 0 <= i < |scored| && scored[i].0 == m
  {
    var last := scored[|scored| - 1].0;
    if |scored| == 1 then last
    else
      var front := TopScore(scored[..|scored| - 1]);
      if front >= last then front else last
  }

  /** The pairs whose score is `top`, in order. */
  function WithScore(scored: seq<(int, Line)>, top: int): (r: seq<(int, Line)>)
    ensures forall x :: x in r <==> x in scored && x.0 == top
  {
    if scored == [] then []
    else
      var last := scored[|scored| - 1];
      WithScore(scored[..|scored| - 1], top) + if last.0 == top then [last] else []
  }

  /** An available line is an undrawn unit edge of the grid, so it lies
      along an axis. */
  lemma AvailableMember(rows: int, cols: int, lines: set<Line>, l: Line)
    requires l in Available(rows, cols, lines)
    ensures IsGridEdge(rows, cols, l) && l !in lines
    ensures IsVertical(l) || IsHorizontal(l)
  {
    UndrawnMembers(rows, cols, lines, GridEdges(rows, cols), l);
    GridEdgesMembers(rows, cols, l);
    CheckLineAxisIffGridEdge(rows, cols, l);
  }

  /** The list `score_lines` of `SmartComputerPlayer.in_turn` before it is
      sorted: each free line paired with its score, in order. */
  method ScoreLines(me: Player, free: seq<Line>) returns (scored: seq<(int, Line)>)
    requires me.board != null
    requires forall l :: l in free ==> IsVertical(l) || IsHorizontal(l)
    ensures |scored| == |free|
    ensures forall j :: 0 <= j < |free| ==>
      scored[j].1 == free[j] && LineScore(me.board.maxRow, me.board.maxCol, me.board.lines, free[j]) == Ok(scored[j].0)
  {
    scored := [];
    for i := 0 to |free|
      invariant |scored| == i
      invariant forall j :: 0 <= j < i ==>
        scored[j].1 == free[j] && LineScore(me.board.maxRow, me.board.maxCol, me.board.lines, free[j]) == Ok(scored[j].0)
    {
      LineScoreBounds(me.board.maxRow, me.board.maxCol, me.board.lines, free[i]);
      var s := CalculateLineScore(me, free[i]);
      scored := scored + [(s.value, free[i])];
    }
  }

  /** Pairing every free line with its score makes a bound on the scores a
      bound on every free line's score, and carries the picked pair and the
      lines that satisfy `marked` back to the free list. */
  lemma ScoresCoverFree(score: Line -> Result<int>, marked: Line -> bool, free: seq<Line>,
                        scored: seq<(int, Line)>, top: int, pick: (int, Line))
    requires |scored| == |free|
    requires forall j :: 0 <= j < |free| ==> scored[j].1 == free[j] && score(free[j]) == Ok(scored[j].0)
    requires forall j :: 0 <= j < |scored| ==> scored[j].0 <= top
    requires pick in scored
    ensures pick.1 in free && score(pick.1) == Ok(pick.0)
    ensures forall j :: 0 <= j < |scored| ==> scored[j].1 in free && score(scored[j].1) == Ok(scored[j].0)
    ensures forall l :: l in free ==> score(l).Ok? && score(l).value <= top
    ensures (exists l :: l in free && marked(l)) ==> exists j :: 0 <= j < |scored| && marked(scored[j].1)
  {
    var k :| 0 <= k < |scored| && scored[k] == pick;
    assert pick.1 == free[k];
    forall l | l in free
      ensures score(l).Ok? && score(l).value <= top
    {
      var m :| 0 <= m < |free| && free[m] == l;
      assert scored[m].0 <= top;
    }
    if exists l :: l in free && marked(l) {
      var l :| l in free && marked(l);
      var m :| 0 <= m < |free| && free[m] == l;
      assert scored[m].1 == l;
    }
  }

  /** The line of a pair whose score bounds all the scores is a free line
      whose score is the highest among the free lines, and that score is at
      least 2 when some free line completes a box. */
  lemma BestFreeLine(rows: int, cols: int, lines: set<Line>, free: seq<Line>,
                     scored: seq<(int, Line)>, top: int, pick: (int, Line))
    requires forall l :: l in free ==> IsVertical(l) || IsHorizontal(l)
    requires |scored| == |free|
    requires forall j :: 0 <= j < |free| ==> scored[j].1 == free[j] && LineScore(rows, cols, lines, free[j]) == Ok(scored[j].0)
    requires forall j :: 0 <= j < |scored| ==> scored[j].0 <= top
    requires pick in scored && pick.0 == top
    ensures pick.1 in free && LineScore(rows, cols, lines, pick.1) == Ok(top)
    ensures forall l :: l in free ==>
      LineScore(rows, cols, lines, l).Ok? && LineScore(rows, cols, lines, l).value <= top
    ensures (exists l :: l in free && CompletedBy(rows, cols, lines, l) != {}) ==> top >= 2
  {
    var score := (l: Line) => LineScore(rows, cols, lines, l);
    var completes := (l: Line) => CompletedBy(rows, cols, lines, l) != {};
    ScoresCoverFree(score, completes, free, scored, top, pick);
    if exists l :: l in free && CompletedBy(rows, cols, lines, l) != {} {
      var l :| l in free && CompletedBy(rows, cols, lines, l) != {};
      assert completes(l);
      var j :| 0 <= j < |scored| && completes(scored[j].1);
      assert scored[j].1 in free;
      LineScoreBounds(rows, cols, lines, scored[j].1);
    }
  }

  /** `SmartComputerPlayer.in_turn`: `SystemError` for a player that has not
      joined, `IndexError` when no line is free; otherwise some free line
      whose score is the highest among the free lines, which is at least 2
      when some free line completes a box. Sorting by score and keeping the
      pairs that tie with the first keeps exactly the pairs with the top
      score, and the shuffle makes any of them the answer. */
  method SmartInTurn(me: Player) returns (r: Result<Line>)
    ensures me.board == null ==> r == Err(SystemError)
    ensures me.board != null ==>
      var rows, cols, lines := me.board.maxRow, me.board.maxCol, me.board.lines;
      var free := Available(rows, cols, lines);
      && (r.Err? <==> free == [])
      && (r.Err? ==> r.error == IndexError)
      && (r.Ok? ==> && r.value in free
                    && LineScore(rows, cols, lines, r.value).Ok?
                    && (forall l :: l in free ==>
                          (LineScore(rows, cols, lines, l).Ok?
                           && LineScore(rows, cols, lines, l).value <= LineScore(rows, cols, lines, r.value).value))
                    && ((exists l :: l in free && CompletedBy(rows, cols, lines, l) != {}) ==>
                          LineScore(rows, cols, lines, r.value).value >= 2))
  {
    var available := AvailableLines(me);
    if available.Err? {
      return Err(available.error);
    }
    var free := available.value;
    ghost var rows, cols, lines := me.board.maxRow, me.board.maxCol, me.board.lines;
    forall l | l in free ensures IsVertical(l) || IsHorizontal(l) {
      AvailableMember(rows, cols, lines, l);
    }
    var scored := ScoreLines(me, free);
    if |scored| == 0 {
      return Err(IndexError);
    }
    var top := TopScore(scored);
    var best := WithScore(scored, top);
    var k :| 0 <= k < |scored| && scored[k].0 == top;
    assert scored[k] in best;
    var pick :| pick in best;
    BestFreeLine(rows, cols, lines, free, scored, top, pick);
    return Ok(pick.1);
  }

  /** `RandomComputerPlayer.in_turn`: shuffling the free lines and taking
      the first is any free line, so an undrawn unit edge; `SystemError` for
      a player that has not joined, `IndexError` when no line is free. */
  method RandomInTurn(me: Player) returns (r: Result<Line>)
    ensures me.board == null ==> r == Err(SystemError)
    ensures me.board != null ==>
      var free := Available(me.board.maxRow, me.board.maxCol, me.board.lines);
      && (r.Err? <==> free == [])
      && (r.Err? ==> r.error == IndexError)
      && (r.Ok? ==> r.value in free && r.value !in me.board.lines && IsGridEdge(me.board.maxRow, me.board.maxCol, r.value))
  {
    var available := AvailableLines(me);
    if available.Err? {
      return Err(available.error);
    }
    var free := available.value;
    if |free| == 0 {
      return Err(IndexError);
    }
    assert free[0] in free;
    var pick :| pick in free;
    AvailableMember(me.board.maxRow, me.board.maxCol, me.board.lines, pick);
    return Ok(pick);
  }
}
