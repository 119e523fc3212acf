/** The immutable geometric values of the game (game_utils.py): grid points,
    lines between two distinct points stored in a canonical endpoint order,
    and boxes (unit cells) recognised from their corners or their edges. */
module Geometry {
  import opened Wrappers
  import opened Seqs

  /** A grid point: `x` is the row, `y` the column. */
  datatype Point = Point(x: int, y: int) {

    /** The coordinate sum, which orders a line's endpoints and boxes' corners. */
    function Sum(): int {
      x + y
    }

    /** Rows run from `top` to `bottom`, columns from `left` to `right`. */
    predicate InRange(left: int, top: int, right: int, bottom: int) {
      top <= x <= bottom && left <= y <= right
    }

    function Offset(dx: int, dy: int): (r: Point)
      ensures r.x - x == dx && r.y - y == dy
    {
      Point(x + dx, y + dy)
    }
  }

  /** Two endpoints, in the order a line stores them. */
  datatype Segment = Segment(p1: Point, p2: Point)

  /** A line: two distinct endpoints, the one with the smaller sum first.
      Every line the program builds goes through `NewLine`, so every line is
      of this type; equality is equality of the ordered pair. */
  type Line = s: Segment | s.p1 != s.p2 && s.p1.Sum() <= s.p2.Sum()
    witness Segment(Point(0, 0), Point(0, 1))

  /** The stored form of the line through `p` and `q`: the point with the
      strictly smaller sum first, otherwise the second argument first. */
  function Canonical(p: Point, q: Point): (l: Line)
    requires p != q
    ensures (l.p1 == p && l.p2 == q) || (l.p1 == q && l.p2 == p)
    ensures p.Sum() == q.Sum() ==> l.p1 == q
  {
    if p.Sum() < q.Sum() then Segment(p, q) else Segment(q, p)
  }

  /** The `Line(p, q)` constructor: two equal points raise `ValueError`. */
  function NewLine(p: Point, q: Point): (r: Result<Line>)
    ensures r.Err? <==> p == q
    ensures r.Err? ==> r.error == ValueError
    ensures r.Ok? ==> {r.value.p1, r.value.p2} == {p, q}
  {
    if p == q then Err(ValueError) else Ok(Canonical(p, q))
  }

  /** When the two sums differ, the argument order does not matter. */
  lemma NewLineSymmetric(p: Point, q: Point)
    requires p.Sum() != q.Sum()
    ensures NewLine(p, q) == NewLine(q, p)
    ensures NewLine(p, q).Ok? && NewLine(p, q).value.p1.Sum() < NewLine(p, q).value.p2.Sum()
  {
  }

  /** When the two sums tie, the argument order decides the stored order, so
      the two lines are different values. */
  lemma NewLineOrderedOnTie(p: Point, q: Point)
    requires p != q && p.Sum() == q.Sum()
    ensures NewLine(p, q) == Ok(Segment(q, p)) && NewLine(q, p) == Ok(Segment(p, q))
    ensures NewLine(p, q) != NewLine(q, p)
  {
  }

  predicate LineInRange(l: Line, left: int, top: int, right: int, bottom: int) {
    l.p1.InRange(left, top, right, bottom) && l.p2.InRange(left, top, right, bottom)
  }

  /** `Line.offset`: both endpoints translated, then stored again in
      canonical order, which swaps the two endpoints when their sums tie. */
  function LineOffset(l: Line, dx: int, dy: int): (r: Line)
    ensures {r.p1, r.p2} == {l.p1.Offset(dx, dy), l.p2.Offset(dx, dy)}
    ensures l.p1.Sum() < l.p2.Sum() ==> r.p1 == l.p1.Offset(dx, dy) && r.p2 == l.p2.Offset(dx, dy)
    ensures l.p1.Sum() == l.p2.Sum() ==> r.p1 == l.p2.Offset(dx, dy) && r.p2 == l.p1.Offset(dx, dy)
  {
    Canonical(l.p1.Offset(dx, dy), l.p2.Offset(dx, dy))
  }

  /** The line joining the first endpoints of two lines. */
  function LinkPoint1(l: Line, other: Line): (r: Result<Line>)
    ensures r.Err? <==> l.p1 == other.p1
    ensures r.Ok? ==> {r.value.p1, r.value.p2} == {l.p1, other.p1}
  {
    NewLine(l.p1, other.p1)
  }

  /** The line joining the second endpoints of two lines. */
  function LinkPoint2(l: Line, other: Line): (r: Result<Line>)
    ensures r.Err? <==> l.p2 == other.p2
    ensures r.Ok? ==> {r.value.p1, r.value.p2} == {l.p2, other.p2}
  {
    NewLine(l.p2, other.p2)
  }

  /** Endpoints in the same column, in different rows. */
  predicate IsVertical(l: Line) {
    l.p1.y == l.p2.y && l.p1.x != l.p2.x
  }

  /** Endpoints in the same row, in different columns. */
  predicate IsHorizontal(l: Line) {
    l.p1.x == l.p2.x && l.p1.y != l.p2.y
  }

  /** No line is both; a line changing both coordinates is neither. */
  lemma AxisExclusive(l: Line)
    ensures !(IsVertical(l) && IsHorizontal(l))
    ensures l.p1.x != l.p2.x && l.p1.y != l.p2.y ==> !IsVertical(l) && !IsHorizontal(l)
    ensures IsVertical(l) || IsHorizontal(l) || (l.p1.x != l.p2.x && l.p1.y != l.p2.y)
  {
  }

  /** A box is named by its top-left corner. */
  datatype Box = Box(x: int, y: int) {
    function Corner(): Point {
      Point(x, y)
    }
  }

  // The four unit edges of the cell whose top-left corner is (x, y).
  function Top(c: Box): Line { Segment(Point(c.x, c.y), Point(c.x, c.y + 1)) }
  function Bottom(c: Box): Line { Segment(Point(c.x + 1, c.y), Point(c.x + 1, c.y + 1)) }
  function Left(c: Box): Line { Segment(Point(c.x, c.y), Point(c.x + 1, c.y)) }
  function Right(c: Box): Line { Segment(Point(c.x, c.y + 1), Point(c.x + 1, c.y + 1)) }

  function CellEdges(c: Box): set<Line> {
    {Top(c), Bottom(c), Left(c), Right(c)}
  }

  function Corners(c: Box): set<Point> {
    {Point(c.x, c.y), Point(c.x, c.y + 1), Point(c.x + 1, c.y), Point(c.x + 1, c.y + 1)}
  }

  predicate SortedBySum(s: seq<Point>) {
    forall i, j :: 0 <= i < j < |s| ==> s[i].Sum() <= s[j].Sum()
  }

  /** Inserts `p` after every element whose sum is not larger (stable). */
  function InsertBySum(p: Point, s: seq<Point>): (r: seq<Point>)
    ensures multiset(r) == multiset(s) + multiset{p}
    ensures |r| == |s| + 1
  {
    if s == [] then [p]
    else if p.Sum() < s[0].Sum() then [p] + s
    else
      assert s == [s[0]] + s[1..];
      [s[0]] + InsertBySum(p, s[1..])
  }

  /** Inserting into a sorted sequence keeps it sorted. */
  lemma {:induction false} InsertBySumSorted(p: Point, s: seq<Point>)
    requires SortedBySum(s)
    ensures SortedBySum(InsertBySum(p, s))
  {
    if s != [] && p.Sum() >= s[0].Sum() {
      var rest := InsertBySum(p, s[1..]);
      InsertBySumSorted(p, s[1..]);
      forall k | 0 <= k < |rest|
        ensures s[0].Sum() <= rest[k].Sum()
      {
        assert rest[k] in multiset(rest);
        assert rest[k] == p || rest[k] in multiset(s[1..]);
      }
    }
  }

  /** `sorted(..., key=x + y)`: a stable insertion sort by coordinate sum. */
  function SortBySum(s: seq<Point>): (r: seq<Point>)
    ensures SortedBySum(r)
    ensures multiset(r) == multiset(s)
    ensures |r| == |s|
  {
    if s == [] then []
    else
      assert s == s[..|s| - 1] + [s[|s| - 1]];
      InsertBySumSorted(s[|s| - 1], SortBySum(s[..|s| - 1]));
      InsertBySum(s[|s| - 1], SortBySum(s[..|s| - 1]))
  }

  /** The sum pattern of four corners sorted by sum: one smallest, two equal,
      one largest, evenly spaced. */
  predicate Diamond(a: Point, b: Point, c: Point, d: Point) {
    a.Sum() < b.Sum() == c.Sum() < d.Sum() && d.Sum() - c.Sum() == b.Sum() - a.Sum()
  }

  /** `s` is four distinct points in the diamond pattern, `a` the smallest. */
  ghost predicate DiamondFrom(s: set<Point>, a: Point) {
    exists b, c, d :: Diamond(a, b, c, d) && s == {a, b, c, d} && |s| == 4
  }

  /** `Box.from_points`: de-duplicate, demand four points, sort by sum, check
      the diamond pattern, and name the box by the smallest-sum point. */
  function FromPoints(points: seq<Point>): (r: Result<Box>)
    ensures r.Err? ==> r.error == ValueError
    ensures r.Ok? ==> r.value.Corner() in points
    ensures r.Ok? ==> forall q :: q in points && q != r.value.Corner() ==> r.value.Corner().Sum() < q.Sum()
  {
    var distinct := Dedup(points);
    if |distinct| != 4 then Err(ValueError)
    else
      var s := SortBySum(distinct);
      assert s[0] in multiset(distinct) && s[1] in multiset(distinct);
      assert forall q :: q in points ==> q in multiset(s);
      if Diamond(s[0], s[1], s[2], s[3]) then Ok(Box(s[0].x, s[0].y)) else Err(ValueError)
  }

  /** Fewer or more than four distinct points never make a box. */
  lemma FromPointsNeedsFour(points: seq<Point>)
    requires |Elems(points)| != 4
    ensures FromPoints(points) == Err(ValueError)
  {
    DedupCard(points);
  }

  /** The points `from_points` sorts: every distinct input point once. */
  lemma SortedDistinct(points: seq<Point>) returns (s: seq<Point>)
    ensures s == SortBySum(Dedup(points))
    ensures NoDup(s) && SortedBySum(s) && |s| == |Elems(points)|
    ensures Elems(s) == Elems(points)
  {
    DedupCard(points);
    var distinct := Dedup(points);
    s := SortBySum(distinct);
    NoDupMultiset(distinct, s);
    forall q | q in points ensures q in s {
      assert q in multiset(distinct);
    }
    forall q | q in s ensures q in points {
      assert q in multiset(distinct);
    }
  }

  /** A sequence of four elements has exactly those four as its set. */
  lemma ElemsOfFour<T>(s: seq<T>)
    requires |s| == 4
    ensures Elems(s) == {s[0], s[1], s[2], s[3]}
  {
    forall q | q in s ensures q in {s[0], s[1], s[2], s[3]} {
      var k :| 0 <= k < 4 && s[k] == q;
    }
  }

  /** What `from_points` looks at once there are four distinct points: their
      arrangement by increasing sum. */
  lemma FromPointsSorted(points: seq<Point>) returns (s: seq<Point>)
    requires |Elems(points)| == 4
    ensures |s| == 4 && NoDup(s) && SortedBySum(s)
    ensures Elems(s) == Elems(points) == {s[0], s[1], s[2], s[3]}
    ensures FromPoints(points) == if Diamond(s[0], s[1], s[2], s[3]) then Ok(Box(s[0].x, s[0].y)) else Err(ValueError)
  {
    DedupCard(points);
    s := SortedDistinct(points);
    ElemsOfFour(s);
  }

  /** Every box `from_points` returns comes from four corners in the diamond
      pattern, named by the smallest-sum one. */
  lemma FromPointsSound(points: seq<Point>)
    requires FromPoints(points).Ok?
    ensures DiamondFrom(Elems(points), FromPoints(points).value.Corner())
  {
    DedupCard(points);
    var s := FromPointsSorted(points);
    NoDupCard(s);
    assert Diamond(s[0], s[1], s[2], s[3]);
  }

  /** Four corners in the diamond pattern always make the box named by the
      smallest-sum corner, whatever the order and repetitions of the input. */
  lemma FromPointsComplete(points: seq<Point>, a: Point)
    requires DiamondFrom(Elems(points), a)
    ensures FromPoints(points) == Ok(Box(a.x, a.y))
  {
    var b, c, d :| Diamond(a, b, c, d) && Elems(points) == {a, b, c, d} && |Elems(points)| == 4;
    var s := FromPointsSorted(points);
    SortedDiamond(s, a, b, c, d);
  }

  /** Four points in the diamond pattern, sorted by sum, start with the
      smallest one and keep the pattern. */
  lemma SortedDiamond(s: seq<Point>, a: Point, b: Point, c: Point, d: Point)
    requires |s| == 4 && NoDup(s) && SortedBySum(s) && {s[0], s[1], s[2], s[3]} == {a, b, c, d}
    requires Diamond(a, b, c, d)
    ensures s[0] == a && Diamond(s[0], s[1], s[2], s[3])
  {
    assert s[0] == a by {
      assert a in {s[0], s[1], s[2], s[3]};
    }
    assert s[3] == d by {
      assert d in {s[0], s[1], s[2], s[3]};
    }
    assert s[1] in {a, b, c, d} && s[2] in {a, b, c, d};
    assert s[1] != s[0] && s[1] != s[3] && s[2] != s[0] && s[2] != s[3];
  }

  /** A sorted rearrangement of a duplicate-free sequence is duplicate-free. */
  lemma NoDupMultiset(s: seq<Point>, t: seq<Point>)
    requires NoDup(s) && multiset(s) == multiset(t)
    ensures NoDup(t)
  {
    forall i, j | 0 <= i < j < |t|
      ensures t[i] != t[j]
    {
      if t[i] == t[j] {
        var m := multiset(t[..j]);
        assert t == t[..j] + t[j..];
        assert t[i] in m;
        assert multiset(t)[t[i]] >= 2 by {
          assert multiset(t) == multiset(t[..j]) + multiset(t[j..]);
          assert t[j] in multiset(t[j..]);
        }
        MultiplicityOne(s, t[i]);
      }
    }
  }

  /** In a duplicate-free sequence every element occurs at most once. */
  lemma {:induction false} MultiplicityOne(s: seq<Point>, x: Point)
    requires NoDup(s)
    ensures multiset(s)[x] <= 1
  {
    if s != [] {
      var t := s[..|s| - 1];
      assert s == t + [s[|s| - 1]];
      assert NoDup(t);
      MultiplicityOne(t, x);
      if x == s[|s| - 1] {
        assert x !in t;
      }
    }
  }

  /** `from_points` depends only on the set of points it is given. */
  lemma FromPointsSetOnly(ps: seq<Point>, qs: seq<Point>)
    requires Elems(ps) == Elems(qs)
    ensures FromPoints(ps) == FromPoints(qs)
  {
    if FromPoints(ps).Ok? {
      FromPointsSound(ps);
      FromPointsComplete(qs, FromPoints(ps).value.Corner());
    } else if FromPoints(qs).Ok? {
      FromPointsSound(qs);
      FromPointsComplete(ps, FromPoints(qs).value.Corner());
    }
  }

  /** The endpoints of each line in turn. */
  function Endpoints(lines: seq<Line>): (ps: seq<Point>)
    ensures |ps| == 2 * |lines|
    ensures forall p :: p in ps <==> exists l :: l in lines && (p == l.p1 || p == l.p2)
  {
    if lines == [] then []
    else
      var ps := Endpoints(lines[..|lines| - 1]) + [lines[|lines| - 1].p1, lines[|lines| - 1].p2];
      assert forall l :: l in lines <==> l in lines[..|lines| - 1] || l == lines[|lines| - 1] by {
        assert lines == lines[..|lines| - 1] + [lines[|lines| - 1]];
      }
      ps
  }

  /** `Box.from_lines`: four distinct lines, then `from_points` of their endpoints. */
  function FromLines(lines: seq<Line>): (r: Result<Box>)
    ensures |Elems(lines)| != 4 ==> r == Err(ValueError)
    ensures |Elems(lines)| == 4 ==> r == FromPoints(Endpoints(lines))
  {
    DedupCard(lines);
    var distinct := Dedup(lines);
    if |distinct| != 4 then Err(ValueError)
    else
      FromPointsSetOnly(Endpoints(distinct), Endpoints(lines));
      FromPoints(Endpoints(distinct))
  }

  /** The corners of a unit cell form the diamond pattern. */
  lemma CornersDiamond(c: Box)
    ensures DiamondFrom(Corners(c), Point(c.x, c.y))
  {
    var a, b, d, e := Point(c.x, c.y), Point(c.x, c.y + 1), Point(c.x + 1, c.y), Point(c.x + 1, c.y + 1);
    assert Diamond(a, b, d, e);
    assert |Corners(c)| == 4;
  }

  /** The four unit edges around a cell, in any order and with any
      repetitions, make exactly that box. */
  lemma FromLinesCell(c: Box, lines: seq<Line>)
    requires Elems(lines) == CellEdges(c)
    ensures FromLines(lines) == Ok(c)
  {
    assert |CellEdges(c)| == 4 by {
      assert Top(c) != Bottom(c) && Top(c) != Left(c) && Top(c) != Right(c);
      assert Bottom(c) != Left(c) && Bottom(c) != Right(c) && Left(c) != Right(c);
    }
    var ps := Endpoints(lines);
    assert Elems(ps) == Corners(c) by {
      forall p | p in ps ensures p in Corners(c) {
        var l :| l in lines && (p == l.p1 || p == l.p2);
        assert l in CellEdges(c);
      }
      forall p | p in Corners(c) ensures p in ps {
        assert Top(c) in lines && Bottom(c) in lines;
        if p == Top(c).p1 || p == Top(c).p2 {
          assert Top(c) in lines && (p == Top(c).p1 || p == Top(c).p2);
        } else {
          assert Bottom(c) in lines && (p == Bottom(c).p1 || p == Bottom(c).p2);
        }
      }
    }
    CornersDiamond(c);
    FromPointsComplete(ps, Point(c.x, c.y));
  }

  /** The pattern test is not a unit-square test: the corners of a square of
      any side `k >= 1` pass it and name the box at its top-left corner. */
  lemma FromPointsAcceptsAnySquare(x: int, y: int, k: int)
    requires k >= 1
    ensures FromPoints([Point(x, y), Point(x, y + k), Point(x + k, y), Point(x + k, y + k)]) == Ok(Box(x, y))
  {
    var ps := [Point(x, y), Point(x, y + k), Point(x + k, y), Point(x + k, y + k)];
    ElemsOfFour(ps);
    assert |Elems(ps)| == 4;
    assert Diamond(Point(x, y), Point(x, y + k), Point(x + k, y), Point(x + k, y + k));
    FromPointsComplete(ps, Point(x, y));
  }
}
