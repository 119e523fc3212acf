/** The mutable game state of game_core.py: players with their score and
    moves, the board with its drawn lines and claimed boxes, and the two
    turn disciplines built on the board. */
module Core {
  import opened Wrappers
  import opened Seqs
  import opened Geometry
  import opened Grid
  import opened Rules
  import opened Rounds
  import Ranking

  /** A participant. `board` is null until the player joins a game. */
  class Player {
    const name: string
    var score: real
    var moves: seq<Line>
    var board: Board?

    constructor(name: string)
      ensures this.name == name && score == 0.0 && moves == [] && board == null
    {
      this.name := name;
      score := 0.0;
      moves := [];
      board := null;
    }

    /** `join_game`. */
    method JoinGame(b: Board)
      modifies this
      ensures board == b && score == old(score) && moves == old(moves)
    {
      board := b;
    }

    /** `get_game_board`: the board, or `SystemError` before joining. */
    function GameBoard(): (r: Result<Board>)
      reads this
      ensures r.Ok? <==> board != null
      ensures r.Ok? ==> r.value == board
      ensures r.Err? ==> r.error == SystemError
    {
      if board == null then Err(SystemError) else Ok(board)
    }

    /** The `score` property: the score, or `SystemError` before joining. */
    function Score(): (r: Result<real>)
      reads this
      ensures r.Ok? <==> board != null
      ensures r.Ok? ==> r.value == score
      ensures r.Err? ==> r.error == SystemError
    {
      if board == null then Err(SystemError) else Ok(score)
    }

    /** `reset`: back to no score and no moves, still in the same game. */
    method Reset()
      modifies this
      ensures score == 0.0 && moves == [] && board == old(board)
    {
      score := 0.0;
      moves := [];
    }

    /** `add_score`: fails with `SystemError`, changing nothing, before joining. */
    method AddScore(step: real) returns (r: Outcome)
      modifies this
      ensures r.Fail? <==> board == null
      ensures r.Fail? ==> r.error == SystemError && score == old(score)
      ensures r.Pass? ==> score == old(score) + step
      ensures moves == old(moves) && board == old(board)
    {
      if board == null {
        return Fail(SystemError);
      }
      score := score + step;
      return Pass;
    }

    /** `add_moves`: fails with `SystemError`, changing nothing, before joining. */
    method AddMoves(line: Line) returns (r: Outcome)
      modifies this
      ensures r.Fail? <==> board == null
      ensures r.Fail? ==> r.error == SystemError && moves == old(moves)
      ensures r.Pass? ==> moves == old(moves) + [line]
      ensures score == old(score) && board == old(board)
    {
      if board == null {
        return Fail(SystemError);
      }
      moves := moves + [line];
      return Pass;
    }
  }

  /** The players' names, in order. Players are equal when their names are. */
  function Names(ps: seq<Player>): (r: seq<string>)
    ensures |r| == |ps| && forall i :: 0 <= i < |ps| ==> r[i] == ps[i].name
  {
    seq(|ps|, i requires 0 <= i < |ps| => ps[i].name)
  }

  predicate DistinctNames(ps: seq<Player>) {
    NoDup(Names(ps))
  }

  /** `len(players) != len(set(players))` is the duplicate test on names,
      and players with distinct names are distinct objects. */
  lemma DistinctNamesCard(ps: seq<Player>)
    ensures DistinctNames(ps) <==> |Elems(Names(ps))| == |ps|
    ensures DistinctNames(ps) ==> NoDup(ps)
  {
    if DistinctNames(ps) {
      NoDupCard(Names(ps));
    }
    if |Elems(Names(ps))| == |ps| {
      CardNoDup(Names(ps));
    }
  }

  /** Each player paired with its score, in order. */
  function Scored(ps: seq<Player>): (r: seq<(Player, real)>)
    reads ps
    ensures |r| == |ps| && forall i :: 0 <= i < |ps| ==> r[i] == (ps[i], ps[i].score)
  {
    if ps == [] then [] else Scored(ps[..|ps| - 1]) + [(ps[|ps| - 1], ps[|ps| - 1].score)]
  }

  /** The board: its size in points, its players, the lines drawn so far, and
      the boxes claimed so far with the players credited for each. */
  class Board {
    const maxRow: int
    const maxCol: int
    const players: seq<Player>
    var lines: set<Line>
    var boxes: map<Box, seq<Player>>

    /** The state every operation keeps: a valid size and player list, all
        players joined to this board, only grid edges drawn, and exactly
        the completed cells claimed, each by players of this board. */
    ghost predicate Valid()
      reads this, players
    {
      && maxRow > 3 && maxCol > 3
      && |players| >= 2 && DistinctNames(players)
      && (forall p :: p in players ==> p.board == this)
      && Consistent(maxRow, maxCol, lines, boxes, players)
    }

    constructor(rows: int, cols: int, players: seq<Player>)
      ensures maxRow == rows && maxCol == cols && this.players == players
      ensures lines == {} && boxes == map[]
    {
      maxRow := rows;
      maxCol := cols;
      this.players := players;
      lines := {};
      boxes := map[];
    }

    /** `Board.__init__`: rejects with `ValueError` a grid with 3 or fewer
        rows or columns, repeated player names, or fewer than two players;
        otherwise an empty board that every player has joined. */
    static method Create(rows: int, cols: int, players: seq<Player>) returns (r: Result<Board>)
      modifies players
      ensures r.Err? <==> rows <= 3 || cols <= 3 || !DistinctNames(players) || |players| < 2
      ensures r.Err? ==> r.error == ValueError && forall p :: p in players ==> p.board == old(p.board)
      ensures r.Ok? ==> fresh(r.value) && r.value.Valid()
      ensures r.Ok? ==> r.value.maxRow == rows && r.value.maxCol == cols && r.value.players == players
      ensures r.Ok? ==> r.value.lines == {} && r.value.boxes == map[]
      ensures forall p :: p in players ==> p.score == old(p.score) && p.moves == old(p.moves)
    {
      DistinctNamesCard(players);
      if rows <= 3 || cols <= 3 {
        return Err(ValueError);
      }
      if |players| != |Elems(Names(players))| {
        return Err(ValueError);
      }
      if |players| < 2 {
        return Err(ValueError);
      }
      var b := new Board(rows, cols, players);
      for i := 0 to |players|
        invariant b.lines == {} && b.boxes == map[]
        invariant forall j :: 0 <= j < i ==> players[j].board == b
        invariant forall p :: p in players ==> p.score == old(p.score) && p.moves == old(p.moves)
      {
        players[i].JoinGame(b);
      }
      assert CompletedCells(rows, cols, {}) == {} by {
        forall c | c in GridCells(rows, cols) ensures !(CellEdges(c) <= {}) {
          assert Top(c) in CellEdges(c);
        }
      }
      return Ok(b);
    }

    /** One pass of the loop in `_make_available_new_boxes`: if the opposite
        line `o` and both side lines joining it to `line` are drawn, the box
        the four lines enclose. */
    method BoxViaOpposite(line: Line, o: Line) returns (r: Result<seq<Box>>)
      ensures r == BoxVia(maxRow, maxCol, lines, line, o)
    {
      if !HasLine(maxRow, maxCol, lines, o) {
        return Ok([]);
      }
      var side1 := LinkPoint1(line, o);
      var side2 := LinkPoint2(line, o);
      if side1.Err? {
        return Err(side1.error);
      }
      if side2.Err? {
        return Err(side2.error);
      }
      if HasLine(maxRow, maxCol, lines, side1.value) && HasLine(maxRow, maxCol, lines, side2.value) {
        var box := FromLines([line, o, side1.value, side2.value]);
        if box.Err? {
          return Err(box.error);
        }
        return Ok([box.value]);
      }
      return Ok([]);
    }

    /** `_make_available_new_boxes`. */
    method MakeAvailableNewBoxes(line: Line) returns (r: Result<seq<Box>>)
      ensures r == AvailableNewBoxes(maxRow, maxCol, lines, line)
    {
      var opposites := OppositeLines(line);
      if opposites.Err? {
        return Err(opposites.error);
      }
      var os := opposites.value;
      var result: seq<Box> := [];
      assert os[0..] == os;
      assert Prepend([], BoxesVia(maxRow, maxCol, lines, line, os)) == BoxesVia(maxRow, maxCol, lines, line, os) by {
        var none: seq<Box> := [];
        if BoxesVia(maxRow, maxCol, lines, line, os).Ok? {
          assert none + BoxesVia(maxRow, maxCol, lines, line, os).value == BoxesVia(maxRow, maxCol, lines, line, os).value;
        }
      }
      for i := 0 to |os|
        invariant BoxesVia(maxRow, maxCol, lines, line, os) == Prepend(result, BoxesVia(maxRow, maxCol, lines, line, os[i..]))
      {
        assert os[i..][1..] == os[i + 1..];
        var found := BoxViaOpposite(line, os[i]);
        if found.Err? {
          return Err(found.error);
        }
        PrependAssoc(result, found.value, BoxesVia(maxRow, maxCol, lines, line, os[i + 1..]));
        result := result + found.value;
      }
      assert os[|os|..] == [];
      assert result + [] == result;
      return Ok(result);
    }

    /** `can_make_boxes`: whether drawing `line` would complete a box; fails
        with `ValueError` on a line that is neither vertical nor horizontal. */
    method CanMakeBoxes(line: Line) returns (r: Result<bool>)
      ensures r.Err? <==> !IsVertical(line) && !IsHorizontal(line)
      ensures r.Err? ==> r.error == ValueError
      ensures r.Ok? ==> r.value == (CompletedBy(maxRow, maxCol, lines, line) != {})
    {
      var found := MakeAvailableNewBoxes(line);
      AvailableNewBoxesFails(maxRow, maxCol, lines, line);
      if found.Err? {
        return Err(found.error);
      }
      NoNewBoxesIffNoneCompleted(maxRow, maxCol, lines, line);
      return Ok(|found.value| > 0);
    }

    /** `_add_new_line_players`: draws `line` for the `credited` players.
        A line already drawn, failing `check_line`, or neither vertical nor
        horizontal is rejected with `ValueError` and nothing changes.
        Otherwise the line is drawn, the boxes it completes are claimed for
        `credited`, and each listing of a player in `credited` adds the
        number of new boxes divided by `len(credited)` to its score and the
        line to its moves. */
    method AddNewLinePlayers(line: Line, credited: seq<Player>) returns (r: Result<map<Box, seq<Player>>>)
      requires Valid()
      requires forall p :: p in credited ==> p in players
      modifies this, credited
      ensures Valid()
      ensures r.Err? <==> old(line in lines) || !CheckLine(maxRow, maxCol, line) || (!IsVertical(line) && !IsHorizontal(line))
      ensures r.Err? ==> r.error == ValueError && lines == old(lines) && boxes == old(boxes)
      ensures r.Err? ==> forall p :: p in players ==> p.score == old(p.score) && p.moves == old(p.moves)
      ensures r.Ok? ==> r.value == Claims(CompletedBy(maxRow, maxCol, old(lines), line), credited)
      ensures r.Ok? ==> lines == old(lines) + {line} && boxes == old(boxes) + r.value
      ensures r.Ok? ==> forall p :: p in players ==>
        && p.score == old(p.score) + Credit(|CompletedBy(maxRow, maxCol, old(lines), line)|, |credited|, multiset(credited)[p])
        && p.moves == old(p.moves) + Repeat(line, multiset(credited)[p])
    {
      if line in lines {
        return Err(ValueError);
      }
      if !CheckLine(maxRow, maxCol, line) {
        return Err(ValueError);
      }
      var found := MakeAvailableNewBoxes(line);
      AvailableNewBoxesFails(maxRow, maxCol, lines, line);
      if found.Err? {
        return Err(found.error);
      }
      AvailableNewBoxesExact(maxRow, maxCol, lines, line);
      CheckLineAxisIffGridEdge(maxRow, maxCol, line);
      var newBoxes := Claim(line, credited, found.value);
      return Ok(newBoxes);
    }

    /** `_add_new_line_players` for a single player `cur`, as a turn uses
        it: `cur` gains one point per completed box and the line once, and
        no other player changes. */
    method AddNewLineSingle(line: Line, cur: Player) returns (r: Result<map<Box, seq<Player>>>)
      requires Valid() && cur in players
      modifies this, cur
      ensures Valid()
      ensures r.Err? <==> !Accepts(maxRow, maxCol, old(lines), line)
      ensures r.Err? ==> r.error == ValueError && lines == old(lines) && boxes == old(boxes)
      ensures r.Err? ==> forall p :: p in players ==> p.score == old(p.score) && p.moves == old(p.moves)
      ensures r.Ok? ==> var won := CompletedBy(maxRow, maxCol, old(lines), line);
        && r.value == Claims(won, [cur])
        && |r.value| == |won|
        && lines == old(lines) + {line} && boxes == old(boxes) + r.value
        && cur.score == old(cur.score) + |won| as real
        && cur.moves == old(cur.moves) + [line]
        && (forall p :: p in players && p != cur ==> p.score == old(p.score) && p.moves == old(p.moves))
    {
      CheckLineAxisIffGridEdge(maxRow, maxCol, line);
      r := AddNewLinePlayers(line, [cur]);
      if r.Ok? {
        ghost var won := CompletedBy(maxRow, maxCol, old(lines), line);
        assert multiset([cur])[cur] == 1;
        assert Credit(|won|, 1, 1) == |won| as real;
        forall p | p in players && p != cur
          ensures p.score == old(p.score) && p.moves == old(p.moves)
        {
          assert multiset([cur])[p] == 0;
          assert old(p.moves) + [] == old(p.moves);
        }
        assert r.value.Keys == won;
      }
    }

    /** The accepted branch of `_add_new_line_players`: the line is drawn,
        the `found` boxes are claimed for `credited`, and the credited
        players gain their shares and the line. */
    method Claim(line: Line, credited: seq<Player>, found: seq<Box>) returns (newBoxes: map<Box, seq<Player>>)
      requires Valid()
      requires forall p :: p in credited ==> p in players
      requires Accepts(maxRow, maxCol, lines, line)
      requires NoDup(found) && Elems(found) == CompletedBy(maxRow, maxCol, lines, line)
      modifies this, credited
      ensures Valid()
      ensures newBoxes == Claims(CompletedBy(maxRow, maxCol, old(lines), line), credited)
      ensures lines == old(lines) + {line} && boxes == old(boxes) + newBoxes
      ensures forall p :: p in players ==>
        && p.score == old(p.score) + Credit(|CompletedBy(maxRow, maxCol, old(lines), line)|, |credited|, multiset(credited)[p])
        && p.moves == old(p.moves) + Repeat(line, multiset(credited)[p])
    {
      NoDupCard(found);
      newBoxes := Record(line, credited);
      CreditPlayers(players, credited, |found|, line);
    }

    /** The board's half of the accepted branch: the line is drawn and the
        cells it completes are claimed for `credited`. */
    method Record(line: Line, credited: seq<Player>) returns (newBoxes: map<Box, seq<Player>>)
      requires Valid()
      requires forall p :: p in credited ==> p in players
      requires Accepts(maxRow, maxCol, lines, line)
      modifies this
      ensures Valid()
      ensures newBoxes == Claims(CompletedBy(maxRow, maxCol, old(lines), line), credited)
      ensures lines == old(lines) + {line} && boxes == old(boxes) + newBoxes
      ensures forall p :: p in players ==> p.score == old(p.score) && p.moves == old(p.moves) && p.board == old(p.board)
    {
      newBoxes := Claims(CompletedBy(maxRow, maxCol, lines, line), credited);
      DrawKeepsConsistent(maxRow, maxCol, lines, boxes, players, line, newBoxes);
      boxes := boxes + newBoxes;
      lines := lines + {line};
    }

    /** `is_game_finish`: whether all (R - 1) * C + (C - 1) * R lines are
        drawn; `SystemError` when that disagrees with whether all
        (C - 1) * (R - 1) boxes are claimed. */
    function IsGameFinish(): (r: Result<bool>)
      reads this
      ensures r.Err? ==> r.error == SystemError
      ensures r.Err? <==> (|lines| == (maxRow - 1) * maxCol + (maxCol - 1) * maxRow) !=
                          (|boxes| == (maxCol - 1) * (maxRow - 1))
      ensures r.Ok? ==> r.value == (|lines| == (maxRow - 1) * maxCol + (maxCol - 1) * maxRow)
    {
      var allLines := (maxRow - 1) * maxCol + (maxCol - 1) * maxRow;
      var allBoxes := (maxCol - 1) * (maxRow - 1);
      var hasAllLines := |lines| == allLines;
      var hasAllBoxes := |boxes| == allBoxes;
      if hasAllLines != hasAllBoxes then Err(SystemError) else Ok(hasAllLines && hasAllBoxes)
    }

    /** On a valid board `is_game_finish` never reports an inconsistency, and
        reports the game finished exactly when every grid edge is drawn. */
    lemma FinishIffAllDrawn()
      requires Valid()
      ensures IsGameFinish() == Ok(AllDrawn(maxRow, maxCol, lines))
    {
      LinesFull(maxRow, maxCol, lines);
      BoxesFull(maxRow, maxCol, lines);
      assert |boxes| == |boxes.Keys|;
    }

    /** A valid board with no lines drawn, as every board starts, is not
        finished. */
    lemma NotFinishedWhenEmpty()
      requires Valid() && lines == {}
      ensures IsGameFinish() == Ok(false)
    {
      FinishIffAllDrawn();
      assert IsGridEdge(maxRow, maxCol, RowEdge(0, 0));
    }

    /** `get_winner`: `SystemError` while the game is running; afterwards the
        players sorted by descending score, keeping those within 0.01 of the
        first. */
    function GetWinner(): (r: Result<seq<Player>>)
      reads this, players
      ensures r.Err? ==> r.error == SystemError
    {
      match IsGameFinish()
      case Err(e) => Err(e)
      case Ok(finished) =>
        if finished then Ok(Firsts(Ranking.Winners(Scored(players)))) else Err(SystemError)
    }

    /** The highest score among the players. */
    function TopScore(): real
      reads this, players
      requires players != []
    {
      Ranking.MaxScore(Scored(players))
    }

    /** Once every edge of a valid board is drawn, `get_winner` returns, in
        descending score order and without repetition, exactly the players
        within 0.01 of the top score, at least one of them; before that it
        fails with `SystemError`. */
    lemma WinnersOfBoard()
      requires Valid()
      ensures !AllDrawn(maxRow, maxCol, lines) ==> GetWinner() == Err(SystemError)
      ensures AllDrawn(maxRow, maxCol, lines) ==> GetWinner().Ok?
      ensures GetWinner().Ok? ==> var w := GetWinner().value;
        && w != []
        && NoDup(w)
        && (forall i, j :: 0 <= i < j < |w| ==> w[i].score >= w[j].score)
        && (forall p :: p in w <==> p in players && Ranking.Close(p.score, TopScore()))
    {
      FinishIffAllDrawn();
      if AllDrawn(maxRow, maxCol, lines) {
        WinnersOfPlayers(players);
      }
    }

    /** `reset`: no lines, no boxes, and every player back to no score and
        no moves. */
    method Reset()
      requires Valid()
      modifies this, players
      ensures Valid()
      ensures lines == {} && boxes == map[]
      ensures forall p :: p in players ==> p.score == 0.0 && p.moves == []
    {
      lines := {};
      boxes := map[];
      DistinctNamesCard(players);
      for i := 0 to |players|
        invariant lines == {} && boxes == map[]
        invariant forall p :: p in players ==> p.board == old(p.board)
        invariant forall j :: 0 <= j < i ==> players[j].score == 0.0 && players[j].moves == []
      {
        players[i].Reset();
      }
      assert CompletedCells(maxRow, maxCol, {}) == {} by {
        forall c | c in GridCells(maxRow, maxCol) ensures !(CellEdges(c) <= {}) {
          assert Top(c) in CellEdges(c);
        }
      }
    }
  }

  /** What `Board.lines` holds: the constructor stores a set, while
      `Board.reset` as written stores an empty list. */
  datatype LineStore = SetStore(set<Line>) | ListStore(seq<Line>)

  /** `line in self.lines`, for either container. */
  predicate Stored(store: LineStore, line: Line) {
    match store
    case SetStore(s) => line in s
    case ListStore(l) => line in l
  }

  /** The line store `Board.reset` leaves as written: an empty list. */
  function StoreAfterResetAsWritten(): (r: LineStore)
    ensures r.ListStore? && forall line :: !Stored(r, line)
  {
    ListStore([])
  }

  /** The line-store half of `_add_new_line_players` as written: a stored
      line, one failing `check_line`, or one neither vertical nor horizontal
      (rejected by `generate_opposite_lines` while the new boxes are found)
      is a `ValueError`; otherwise `self.lines.add(line)` extends a set, and
      raises `AttributeError` on a list, which has no `add`. */
  function DrawOnStoreAsWritten(rows: int, cols: int, store: LineStore, line: Line): (r: Result<LineStore>)
    ensures r.Err? <==> Stored(store, line) || !CheckLine(rows, cols, line)
                        || (!IsVertical(line) && !IsHorizontal(line)) || store.ListStore?
    ensures (r.Err? && (Stored(store, line) || !CheckLine(rows, cols, line)
                        || (!IsVertical(line) && !IsHorizontal(line)))) ==> r.error == ValueError
    ensures r.Ok? ==> r.value.SetStore? && Stored(r.value, line)
                      && forall l :: l != line ==> (Stored(r.value, l) <==> Stored(store, l))
  {
    if Stored(store, line) then Err(ValueError)
    else if !CheckLine(rows, cols, line) then Err(ValueError)
    else if !IsVertical(line) && !IsHorizontal(line) then Err(ValueError)
    else match store
      case SetStore(s) => Ok(SetStore(s + {line}))
      case ListStore(_) => Err(AttributeError)
  }

  /** After `reset` as written, every unit edge of the grid, the lines a
      game needs, fails with `AttributeError`: no line can be drawn again,
      so the game can never finish. */
  lemma ResetBreaksDrawAsWritten(rows: int, cols: int, line: Line)
    requires IsGridEdge(rows, cols, line)
    ensures DrawOnStoreAsWritten(rows, cols, StoreAfterResetAsWritten(), line) == Err(AttributeError)
  {
    CheckLineAxisIffGridEdge(rows, cols, line);
  }

  /** With the empty set that `Board.Reset` stores, every unit edge of the
      grid is accepted again and becomes the only drawn line; on any set of
      lines, such an edge is accepted exactly when it is not yet drawn. */
  lemma DrawAfterReset(rows: int, cols: int, lines: set<Line>, line: Line)
    requires IsGridEdge(rows, cols, line)
    ensures DrawOnStoreAsWritten(rows, cols, SetStore({}), line) == Ok(SetStore({line}))
    ensures Accepts(rows, cols, {}, line)
    ensures DrawOnStoreAsWritten(rows, cols, SetStore(lines), line).Ok? <==> line !in lines
  {
    CheckLineAxisIffGridEdge(rows, cols, line);
    var none: set<Line> := {};
    assert none + {line} == {line};
  }

  /** Every winner entry pairs a player of `ps` with that player's score. */
  lemma WinnerEntries(ps: seq<Player>)
    requires ps != []
    ensures forall x :: x in Ranking.Winners(Scored(ps)) ==> x.0 in ps && x.1 == x.0.score
  {
    var s := Scored(ps);
    forall x | x in Ranking.Winners(s) ensures x.0 in ps && x.1 == x.0.score {
      Ranking.WinnerMember(s, x);
      var k :| 0 <= k < |s| && s[k] == x;
    }
  }

  /** The ranking of distinct players: at least one winner, none twice, in
      descending score order, and exactly the players within 0.01 of the
      top score. */
  lemma WinnersOfPlayers(ps: seq<Player>)
    requires ps != [] && DistinctNames(ps)
    ensures var w := Firsts(Ranking.Winners(Scored(ps)));
      && w != []
      && NoDup(w)
      && (forall i, j :: 0 <= i < j < |w| ==> w[i].score >= w[j].score)
      && (forall p :: p in w <==> p in ps && Ranking.Close(p.score, Ranking.MaxScore(Scored(ps))))
  {
    var s := Scored(ps);
    var e := Ranking.Winners(s);
    var w := Firsts(e);
    assert Firsts(s) == ps;
    DistinctNamesCard(ps);
    Ranking.WinnersExact(s);
    Ranking.WinnersDistinct(s);
    WinnerEntries(ps);
    forall i, j | 0 <= i < j < |w| ensures w[i].score >= w[j].score {
      assert e[i] in e && e[j] in e;
    }
    forall p ensures p in w <==> p in ps && Ranking.Close(p.score, Ranking.MaxScore(s)) {
      if p in w {
        var k :| 0 <= k < |w| && w[k] == p;
        assert e[k] in e;
        Ranking.WinnerMember(s, e[k]);
      }
      if p in ps && Ranking.Close(p.score, Ranking.MaxScore(s)) {
        var i :| 0 <= i < |ps| && ps[i] == p;
        Ranking.WinnerMember(s, s[i]);
        var k :| 0 <= k < |e| && e[k] == s[i];
        assert w[k] == p;
      }
    }
  }

  /** One pass of the loop in `_add_new_line_players` for a joined player:
      `add_score` then `add_moves`, both of which succeed. */
  method CreditOnce(p: Player, share: real, line: Line)
    requires p.board != null
    modifies p
    ensures p.board == old(p.board) && p.score == old(p.score) + share && p.moves == old(p.moves) + [line]
  {
    var added := p.AddScore(share);
    added := p.AddMoves(line);
  }

  /** The players of `credited` from scores `scores0` and moves `moves0`,
      after the listings `seen` were credited: each listing adds one share of
      `boxes` and the line. */
  ghost predicate CreditedSoFar(credited: seq<Player>, scores0: map<Player, real>, moves0: map<Player, seq<Line>>,
                                boxes: nat, line: Line, seen: multiset<Player>)
    reads credited
  {
    forall p :: p in credited ==>
      && p in scores0 && p.score == scores0[p] + Credit(boxes, |credited|, seen[p])
      && p in moves0 && p.moves == moves0[p] + Repeat(line, seen[p])
  }

  /** One pass of the loop of `_add_new_line_players`: listing `i` is
      credited. */
  method CreditNext(credited: seq<Player>, i: int, boxes: nat, line: Line, ghost scores0: map<Player, real>,
                    ghost moves0: map<Player, seq<Line>>, ghost seen: multiset<Player>)
    requires 0 <= i < |credited| && credited[i].board != null
    requires CreditedSoFar(credited, scores0, moves0, boxes, line, seen)
    modifies credited[i]
    ensures credited[i].board == old(credited[i].board)
    ensures CreditedSoFar(credited, scores0, moves0, boxes, line, seen + multiset{credited[i]})
  {
    var q := credited[i];
    assert (moves0[q] + Repeat(line, seen[q])) + [line] == moves0[q] + (Repeat(line, seen[q]) + [line]);
    CreditOnce(q, Share(boxes, |credited|), line);
  }

  /** The loop of `_add_new_line_players` over the credited players: each
      listing of a player adds `boxes / len(credited)` to its score and the
      line to its moves. */
  method CreditAll(credited: seq<Player>, boxes: nat, line: Line)
    requires forall p :: p in credited ==> p.board != null
    modifies credited
    ensures forall p :: p in credited ==>
      && p.board == old(p.board)
      && p.score == old(p.score) + Credit(boxes, |credited|, multiset(credited)[p])
      && p.moves == old(p.moves) + Repeat(line, multiset(credited)[p])
  {
    ghost var scores0 := Scores(credited);
    ghost var moves0 := MovesBy(credited);
    ghost var seen: multiset<Player> := multiset{};
    forall p | p in credited
      ensures p.moves == moves0[p] + Repeat(line, 0)
    {
      assert p.moves + [] == p.moves;
    }
    for i := 0 to |credited|
      invariant seen == multiset(credited[..i])
      invariant forall p :: p in credited ==> p.board == old(p.board)
      invariant CreditedSoFar(credited, scores0, moves0, boxes, line, seen)
    {
      CreditNext(credited, i, boxes, line, scores0, moves0, seen);
      PrefixMultisetStep(credited, i);
      seen := seen + multiset{credited[i]};
    }
    assert credited[..|credited|] == credited;
    forall p | p in credited
      ensures p.score == old(p.score) + Credit(boxes, |credited|, multiset(credited)[p])
      ensures p.moves == old(p.moves) + Repeat(line, multiset(credited)[p])
    {
      assert scores0[p] == old(p.score) && moves0[p] == old(p.moves);
    }
  }

  /** `_add_new_line_players`'s crediting as the game's players see it: the
      credited ones gain their shares and the line, the others nothing. */
  method CreditPlayers(players: seq<Player>, credited: seq<Player>, boxes: nat, line: Line)
    requires forall p :: p in credited ==> p in players && p.board != null
    modifies credited
    ensures forall p :: p in players ==>
      && p.board == old(p.board)
      && p.score == old(p.score) + Credit(boxes, |credited|, multiset(credited)[p])
      && p.moves == old(p.moves) + Repeat(line, multiset(credited)[p])
  {
    CreditAll(credited, boxes, line);
    forall p | p in players && p !in credited
      ensures p.score == old(p.score) + Credit(boxes, |credited|, multiset(credited)[p])
      ensures p.moves == old(p.moves) + Repeat(line, multiset(credited)[p])
    {
      assert old(p.moves) + [] == old(p.moves);
    }
  }

  /** The index after `i` among `n` players, back to 0 after the last. */
  function Following(i: int, n: int): (j: int)
    requires 0 <= i < n
    ensures 0 <= j < n
  {
    if i == n - 1 then 0 else i + 1
  }

  /** Moving to the following index is adding one modulo the number of
      players. */
  lemma FollowingIsSuccessor(i: int, n: int)
    requires 0 <= i < n
    ensures Following(i, n) == (i + 1) % n
    ensures Following(i, n) == 0 <==> i == n - 1
  {
  }

  /** The index after `k` turns that each pass to the next player. */
  function Advance(i: int, n: int, k: nat): (j: int)
    requires 0 <= i < n
    ensures 0 <= j < n
  {
    if k == 0 then i else Following(Advance(i, n, k - 1), n)
  }

  /** Up to `n` passes move the index that many places round the table:
      it visits `i`, ..., `n` - 1, 0, ..., `i` - 1 in turn and after `n`
      passes is back where it started. */
  lemma {:induction false} AdvanceRotates(i: int, n: int, k: nat)
    requires 0 <= i < n && k <= n
    ensures Advance(i, n, k) == if i + k < n then i + k else i + k - n
    ensures k == n ==> Advance(i, n, k) == i
  {
    if k > 0 {
      AdvanceRotates(i, n, k - 1);
    }
  }

  /** A board where players take turns: the current player draws, and the
      turn passes on unless the line completed a box. */
  class TurnBasedBoard {
    const board: Board
    var currentIndex: int

    /** The board is valid and the current index names one of its players:
        `__init__` chooses the index in range and `_next_turn` wraps it. */
    ghost predicate Valid()
      reads this, board, board.players
    {
      board.Valid() && InTurn()
    }

    /** The current index names a player. */
    predicate InTurn()
      reads this, board
    {
      0 <= currentIndex < |board.players|
    }

    constructor(board: Board, start: int)
      ensures this.board == board && currentIndex == start
    {
      this.board := board;
      currentIndex := start;
    }

    /** `TurnBasedBoard.__init__`: the board's validation, then a starting
        index chosen among the players (at random in the program; here any
        index in range). */
    static method Create(rows: int, cols: int, players: seq<Player>) returns (r: Result<TurnBasedBoard>)
      modifies players
      ensures r.Err? <==> rows <= 3 || cols <= 3 || !DistinctNames(players) || |players| < 2
      ensures r.Err? ==> r.error == ValueError
      ensures r.Ok? ==> fresh(r.value) && fresh(r.value.board) && r.value.Valid() && r.value.InTurn()
      ensures r.Ok? ==> r.value.board.players == players && r.value.board.lines == {} && r.value.board.boxes == map[]
    {
      var b := Board.Create(rows, cols, players);
      if b.Err? {
        return Err(b.error);
      }
      var start :| 0 <= start < |players|;
      var t := new TurnBasedBoard(b.value, start);
      return Ok(t);
    }

    /** `get_current_player`: the player at the current index, or
        `ValueError` when the index is out of range. */
    function CurrentPlayer(): (r: Result<Player>)
      reads this, board
      ensures r.Ok? <==> InTurn()
      ensures r.Ok? ==> r.value == board.players[currentIndex] && r.value in board.players
      ensures r.Err? ==> r.error == ValueError
    {
      if 0 <= currentIndex < |board.players| then Ok(board.players[currentIndex]) else Err(ValueError)
    }

    /** `_next_turn`: the index moves to the next player, wrapping from the
        last to the first, and that player is returned; `ValueError`, with
        nothing changed, when the index is out of range (which a valid
        turn-based board never has). */
    method NextTurn() returns (r: Result<Player>)
      requires board.Valid()
      modifies this
      ensures board.Valid()
      ensures old(Valid()) ==> Valid()
      ensures r.Ok? <==> old(InTurn())
      ensures r.Ok? ==> currentIndex == Following(old(currentIndex), |board.players|) && InTurn()
      ensures r.Ok? ==> r.value == board.players[currentIndex]
      ensures r.Err? ==> r.error == ValueError && currentIndex == old(currentIndex)
      ensures board.lines == old(board.lines) && board.boxes == old(board.boxes)
      ensures forall p :: p in board.players ==> p.score == old(p.score) && p.moves == old(p.moves)
    {
      if 0 <= currentIndex < |board.players| {
        if currentIndex == |board.players| - 1 {
          currentIndex := 0;
        } else {
          currentIndex := currentIndex + 1;
        }
        return Ok(board.players[currentIndex]);
      }
      return Err(ValueError);
    }

    /** `draw_line`: the current player draws `line`. A drawn, off-grid or
        non-unit line is rejected with `ValueError` and nothing changes.
        Otherwise the current player alone is credited, one point per box
        completed, and the turn passes to the next player exactly when no
        box was completed. */
    method DrawLine(line: Line) returns (r: Outcome)
      requires Valid()
      modifies this, board, board.players
      ensures Valid()
      ensures r.Fail? <==> !Accepts(board.maxRow, board.maxCol, old(board.lines), line)
      ensures r.Fail? ==> r.error == ValueError
      ensures r.Fail? ==> board.lines == old(board.lines) && board.boxes == old(board.boxes) && currentIndex == old(currentIndex)
      ensures r.Fail? ==> forall p :: p in board.players ==> p.score == old(p.score) && p.moves == old(p.moves)
      ensures r.Pass? ==> var cur := board.players[old(currentIndex)];
        var won := CompletedBy(board.maxRow, board.maxCol, old(board.lines), line);
        && board.lines == old(board.lines) + {line}
        && board.boxes == old(board.boxes) + Claims(won, [cur])
        && cur.score == old(cur.score) + |won| as real
        && cur.moves == old(cur.moves) + [line]
        && (forall p :: p in board.players && p != cur ==> p.score == old(p.score) && p.moves == old(p.moves))
        && currentIndex == (if won == {} then Following(old(currentIndex), |board.players|) else old(currentIndex))
        && InTurn()
    {
      var cur := CurrentPlayer().value;
      var added := board.AddNewLineSingle(line, cur);
      if added.Err? {
        return Fail(added.error);
      }
      if |added.value| == 0 {
        label scored:
        var next := NextTurn();
        forall p | p in board.players && p != cur
          ensures p.score == old(p.score) && p.moves == old(p.moves)
        {
          assert p.score == old@scored(p.score) && p.moves == old@scored(p.moves);
        }
      }
      return Pass;
    }
  }

  /** Each player's score, by player. */
  function Scores(ps: seq<Player>): (m: map<Player, real>)
    reads ps
    ensures m.Keys == Elems(ps) && forall p :: p in ps ==> m[p] == p.score
  {
    map p | p in ps :: p.score
  }

  /** Each player's moves, by player. */
  function MovesBy(ps: seq<Player>): (m: map<Player, seq<Line>>)
    reads ps
    ensures m.Keys == Elems(ps) && forall p :: p in ps ==> m[p] == p.moves
  {
    map p | p in ps :: p.moves
  }

  /** A board where all players draw at once: a round maps lines to the
      players who chose them, and the players whose lines completed a box
      form the continuing set. */
  class SimultaneousBoard {
    const board: Board
    var continuing: set<Player>

    ghost predicate Valid()
      reads this, board, board.players
    {
      board.Valid() && continuing <= Elems(board.players)
    }

    constructor(board: Board)
      ensures this.board == board && continuing == {}
    {
      this.board := board;
      continuing := {};
    }

    /** `SimultaneousBoard.__init__`: the board's validation, and nobody
        continuing. */
    static method Create(rows: int, cols: int, players: seq<Player>) returns (r: Result<SimultaneousBoard>)
      modifies players
      ensures r.Err? <==> rows <= 3 || cols <= 3 || !DistinctNames(players) || |players| < 2
      ensures r.Err? ==> r.error == ValueError
      ensures r.Ok? ==> fresh(r.value) && fresh(r.value.board) && r.value.Valid() && r.value.continuing == {}
      ensures r.Ok? ==> r.value.board.players == players && r.value.board.lines == {} && r.value.board.boxes == map[]
    {
      var b := Board.Create(rows, cols, players);
      if b.Err? {
        return Err(b.error);
      }
      var s := new SimultaneousBoard(b.value);
      return Ok(s);
    }

    /** `get_current_players`: all players when the continuing set is empty
        or as large as the player list, the continuing set otherwise. */
    function CurrentPlayers(): (r: set<Player>)
      reads this, board
      ensures r == Elems(board.players) || r == continuing
    {
      if |continuing| == 0 || |continuing| == |board.players| then Elems(board.players) else continuing
    }

    /** On a valid board the size test means "everybody continues": the
        players of the next round are all players when nobody continued and
        exactly the continuing ones otherwise, never nobody. */
    lemma CurrentPlayersMeaning()
      requires Valid()
      ensures CurrentPlayers() == if continuing == {} then Elems(board.players) else continuing
      ensures CurrentPlayers() != {} && CurrentPlayers() <= Elems(board.players)
    {
      DistinctNamesCard(board.players);
      NoDupCard(board.players);
      if |continuing| == |board.players| {
        SubsetCardEq(continuing, Elems(board.players));
      }
      assert board.players[0] in Elems(board.players);
    }

    /** `check_conflict_lines`: the lines of the round chosen by more than
        one player that complete no box, in order; it only reads the board. */
    method CheckConflictLines(round: seq<(Line, seq<Player>)>) returns (r: Result<seq<Line>>)
      ensures r == ConflictLines(board.maxRow, board.maxCol, board.lines, round)
    {
      var conflicts: seq<Line> := [];
      assert round[..0] == [];
      for i := 0 to |round|
        invariant ConflictLines(board.maxRow, board.maxCol, board.lines, round[..i]) == Ok(conflicts)
      {
        assert round[..i + 1][..i] == round[..i];
        var line := round[i].0;
        if |round[i].1| > 1 {
          var can := board.CanMakeBoxes(line);
          AvailableNewBoxesFails(board.maxRow, board.maxCol, board.lines, line);
          if can.Err? {
            ConflictLinesErrExtends(board.maxRow, board.maxCol, board.lines, round, i + 1);
            return Err(can.error);
          }
          NoNewBoxesIffNoneCompleted(board.maxRow, board.maxCol, board.lines, line);
          if !can.value {
            conflicts := conflicts + [line];
          }
        }
      }
      assert round[..|round|] == round;
      return Ok(conflicts);
    }

    /** The board after the entries `q` of a round were drawn in order,
        starting from lines `lines0`, boxes `boxes0` and the players'
        scores and moves `scores0` and `moves0`: the lines and boxes of the
        round so far, and every player credited and recorded for the
        entries that list it. */
    ghost predicate BoardAfter(lines0: set<Line>, boxes0: map<Box, seq<Player>>, scores0: map<Player, real>,
                               moves0: map<Player, seq<Line>>, q: seq<(Line, seq<Player>)>)
      reads board, board.players
    {
      && board.lines == lines0 + KeySet(q)
      && board.boxes == boxes0 + BoxesAdded(board.maxRow, board.maxCol, lines0, q)
      && forall p :: p in board.players ==>
           && p in scores0 && p.score == scores0[p] + CreditOf(board.maxRow, board.maxCol, lines0, q, p)
           && p in moves0 && p.moves == moves0[p] + MovesOf(q, p)
    }

    /** `BoardAfter`, with the players of the entries that completed a box
        continuing. */
    ghost predicate AfterRound(lines0: set<Line>, boxes0: map<Box, seq<Player>>, scores0: map<Player, real>,
                               moves0: map<Player, seq<Line>>, q: seq<(Line, seq<Player>)>)
      reads this, board, board.players
    {
      BoardAfter(lines0, boxes0, scores0, moves0, q) && continuing == ContinuingFrom(board.maxRow, board.maxCol, lines0, q)
    }

    /** The drawing half of one pass of the loop in `draw_line_players`:
        the entry's line is drawn for its players; the result says whether
        it completed a box. A rejected line changes nothing. */
    method EntryStep(line: Line, credited: seq<Player>) returns (r: Result<bool>)
      requires board.Valid()
      requires forall p :: p in credited ==> p in board.players
      modifies board, board.players
      ensures board.Valid()
      ensures r.Err? <==> !Accepts(board.maxRow, board.maxCol, old(board.lines), line)
      ensures r.Err? ==> r.error == ValueError
      ensures r.Err? ==> board.lines == old(board.lines) && board.boxes == old(board.boxes)
      ensures r.Err? ==> forall p :: p in board.players ==> p.score == old(p.score) && p.moves == old(p.moves)
      ensures r.Ok? ==> var won := CompletedBy(board.maxRow, board.maxCol, old(board.lines), line);
        && r.value == (won != {})
        && board.lines == old(board.lines) + {line}
        && board.boxes == old(board.boxes) + Claims(won, credited)
        && forall p :: p in board.players ==>
             && p.score == old(p.score) + Credit(|won|, |credited|, multiset(credited)[p])
             && p.moves == old(p.moves) + Repeat(line, multiset(credited)[p])
    {
      CheckLineAxisIffGridEdge(board.maxRow, board.maxCol, line);
      assert forall i :: 0 <= i < |credited| ==> credited[i] in board.players;
      var added := board.AddNewLinePlayers(line, credited);
      if added.Err? {
        return Err(added.error);
      }
      assert added.value.Keys == CompletedBy(board.maxRow, board.maxCol, old(board.lines), line);
      return Ok(|added.value| > 0);
    }

    /** The board's part of the loop of `draw_line_players` at entry `i`:
        after the entries before it, drawing entry `i` either leaves the
        board as it was and fails, or extends the round's effect on the
        board by that entry; the result says whether it completed a box. */
    method DrawEntry(ghost lines0: set<Line>, ghost boxes0: map<Box, seq<Player>>, ghost scores0: map<Player, real>,
                     ghost moves0: map<Player, seq<Line>>, round: seq<(Line, seq<Player>)>, i: int) returns (r: Result<bool>)
      requires 0 <= i < |round|
      requires board.Valid()
      requires forall p :: p in round[i].1 ==> p in board.players
      requires BoardAfter(lines0, boxes0, scores0, moves0, round[..i])
      modifies board, board.players
      ensures board.Valid()
      ensures r.Err? <==> !Accepts(board.maxRow, board.maxCol, lines0 + KeySet(round[..i]), round[i].0)
      ensures r.Err? ==> r.error == ValueError && BoardAfter(lines0, boxes0, scores0, moves0, round[..i])
      ensures r.Ok? ==> r.value == (CompletedBy(board.maxRow, board.maxCol, lines0 + KeySet(round[..i]), round[i].0) != {})
      ensures r.Ok? ==> BoardAfter(lines0, boxes0, scores0, moves0, round[..i + 1])
    {
      var line := round[i].0;
      var credited: seq<Player> := round[i].1;
      DrawStep(board.maxRow, board.maxCol, lines0, boxes0, round, i, board.lines, board.boxes);
      r := EntryStep(line, credited);
      if r.Err? {
        return;
      }
      forall p | p in board.players
        ensures p.score == scores0[p] + CreditOf(board.maxRow, board.maxCol, lines0, round[..i + 1], p)
        ensures p.moves == moves0[p] + MovesOf(round[..i + 1], p)
      {
        CreditStep(board.maxRow, board.maxCol, lines0, round, i, p, moves0[p]);
      }
    }

    /** `draw_line_players`: clears the continuing set, then draws each
        entry's line for its players in order, adding the entry's players to
        the continuing set when the line completed a box (the set is built
        up locally and stored when the method returns, which nothing in
        between can observe). The round is
        drawn in full exactly when every entry is accepted after the ones
        before it; otherwise the entries before the first rejected one stay
        drawn and `ValueError` is raised. */
    method DrawLinePlayers(round: seq<(Line, seq<Player>)>) returns (r: Outcome)
      requires Valid()
      requires forall i, p :: 0 <= i < |round| && p in round[i].1 ==> p in board.players
      modifies this, board, board.players
      ensures Valid()
      ensures r.Pass? <==> Accepted(board.maxRow, board.maxCol, old(board.lines), round)
      ensures r.Pass? ==>
        AfterRound(old(board.lines), old(board.boxes), old(Scores(board.players)), old(MovesBy(board.players)), round)
      ensures r.Fail? ==> r.error == ValueError
      ensures r.Fail? ==>
        exists k ::
          && 0 <= k < |round|
          && Accepted(board.maxRow, board.maxCol, old(board.lines), round[..k])
          && !Accepts(board.maxRow, board.maxCol, old(board.lines) + KeySet(round[..k]), round[k].0)
          && AfterRound(old(board.lines), old(board.boxes), old(Scores(board.players)), old(MovesBy(board.players)), round[..k])
    {
      ghost var lines0 := board.lines;
      ghost var boxes0 := board.boxes;
      ghost var scores0 := Scores(board.players);
      ghost var moves0 := MovesBy(board.players);
      var players: set<Player> := {};
      assert round[..0] == [];
      assert boxes0 + map[] == boxes0;
      forall p | p in board.players
        ensures p.score == scores0[p] + CreditOf(board.maxRow, board.maxCol, lines0, [], p)
        ensures p.moves == moves0[p] + MovesOf([], p)
      {
        assert p.moves + [] == p.moves;
      }
      for i := 0 to |round|
        invariant board.Valid()
        invariant Accepted(board.maxRow, board.maxCol, lines0, round[..i])
        invariant BoardAfter(lines0, boxes0, scores0, moves0, round[..i])
        invariant players == ContinuingFrom(board.maxRow, board.maxCol, lines0, round[..i])
        invariant players <= Elems(board.players)
      {
        var credited: seq<Player> := round[i].1;
        ContinuingStep(board.maxRow, board.maxCol, lines0, round, i);
        AcceptedStep(board.maxRow, board.maxCol, lines0, round, i);
        var grew := DrawEntry(lines0, boxes0, scores0, moves0, round, i);
        if grew.Err? {
          RejectedEntry(board.maxRow, board.maxCol, lines0, round, i);
          continuing := players;
          return Fail(grew.error);
        }
        if grew.value {
          players := players + Elems(credited);
        }
      }
      continuing := players;
      assert round[..|round|] == round;
      return Pass;
    }
  }
}
