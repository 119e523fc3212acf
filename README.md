# Dots and boxes: a verified model of the game engine

This project models the engine of a dots-and-boxes game in Dafny, in three
layers.

- **Geometry** (`game_utils.py`). Grid points, and lines between two distinct
  points stored with the smaller coordinate sum first. It also recognises a
  box from its four corners or its four edges.
- **Board bookkeeping** (`game_core.py`).
  - A player holds a score, a list of moves and the board it joined.
  - The board validates and records a drawn line, and finds the cells the
    line completes (none, one or two).
  - Each player who drew the line is credited a fractional share of those
    cells.
  - The board decides when the game is over and who won.
  - There are two turn disciplines. A turn-based board keeps a
    current-player index that moves on unless a cell was completed. A
    simultaneous board keeps a set of continuing players and detects
    conflicting choices in a round.
- **Computer move policies** (`game_players.py`). A computer player lists
  the undrawn unit edges and scores each edge one ply ahead. The smart
  player picks an edge with the highest score; the random player picks any
  listed edge.

Layout, one module per file:

- `Wrappers`: `Result`, `Outcome` and the Python exception kinds.
- `Seqs`: duplicate-freedom and de-duplication (`set(list)`).
- `Geometry`: game_utils.py.
- `Grid`: enumerates the unit edges and cells of a grid in the players'
  loop order, and counts them.
- `Rules`: the read-only board queries of game_core.py, as functions.
- `Ranking`: the winner ranking.
- `Rounds`: the effect of a round of simultaneous moves, entry by entry.
- `Core`: the mutable classes of game_core.py.
- `Players`: game_players.py.

Objects whose fields change in place are classes: `Player`, `Board`,
`TurnBasedBoard` and `SimultaneousBoard`. `Player` has no invariant of its
own; its methods state their effect on its fields directly. The three board
classes each carry a `Valid()` invariant (the two turn disciplines add
theirs to the `Board` one):

- the board size is valid;
- the players have distinct names and have all joined this board;
- only grid edges are drawn;
- the recorded boxes are exactly the cells whose four edges are drawn;
- on a turn-based board, the current index names a player (chosen in range
  by `__init__`, kept in range by `_next_turn`);
- on a simultaneous board, the continuing players are players of the board.

A subclass (`TurnBasedBoard(Board)`) becomes a class holding its `Board`.
Exceptions become `Err`/`Fail` results carrying the exception kind. The
loops of the source are methods with loops, each proved against a
specification function.

Where the code and the informal description of the game disagree, the model
follows the code:

- `check_line` (game_core.py:50-52) is not a unit-edge test. It accepts
  diagonal lines such as (1,0)-(0,2); they are rejected later, by
  `generate_opposite_lines`. See `Rules.CheckLineAcceptsDiagonal`.
- `Box.from_points` (game_utils.py:102-113) is not a unit-square test. It
  accepts the corners of any axis-aligned square. See
  `Geometry.FromPointsAcceptsAnySquare`.
- Line equality is equality of the ordered endpoint pair. When the two sums
  tie, the argument order decides the stored order, so `Line(p, q)` and
  `Line(q, p)` differ. See `Geometry.NewLineOrderedOnTie`.

Scores are Dafny `real`s, so the credit `len(new_boxes) / len(players)` is
exact. The 0.01 tolerance of `get_winner` is modelled as written, as
`|a - b| < 0.01` on reals (`Ranking.Close`).

Choosing a computer move only reads the board. `Players.AvailableLines`,
`Players.CalculateLineScore`, `Players.SmartInTurn` and
`Players.RandomInTurn` have no `modifies` clause, so they change no line,
box, score or turn state.

## Model

| member | source | states |
|---|---|---|
| Geometry.Point.Offset | game_utils.py:26-27 | the new point differs from the old by exactly (dx, dy) |
| Geometry.Canonical | game_utils.py:52-57 | the stored pair is the two points; the smaller sum comes first, and on a tie the second argument comes first |
| Geometry.NewLine | game_utils.py:44-57 | fails with `ValueError` exactly when the two points are equal; otherwise the line's endpoints are the two points |
| Geometry.NewLineSymmetric | game_utils.py:52-57 | when the sums differ, `Line(p, q) == Line(q, p)` and the first endpoint has the strictly smaller sum |
| Geometry.NewLineOrderedOnTie | game_utils.py:52-57 | when the sums tie, the two argument orders give two different lines |
| Geometry.LineOffset | game_utils.py:62-63 | both endpoints are translated by (dx, dy); their order is kept when the sums differ and swapped when they tie |
| Geometry.LinkPoint1 | game_utils.py:73-74 | the line joining the two first endpoints; fails exactly when they coincide |
| Geometry.LinkPoint2 | game_utils.py:76-77 | the line joining the two second endpoints; fails exactly when they coincide |
| Geometry.AxisExclusive | game_utils.py:79-83 | no line is both vertical and horizontal; a line changing both coordinates is neither; every line is one of those three kinds |
| Geometry.InsertBySum | game_utils.py:107 | one insertion step of the stable sort by coordinate sum: the result holds the inputs plus the new point |
| Geometry.InsertBySumSorted | game_utils.py:107 | inserting into a sequence sorted by sum keeps it sorted |
| Geometry.SortBySum | game_utils.py:107 | `sorted(..., key=x + y)`: the result is sorted by sum and is a permutation of the input |
| Geometry.FromPoints | game_utils.py:102-113 | errors are `ValueError`; a box is named by an input point whose sum is strictly below every other input point's |
| Geometry.FromPointsNeedsFour | game_utils.py:104-106 | fewer or more than four distinct points raise `ValueError` |
| Geometry.SortedDistinct | game_utils.py:104-107 | the points sorted are each distinct input point once, sorted by sum |
| Geometry.FromPointsSorted | game_utils.py:104-113 | with four distinct points, the result is the box at the smallest point exactly when the sorted sums follow s0 < s1 == s2 < s3 with equal gaps, and `ValueError` otherwise |
| Geometry.FromPointsSound | game_utils.py:107-110 | every box returned comes from four points in that diamond pattern, with the box at the smallest-sum point |
| Geometry.FromPointsComplete | game_utils.py:107-110 | four points in the diamond pattern always give the box at the smallest-sum point, whatever the order and repetitions of the input |
| Geometry.SortedDiamond | game_utils.py:107-110 | four points in the pattern, sorted by sum, start with the smallest one and keep the pattern |
| Geometry.FromPointsSetOnly | game_utils.py:104 | the result depends only on the set of input points |
| Geometry.FromPointsAcceptsAnySquare | game_utils.py:108-110 | the corners of any axis-aligned square of side k >= 1 are accepted as the box at its top-left corner |
| Geometry.Endpoints | game_utils.py:120 | the endpoints of the lines, two per line; a point is listed exactly when it is an endpoint of some line |
| Geometry.FromLines | game_utils.py:115-120 | `ValueError` unless there are exactly four distinct lines; otherwise `from_points` of their endpoints |
| Geometry.CornersDiamond | game_utils.py:108-110 | the four corners of a unit cell form the diamond pattern, smallest at the top-left |
| Geometry.FromLinesCell | game_utils.py:115-120 | the four edges of cell (x, y), in any order and with any repetitions, give `Box(x, y)` |
| Grid.GridEdgesMembers | game_players.py:20-29 | the two nested loop passes enumerate exactly the unit edges between grid points |
| Grid.RowEdgesMembers | game_players.py:20-24 | the first pass lists exactly the edges (x, y)-(x, y+1) inside the grid |
| Grid.ColEdgesMembers | game_players.py:25-29 | the second pass lists exactly the edges (x, y)-(x+1, y) inside the grid |
| Grid.RowEdgesNoDup | game_players.py:20-24 | the first pass repeats no edge and lists R * (C - 1) of them |
| Grid.ColEdgesNoDup | game_players.py:25-29 | the second pass repeats no edge and lists C * (R - 1) of them |
| Grid.GridEdgesCount | game_core.py:70 | there are (R - 1) * C + (C - 1) * R distinct grid edges, the total `is_game_finish` uses |
| Grid.GridCellsMembers | game_core.py:60-61 | the enumerated cells are exactly those whose corner lies in rows 0 .. R - 2 and columns 0 .. C - 2 |
| Grid.GridCellsCount | game_core.py:71 | there are (C - 1) * (R - 1) distinct cells, the total `is_game_finish` uses |
| Grid.CellEdgesInGrid | game_core.py:60-61 | the four edges of a grid cell are grid edges |
| Grid.EdgeCell | game_core.py:69-76 | on a grid at least two points each way, every grid edge belongs to some grid cell |
| Rules.CheckLine | game_core.py:50-52 | true exactly when both endpoints are on the grid and the second endpoint's sum is the first's plus one |
| Rules.HasLine | game_core.py:54-55 | true exactly when the line is drawn and passes `check_line`; in particular a drawn grid edge is always found |
| Rules.HasBox | game_core.py:60-61 | true exactly when the box is a grid cell and is recorded |
| Rules.CheckLineAxisIffGridEdge | game_core.py:50-52 | `check_line` plus the vertical/horizontal test accepts exactly the unit grid edges |
| Rules.CheckLineAcceptsDiagonal | game_core.py:50-52 | `check_line` accepts the diagonal (1,0)-(0,2) on a 4 x 4 board |
| Rules.OppositeLines | game_core.py:78-86 | fails with `ValueError` exactly on lines that are neither vertical nor horizontal; otherwise the two parallel lines one step to either side |
| Rules.LinksOfCell | game_core.py:93 | for facing edges of a cell, the link lines are the cell's other two edges; the three other lines are valid exactly when the cell is on the grid |
| Rules.BoxViaCell | game_core.py:91-95 | one opposite line contributes its cell exactly when the cell is on the grid and its other three edges are drawn |
| Rules.CellsBeside | game_core.py:78-86 | a unit axis line lies between exactly two distinct cells, each facing it across one opposite line |
| Rules.BoxesViaTwo | game_core.py:91-96 | the loop over two opposite lines returns the two contributions in order |
| Rules.AvailableNewBoxesBeside | game_core.py:88-96 | on a unit axis line, the result is the contributions of the two cells beside it |
| Rules.NonUnitFindsNothing | game_core.py:88-96 | an axis line longer than one step completes no cell and finds none |
| Rules.AvailableNewBoxesExact | game_core.py:88-96 | on an axis line, finds exactly the cells the line completes: at most two, none repeated |
| Rules.AvailableNewBoxesFails | game_core.py:85-89 | fails exactly on lines that are neither vertical nor horizontal, with `ValueError` |
| Rules.CompletedCellsGrow | game_core.py:113-115 | a new line adds to the completed cells exactly the cells it completes, none of which was complete before |
| Rules.CompletesAtMostTwo | game_core.py:88-96 | a new line completes at most two cells |
| Rules.HasBoxIffComplete | game_core.py:60-61 | when the recorded boxes are the completed cells, `has_box` is "a grid cell with all four edges drawn" |
| Rules.ConflictOfMeaning | game_core.py:163 | an entry conflicts exactly when more than one player chose a line that completes no box; the test fails exactly on a shared non-axis line |
| Rules.ConflictLinesExact | game_core.py:160-165 | conflict detection fails exactly when testing some entry fails; otherwise it returns exactly the lines of the conflicting entries |
| Rules.ConflictLinesErrExtends | game_core.py:160-165 | once conflict detection fails on a prefix of the round, it fails on the whole round with the same error |
| Rules.NoNewBoxesIffNoneCompleted | game_core.py:98-99 | on axis lines, `can_make_boxes` is false exactly when no cell has its other three edges drawn |
| Rules.LinesFull | game_core.py:70-72 | with only grid edges drawn, the line count reaches its total exactly when every grid edge is drawn |
| Rules.BoxesFull | game_core.py:71-73 | the completed-cell count reaches its total exactly when every grid edge is drawn |
| Rules.FinishConsistent | game_core.py:74-75 | with consistent lines and boxes, "all lines" and "all boxes" always agree, so the inconsistency error never arises |
| Ranking.InsertDesc | game_core.py:45 | one insertion step of the stable descending sort: sorted, a permutation plus the new entry, lower bounds kept |
| Ranking.SortDesc | game_core.py:45 | `sorted(..., reverse=True)`: sorted in descending score order and a permutation of the input |
| Ranking.MaxScore | game_core.py:45-46 | a score some entry has, and no entry exceeds |
| Ranking.CloseToCount | game_core.py:46 | the filter keeps each entry as often as it occurs if its score is within 0.01 of the top, and drops it otherwise |
| Ranking.CloseToSorted | game_core.py:46 | filtering keeps the descending order and keeps only input entries |
| Ranking.SortedFirstIsMax | game_core.py:45-46 | the first sorted entry holds the highest score |
| Ranking.WinnersExact | game_core.py:43-46 | the winners are non-empty, in descending order, and are exactly the entries within 0.01 of the highest score, with their multiplicities |
| Ranking.WinnerMember | game_core.py:46 | an entry is a winner exactly when it is an entry within 0.01 of the highest score |
| Ranking.WinnersDistinct | game_core.py:45-46 | when no player appears twice among the entries, none appears twice among the winners |
| Rounds.CreditTimes | game_core.py:116-117 | a player listed `times` times gets `times` shares; when every listing is counted, the shares add up to exactly the new boxes |
| Rounds.Claims | game_core.py:101-105 | `dict(zip(new_boxes, [players] * n))`: exactly the given cells, each mapped to the credited players |
| Rounds.DrawKeepsConsistent | game_core.py:107-119 | drawing an accepted line and claiming the cells it completes keeps the boxes equal to the completed cells |
| Rounds.AcceptedPrefix | game_core.py:169-170 | every prefix of an accepted round is accepted |
| Rounds.BoxesAddedExact | game_core.py:167-171 | an accepted round claims exactly the cells complete after it and not before, and draws only new lines |
| Rounds.RoundStep | game_core.py:169-171 | one more entry adds its line, the cells it completes for its players, and its players to the continuing set when it completed a cell |
| Rounds.ContinuingStep | game_core.py:170-171 | one more entry adds its players to the continuing set exactly when its line completes a cell |
| Rounds.AcceptedStep | game_core.py:169-170 | one more entry is accepted exactly when the earlier ones are and its line is accepted after theirs |
| Rounds.RejectedEntry | game_core.py:169-170 | a round with a rejected entry after an accepted prefix is not accepted |
| Rounds.CreditStep | game_core.py:116-118 | one more entry credits each player its share once per listing, and appends the line once per listing to the player's earlier moves |
| Rounds.DrawStep | game_core.py:169-170 | drawing entry i extends the board from the round's first i entries to its first i + 1 |
| Core.Player.constructor | game_core.py:175-179 | a new player has its name, score 0, no moves and no board |
| Core.Player.JoinGame | game_core.py:181-182 | sets the board, and leaves score and moves unchanged |
| Core.Player.GameBoard | game_core.py:184-188 | the board once joined, `SystemError` before |
| Core.Player.Score | game_core.py:198-202 | the score once joined, `SystemError` before |
| Core.Player.Reset | game_core.py:204-206 | score 0 and no moves; the board is kept |
| Core.Player.AddScore | game_core.py:208-211 | adds `step` once joined; `SystemError` and no change before |
| Core.Player.AddMoves | game_core.py:213-216 | appends the line once joined; `SystemError` and no change before |
| Core.DistinctNamesCard | game_core.py:32 | `len(players) == len(set(players))` on name-keyed players is "no name repeats", and then no player object repeats |
| Core.Board.constructor | game_core.py:13-19 | the size and players are as given; no lines and no boxes |
| Core.Board.Create | game_core.py:10-35 | `ValueError` exactly when rows <= 3, cols <= 3, a name repeats or there are fewer than two players; otherwise a valid empty board that every player has joined |
| Core.Board.BoxViaOpposite | game_core.py:92-95 | the body of the `_make_available_new_boxes` loop for one opposite line, proved equal to its specification function |
| Core.Board.MakeAvailableNewBoxes | game_core.py:88-96 | the loop returns exactly the specification's result (see `Rules.AvailableNewBoxesExact`) |
| Core.Board.CanMakeBoxes | game_core.py:98-99 | `ValueError` exactly on non-axis lines; otherwise whether the line completes some cell |
| Core.Board.AddNewLinePlayers | game_core.py:107-119 | `ValueError` with nothing changed exactly when the line is drawn, fails `check_line`, or is not vertical or horizontal. Otherwise only these change: the line is added, its completed cells are claimed for the credited players, and each credited player gains one share and one move per listing |
| Core.Board.AddNewLineSingle | game_core.py:107-119 | with a single credited player, the line is accepted exactly when it is a new grid edge; the player gains one point per completed cell and one move; nobody else changes |
| Core.Board.Claim | game_core.py:113-118 | on an accepted line, records it, claims its completed cells and credits the players, keeping `Valid()` |
| Core.Board.Record | game_core.py:113-115 | records the line and its completed cells, keeping `Valid()`, with no player changed |
| Core.Board.IsGameFinish | game_core.py:69-76 | fails with `SystemError` exactly when "all (R - 1) * C + (C - 1) * R lines drawn" and "all (R - 1) * (C - 1) boxes recorded" disagree; otherwise the result is whether all lines are drawn |
| Core.Board.FinishIffAllDrawn | game_core.py:69-76 | on a valid board it never fails, and reports the game finished exactly when every grid edge is drawn |
| Core.Board.NotFinishedWhenEmpty | game_core.py:69-76 | a valid board with no lines, as every board starts, is not finished |
| Core.Board.GetWinner | game_core.py:43-48 | errors are `SystemError` |
| Core.Board.WinnersOfBoard | game_core.py:43-48 | `SystemError` while some edge is undrawn. Afterwards: a non-empty list, no player twice, descending score order, exactly the players within 0.01 of the top score |
| Core.Board.Reset | game_core.py:37-41 | the corrected reset: no lines (an empty set), no boxes, every player at score 0 with no moves, `Valid()` kept |
| Core.StoreAfterResetAsWritten | game_core.py:38 | reset as written stores an empty list, holding no line |
| Core.DrawOnStoreAsWritten | game_core.py:80-115 | `ValueError` for a stored line, one failing `check_line`, or a non-axis line (rejected by `generate_opposite_lines`, game_core.py:85, before `.add`); otherwise a set gains exactly the line, and a list raises `AttributeError` |
| Core.ResetBreaksDrawAsWritten | game_core.py:37-38 | after reset as written, every grid edge fails with `AttributeError` |
| Core.DrawAfterReset | game_core.py:37-38 | with an empty set, every grid edge is accepted and becomes the only line; on any set, a grid edge is accepted exactly when not yet drawn |
| Core.WinnerEntries | game_core.py:45-46 | every winner entry pairs a player of the board with that player's score |
| Core.WinnersOfPlayers | game_core.py:43-46 | the ranked players: non-empty, none twice, descending by score, exactly those within 0.01 of the top score |
| Core.CreditOnce | game_core.py:117-118 | one pass of the crediting loop adds the share to the score and the line to the moves |
| Core.CreditNext | game_core.py:116-118 | one more credited listing keeps "each player seen k times has k shares and k copies of the line" |
| Core.CreditAll | game_core.py:116-118 | each credited player gains one share and one move per listing |
| Core.CreditPlayers | game_core.py:116-118 | across all players, each gains one share and one move per listing in `credited`, and unlisted players change nothing |
| Core.Following | game_core.py:134-138 | the next index is again in range |
| Core.FollowingIsSuccessor | game_core.py:134-138 | the next index is (i + 1) mod n, and it wraps to 0 exactly from the last index |
| Core.Advance | game_core.py:133-141 | k turns on from an index in range stays in range |
| Core.AdvanceRotates | game_core.py:133-141 | k <= n turns on is i + k wrapped once; n turns bring the index back |
| Core.TurnBasedBoard.constructor | game_core.py:123-125 | the board and the starting index are as given |
| Core.TurnBasedBoard.Create | game_core.py:122-125 | the board's validation errors exactly; otherwise a valid empty board whose index names a player |
| Core.TurnBasedBoard.CurrentPlayer | game_core.py:127-131 | the player at the index when it is in range, `ValueError` otherwise; a valid turn-based board always has its index in range, so the error never occurs there |
| Core.TurnBasedBoard.NextTurn | game_core.py:133-141 | in range: the index moves to its successor mod n, still in range, and that player is returned. Out of range: `ValueError` with the index unchanged. A valid turn-based board stays valid. Lines, boxes, scores and moves never change |
| Core.TurnBasedBoard.DrawLine | game_core.py:143-146 | on a valid turn-based board, whose index always names a player: fails with nothing changed exactly when the line is not a new grid edge. Otherwise only the current player is credited, and the index moves to the next player exactly when no cell was completed, staying in range |
| Core.SimultaneousBoard.constructor | game_core.py:150-152 | the board is as given and nobody is continuing |
| Core.SimultaneousBoard.Create | game_core.py:149-152 | the board's validation errors exactly; otherwise a valid empty board with nobody continuing |
| Core.SimultaneousBoard.CurrentPlayers | game_core.py:154-158 | either all players or the continuing set |
| Core.SimultaneousBoard.CurrentPlayersMeaning | game_core.py:154-158 | on a valid board: all players when nobody continues, exactly the continuing players otherwise, and never nobody |
| Core.SimultaneousBoard.CheckConflictLines | game_core.py:160-165 | the loop returns exactly the specification's result (see `Rules.ConflictLinesExact`) and changes nothing |
| Core.SimultaneousBoard.EntryStep | game_core.py:169-171 | drawing one entry: rejected with nothing changed, or drawn and credited; reports whether it completed a cell |
| Core.SimultaneousBoard.DrawEntry | game_core.py:169-171 | the board after the first i entries becomes the board after the first i + 1, or stays as it was with `ValueError` |
| Core.SimultaneousBoard.DrawLinePlayers | game_core.py:167-171 | succeeds exactly when every entry is accepted after the earlier ones, ending with every entry's effect and the continuing set rebuilt. Otherwise `ValueError`: the entries before the first rejected one stay drawn and only their players continue |
| Players.Undrawn | game_players.py:23-24 | filtering keeps at most as many edges as it is given |
| Players.UndrawnMembers | game_players.py:23-24 | an edge is kept exactly when it is listed and `has_line` is false for it |
| Players.UndrawnConcat | game_players.py:20-29 | filtering two passes one after the other is filtering their concatenation |
| Players.UndrawnNoDup | game_players.py:23-24 | filtering a duplicate-free list gives a duplicate-free list |
| Players.Available | game_players.py:17-30 | at most as many lines as there are grid edges |
| Players.AvailableMeaning | game_players.py:17-30 | exactly the undrawn grid edges, none twice, the first pass's before the second's; each passes `check_line` and is not drawn |
| Players.RowStep | game_players.py:21-24 | one inner-loop step of the first pass appends the edge exactly when it is undrawn |
| Players.ColStep | game_players.py:26-29 | one inner-loop step of the second pass appends the edge exactly when it is undrawn |
| Players.UndrawnRowEdges | game_players.py:20-24 | the first loop nest yields exactly the undrawn edges of the first pass, in loop order |
| Players.AppendUndrawnColEdges | game_players.py:25-29 | the second loop nest appends exactly the undrawn edges of the second pass, in loop order |
| Players.AvailableLines | game_players.py:17-30 | `SystemError` before joining a game; otherwise exactly `Players.Available` of the board |
| Players.Drawn | game_players.py:54 | at most the number of lines given; all of them exactly when every one is drawn |
| Players.SideValue | game_players.py:55-60 | the per-side value lies in [-1, 3], is 3 exactly when all three lines are drawn, and is at most 1 otherwise |
| Players.OppositesLink | game_players.py:49-53 | an axis line has two opposite lines, and its link lines to them never fail |
| Players.SideOfCell | game_players.py:51-60 | the side value across a cell is 3 exactly when the cell is on the grid with its other three edges drawn |
| Players.SidesOfOne | game_players.py:51-60 | the score of a single side is that side's value |
| Players.SidesOfTwo | game_players.py:51-60 | the score of two sides is the sum of their values |
| Players.SidesStep | game_players.py:51-60 | one loop step adds that opposite line's side value to the running score |
| Players.SidesErrExtends | game_players.py:51-53 | a failure in a prefix of the opposite lines is the failure of the whole score |
| Players.UnitLineScore | game_players.py:47-61 | a unit axis line scores in [-2, 6]: at least 2 when it completes a cell, at most 2 otherwise |
| Players.LongLineScore | game_players.py:47-61 | a longer axis line scores in [-2, 2] and completes nothing |
| Players.LineScoreBounds | game_players.py:47-61 | every axis line scores in [-2, 6]: at least 2 if it completes a cell, at most 2 if not |
| Players.CalculateLineScore | game_players.py:47-61 | `SystemError` before joining a game; otherwise the loop's score equals `Players.LineScore` |
| Players.TopScore | game_players.py:66-67 | a score some scored line has, and none exceeds |
| Players.WithScore | game_players.py:67 | exactly the scored lines whose score is the given one |
| Players.AvailableMember | game_players.py:17-30 | an available line is an undrawn grid edge, vertical or horizontal |
| Players.ScoreLines | game_players.py:65 | pairs each available line, in order, with its score |
| Players.ScoresCoverFree | game_players.py:65-67 | with a bound on the scores and a pick among them, every available line has a score within the bound, and the pick is an available line with its own score |
| Players.BestFreeLine | game_players.py:63-69 | a pick with the top score is an available line whose score no available line exceeds, and that score is at least 2 when some available line completes a cell |
| Players.SmartInTurn | game_players.py:63-69 | `SystemError` before joining; `IndexError` exactly when no line is available. Otherwise an available line of maximum score, scoring at least 2 when some available line completes a cell |
| Players.RandomInTurn | game_players.py:39-42 | `SystemError` before joining; `IndexError` exactly when no line is available; otherwise some available line, an undrawn grid edge |

## Left out

- The user interface (game_ui.py), the game loop and input retries (game_manager.py), and `HumanPlayer.in_turn`: console I/O and orchestration around it.
- Default arguments: `Player.add_score(step=1.0)` and `Point.offset(offset_x=0, offset_y=0)` become required parameters (`Core.Player.AddScore`, `Geometry.Point.Offset`); Dafny has no default arguments, and every call passes both values.
- Randomness: the starting index of a turn-based board is any index in range (`:|`). Shuffling and taking the first element is a nondeterministic pick from the list.
- Core.Board.Reset: models reset as restoring an empty set, not the list the code assigns; the as-written behaviour is under "## Findings".
- `Player.reset` assigns the integer 0; the model uses the real 0.0, since Python compares and adds the two alike.
- Python floats: scores are exact reals, so float rounding in the credit and in the 0.01 comparison is not modelled.
- `__hash__`, `__eq__`, `__repr__`, `__str__`, `board_name`, `player_type`, `player_name`: presentation and hashing details. Players are objects identified by name: the board requires distinct names, and then distinct names mean distinct objects (`Core.DistinctNamesCard`). Python's cross-class `NotImplemented` equality is not modelled.
- `has_points_line` and `find_box_players`: convenience lookups only the interface uses.
- `PlayerType`, `GameType` and `is_computer_players`: enumerations and a type test used by the game loop.
- Core.Board.AddNewLinePlayers: requires every credited player to be a player of this board. The code accepts any joined players, but a non-member's score could then change outside the board's invariant.
- Core.SimultaneousBoard.CurrentPlayers: returns a set. The code returns the player list in the first case, so the list's order and repetitions are not modelled.
- Core.SimultaneousBoard.DrawLinePlayers: builds the continuing set in a local variable and stores it on return, whether the round completes or raises. The code updates the field in place, and nothing can observe it in between.
- Core.SimultaneousBoard.DrawLinePlayers and Core.SimultaneousBoard.CheckConflictLines: take the round's line-to-players mapping as a sequence of entries in the dictionary's insertion order. Nothing requires the lines to be distinct; a repeated line is rejected as already drawn, a case a dictionary cannot produce.
- Players.SmartInTurn: finds the top score and keeps the lines with it, instead of sorting. The set of lines picked from is the same, and the pick is nondeterministic either way.
- Players.ScoreLines: requires vertical or horizontal lines, which every available line is (`Players.AvailableMember`). Scoring a diagonal would raise `ValueError`, which cannot happen from `in_turn`.
- Players.CalculateLineScore: its link-line errors are unreachable for vertical and horizontal lines (`Players.OppositesLink`), so the method has no branch for them.
- Core.Board.GetWinner: its own contract states only the error kind; what it returns is stated by `Core.Board.WinnersOfBoard`.
- Geometry.Point.InRange and Geometry.LineInRange: predicates whose definitions are the conditions at game_utils.py:23-24 and game_utils.py:59-60, with no contract of their own; `Rules.CheckLine` and `Rules.HasBox` state the bounds they give.

## Findings

| source | as written | input that shows it | evidently intended | confidence | as-written member | corrected member |
|---|---|---|---|---|---|---|
| game_core.py:37-41 | `reset` assigns a list to `self.lines`, and `_add_new_line_players` then calls `self.lines.add(line)` (game_core.py:115), which a list does not have | reset a 4 x 4 board, then draw the grid edge (0,0)-(0,1): `AttributeError`, so no line can be drawn and the game can never finish | reset restores an empty set, after which every grid edge can be drawn again | not executed | Core.ResetBreaksDrawAsWritten | Core.DrawAfterReset |
