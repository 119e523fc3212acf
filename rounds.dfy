/** What a round of simultaneous moves does to the board, entry by entry.
    A round is the ordered mapping from each chosen line to the players who
    chose it; the functions here follow the entries in order, each seeing
    the lines drawn by the entries before it. */
module Rounds {
  import opened Seqs
  import opened Geometry
  import opened Grid
  import opened Rules

  /** The lines of the round's entries. */
  function KeySet<P>(round: seq<(Line, seq<P>)>): set<Line> {
    if round == [] then {} else KeySet(round[..|round| - 1]) + {round[|round| - 1].0}
  }

  /** `len(new_boxes) / len(players)`: one listing's share of `boxes` new
      boxes among `credited` listings; no share when nobody is listed. */
  function Share(boxes: nat, credited: nat): real {
    if credited == 0 then 0.0 else boxes as real / credited as real
  }

  /** How much a player's score rises when `credited` listings share `boxes`
      boxes and the player is listed `times` times among them: one share
      per listing, added one after the other. */
  function Credit(boxes: nat, credited: nat, times: nat): real {
    if times == 0 then 0.0 else Credit(boxes, credited, times - 1) + Share(boxes, credited)
  }

  /** The shares sum to `times` shares; so a player listed once among
      `credited` gets `boxes / credited`, and the listings together get
      exactly `boxes`. */
  lemma {:induction false} CreditTimes(boxes: nat, credited: nat, times: nat)
    ensures Credit(boxes, credited, times) == times as real * Share(boxes, credited)
    ensures credited > 0 && times == credited ==> Credit(boxes, credited, times) == boxes as real
  {
    if times > 0 {
      CreditTimes(boxes, credited, times - 1);
    }
  }

  /** `_add_new_line_players` accepts `l`: it is new, and a unit edge of the grid. */
  predicate Accepts(rows: int, cols: int, lines: set<Line>, l: Line) {
    l !in lines && IsGridEdge(rows, cols, l)
  }

  /** The drawn lines are grid edges, the claimed boxes are exactly the
      completed cells, and each box is credited to players of the game. */
  ghost predicate Consistent<P>(rows: int, cols: int, lines: set<Line>, boxes: map<Box, seq<P>>, players: seq<P>) {
    && (forall l :: l in lines ==> IsGridEdge(rows, cols, l))
    && boxes.Keys == CompletedCells(rows, cols, lines)
    && (forall c :: c in boxes ==> Elems(boxes[c]) <= Elems(players))
  }

  /** The cells `cells` claimed for the players `credited`. */
  function Claims<P>(cells: set<Box>, credited: seq<P>): (m: map<Box, seq<P>>)
    ensures m.Keys == cells
    ensures forall c :: c in m ==> m[c] == credited
  {
    map c | c in cells :: credited
  }

  /** Drawing an accepted line and claiming the cells it completes for
      players of the game keeps the lines and boxes consistent. */
  lemma DrawKeepsConsistent<P>(rows: int, cols: int, lines: set<Line>, boxes: map<Box, seq<P>>,
                               players: seq<P>, line: Line, newBoxes: map<Box, seq<P>>)
    requires Consistent(rows, cols, lines, boxes, players)
    requires Accepts(rows, cols, lines, line)
    requires newBoxes.Keys == CompletedBy(rows, cols, lines, line)
    requires forall c :: c in newBoxes ==> Elems(newBoxes[c]) <= Elems(players)
    ensures Consistent(rows, cols, lines + {line}, boxes + newBoxes, players)
  {
    CompletedCellsGrow(rows, cols, lines, line);
  }

  /** Every entry is accepted on the lines drawn before it. */
  predicate Accepted<P>(rows: int, cols: int, lines0: set<Line>, round: seq<(Line, seq<P>)>) {
    round == [] ||
    (var front := round[..|round| - 1];
     Accepted(rows, cols, lines0, front) && Accepts(rows, cols, lines0 + KeySet(front), round[|round| - 1].0))
  }

  /** The boxes the entries claim, each mapped to the players of its entry. */
  function BoxesAdded<P>(rows: int, cols: int, lines0: set<Line>, round: seq<(Line, seq<P>)>): map<Box, seq<P>> {
    if round == [] then map[]
    else
      var front := round[..|round| - 1];
      var last := round[|round| - 1];
      BoxesAdded(rows, cols, lines0, front) +
        Claims(CompletedBy(rows, cols, lines0 + KeySet(front), last.0), last.1)
  }

  /** The players of the entries that claimed at least one box. */
  function ContinuingFrom<P>(rows: int, cols: int, lines0: set<Line>, round: seq<(Line, seq<P>)>): set<P> {
    if round == [] then {}
    else
      var front := round[..|round| - 1];
      var last := round[|round| - 1];
      ContinuingFrom(rows, cols, lines0, front) +
        if CompletedBy(rows, cols, lines0 + KeySet(front), last.0) != {} then Elems(last.1) else {}
  }

  /** The score the entries credit to `p`. */
  function CreditOf<P(==)>(rows: int, cols: int, lines0: set<Line>, round: seq<(Line, seq<P>)>, p: P): real {
    if round == [] then 0.0
    else
      var front := round[..|round| - 1];
      var last := round[|round| - 1];
      CreditOf(rows, cols, lines0, front, p) +
        Credit(|CompletedBy(rows, cols, lines0 + KeySet(front), last.0)|, |last.1|, multiset(last.1)[p])
  }

  /** The moves the entries record for `p`: each entry's line, once per listing. */
  function MovesOf<P(==)>(round: seq<(Line, seq<P>)>, p: P): seq<Line> {
    if round == [] then []
    else MovesOf(round[..|round| - 1], p) + Repeat(round[|round| - 1].0, multiset(round[|round| - 1].1)[p])
  }

  /** Every prefix of an accepted round is accepted. */
  lemma {:induction false} AcceptedPrefix<P>(rows: int, cols: int, lines0: set<Line>, round: seq<(Line, seq<P>)>, k: nat)
    requires k <= |round|
    ensures Accepted(rows, cols, lines0, round) ==> Accepted(rows, cols, lines0, round[..k])
    decreases |round|
  {
    if k < |round| {
      var front := round[..|round| - 1];
      assert front[..k] == round[..k];
      AcceptedPrefix(rows, cols, lines0, front, k);
    } else {
      assert round[..k] == round;
    }
  }

  /** The lines of a round are exactly its keys. */
  lemma {:induction false} KeySetElems<P>(round: seq<(Line, seq<P>)>)
    ensures KeySet(round) == Elems(Firsts(round))
  {
    if round != [] {
      var front := round[..|round| - 1];
      KeySetElems(front);
      assert Firsts(round) == Firsts(front) + [round[|round| - 1].0];
    }
  }

  /** An accepted round claims exactly the cells its lines complete: the
      cells complete after the round that were not complete before. */
  lemma {:induction false} BoxesAddedExact<P>(rows: int, cols: int, lines0: set<Line>, round: seq<(Line, seq<P>)>)
    requires Accepted(rows, cols, lines0, round)
    ensures BoxesAdded(rows, cols, lines0, round).Keys ==
      CompletedCells(rows, cols, lines0 + KeySet(round)) - CompletedCells(rows, cols, lines0)
    ensures lines0 !! KeySet(round)
  {
    if round != [] {
      var front := round[..|round| - 1];
      var last := round[|round| - 1];
      BoxesAddedExact(rows, cols, lines0, front);
      var before := lines0 + KeySet(front);
      CompletedCellsGrow(rows, cols, before, last.0);
      assert lines0 + KeySet(round) == before + {last.0};
      forall c | c in CompletedCells(rows, cols, lines0) ensures c in CompletedCells(rows, cols, before) {
      }
    }
  }

  /** The lines, boxes and continuing players of a round, one entry
      further: the entry's line, the cells it completes, and its players
      when it completed any. */
  lemma RoundStep<P>(rows: int, cols: int, lines0: set<Line>, round: seq<(Line, seq<P>)>, i: int)
    requires 0 <= i < |round|
    ensures var front := round[..i];
      var q := round[..i + 1];
      var won := CompletedBy(rows, cols, lines0 + KeySet(front), round[i].0);
      && KeySet(q) == KeySet(front) + {round[i].0}
      && BoxesAdded(rows, cols, lines0, q) == BoxesAdded(rows, cols, lines0, front) + Claims(won, round[i].1)
      && ContinuingFrom(rows, cols, lines0, q) ==
           ContinuingFrom(rows, cols, lines0, front) + (if won != {} then Elems(round[i].1) else {})
  {
    assert round[..i + 1][..i] == round[..i];
  }

  /** One more entry adds its players to the continuing ones exactly when
      its line completes a cell. */
  lemma ContinuingStep<P>(rows: int, cols: int, lines0: set<Line>, round: seq<(Line, seq<P>)>, i: int)
    requires 0 <= i < |round|
    ensures ContinuingFrom(rows, cols, lines0, round[..i + 1]) ==
      if CompletedBy(rows, cols, lines0 + KeySet(round[..i]), round[i].0) != {}
      then ContinuingFrom(rows, cols, lines0, round[..i]) + Elems(round[i].1)
      else ContinuingFrom(rows, cols, lines0, round[..i])
  {
    assert round[..i + 1][..i] == round[..i];
  }

  /** One more entry is accepted exactly when the entries before it are and
      its line is accepted after theirs. */
  lemma AcceptedStep<P>(rows: int, cols: int, lines0: set<Line>, round: seq<(Line, seq<P>)>, i: int)
    requires 0 <= i < |round|
    ensures Accepted(rows, cols, lines0, round[..i + 1]) <==>
      Accepted(rows, cols, lines0, round[..i]) && Accepts(rows, cols, lines0 + KeySet(round[..i]), round[i].0)
  {
    assert round[..i + 1][..i] == round[..i];
  }

  /** A round whose entry `k` is rejected after an accepted prefix is not
      accepted. */
  lemma RejectedEntry<P>(rows: int, cols: int, lines0: set<Line>, round: seq<(Line, seq<P>)>, k: int)
    requires 0 <= k < |round|
    requires !Accepts(rows, cols, lines0 + KeySet(round[..k]), round[k].0)
    ensures !Accepted(rows, cols, lines0, round)
  {
    AcceptedPrefix(rows, cols, lines0, round, k + 1);
    assert round[..k + 1][..k] == round[..k];
  }

  /** One more entry credits `p` its share of the boxes the entry's line
      completes and records the line once per listing of `p`, at the end of
      whatever moves `moves0` the player held before the round. */
  lemma CreditStep<P>(rows: int, cols: int, lines0: set<Line>, round: seq<(Line, seq<P>)>, i: int, p: P,
                      moves0: seq<Line>)
    requires 0 <= i < |round|
    ensures var won := CompletedBy(rows, cols, lines0 + KeySet(round[..i]), round[i].0);
      && CreditOf(rows, cols, lines0, round[..i + 1], p) ==
           CreditOf(rows, cols, lines0, round[..i], p) + Credit(|won|, |round[i].1|, multiset(round[i].1)[p])
      && MovesOf(round[..i + 1], p) == MovesOf(round[..i], p) + Repeat(round[i].0, multiset(round[i].1)[p])
      && moves0 + MovesOf(round[..i + 1], p) ==
           (moves0 + MovesOf(round[..i], p)) + Repeat(round[i].0, multiset(round[i].1)[p])
  {
    assert round[..i + 1][..i] == round[..i];
  }

  /** Drawing entry `i` after the entries before it, from lines `lines0`
      and boxes `boxes0`: its line is added and the cells it completes are
      claimed for its players. */
  lemma {:induction false} DrawStep<P>(rows: int, cols: int, lines0: set<Line>, boxes0: map<Box, seq<P>>,
                                       round: seq<(Line, seq<P>)>, i: int, lines: set<Line>, boxes: map<Box, seq<P>>)
    requires 0 <= i < |round|
    requires lines == lines0 + KeySet(round[..i]) && boxes == boxes0 + BoxesAdded(rows, cols, lines0, round[..i])
    ensures lines + {round[i].0} == lines0 + KeySet(round[..i + 1])
    ensures boxes + Claims(CompletedBy(rows, cols, lines, round[i].0), round[i].1) ==
      boxes0 + BoxesAdded(rows, cols, lines0, round[..i + 1])
  {
    var claimed := Claims(CompletedBy(rows, cols, lines, round[i].0), round[i].1);
    assert (boxes0 + BoxesAdded(rows, cols, lines0, round[..i])) + claimed ==
      boxes0 + (BoxesAdded(rows, cols, lines0, round[..i]) + claimed);
    RoundStep(rows, cols, lines0, round, i);
  }
}
