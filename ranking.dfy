/** The ranking step of `Board.get_winner`: entries (player, score) sorted
    by descending score with Python's stable `sorted(..., reverse=True)`,
    then those within 0.01 of the first entry's score. */
module Ranking {
  import opened Seqs

  function AbsReal(x: real): real {
    if x < 0.0 then -x else x
  }

  /** `math.fabs(a - b) < 0.01`. */
  predicate Close(a: real, b: real) {
    AbsReal(a - b) < 0.01
  }

  predicate SortedDesc<T>(s: seq<(T, real)>) {
    forall i, j :: 0 <= i < j < |s| ==> s[i].1 >= s[j].1
  }

  predicate AllAtLeast<T>(s: seq<(T, real)>, b: real) {
    forall i :: 0 <= i < |s| ==> s[i].1 >= b
  }

  /** Places `x` after every entry scoring at least as much, so that entries
      with equal scores keep their original order. */
  function InsertDesc<T>(s: seq<(T, real)>, x: (T, real)): (r: seq<(T, real)>)
    requires SortedDesc(s)
    ensures SortedDesc(r)
    ensures multiset(r) == multiset(s) + multiset{x}
    ensures |r| == |s| + 1
    ensures forall b :: AllAtLeast(s, b) && x.1 >= b ==> AllAtLeast(r, b)
  {
    if s == [] then [x]
    else if s[|s| - 1].1 >= x.1 then s + [x]
    else
      var front := s[..|s| - 1];
      var last := s[|s| - 1];
      assert s == front + [last];
      assert AllAtLeast(front, last.1);
      InsertDesc(front, x) + [last]
  }

  /** Python's stable `sorted(s, key=score, reverse=True)`. */
  function SortDesc<T>(s: seq<(T, real)>): (r: seq<(T, real)>)
    ensures SortedDesc(r)
    ensures multiset(r) == multiset(s)
    ensures |r| == |s|
  {
    if s == [] then []
    else
      assert s == s[..|s| - 1] + [s[|s| - 1]];
      InsertDesc(SortDesc(s[..|s| - 1]), s[|s| - 1])
  }

  /** The highest score among the entries. */
  function MaxScore<T>(s: seq<(T, real)>): (m: real)
    requires s != []
    ensures exists i :: 0 <= i < |s| && s[i].1 == m
    ensures forall i :: 0 <= i < |s| ==> s[i].1 <= m
  {
    if |s| == 1 then s[0].1
    else
      var m := MaxScore(s[..|s| - 1]);
      if s[|s| - 1].1 > m then s[|s| - 1].1 else m
  }

  /** The entries within 0.01 of `top`, in order. */
  function CloseTo<T>(s: seq<(T, real)>, top: real): seq<(T, real)> {
    if s == [] then []
    else
      var front := CloseTo(s[..|s| - 1], top);
      if Close(s[|s| - 1].1, top) then front + [s[|s| - 1]] else front
  }

  /** `get_winner` once the game is over: the sorted entries within 0.01 of
      the first one's score. */
  function Winners<T>(s: seq<(T, real)>): seq<(T, real)> {
    var sorted := SortDesc(s);
    if sorted == [] then [] else CloseTo(sorted, sorted[0].1)
  }

  /** How often `x` survives the filter: as often as it occurs, if it is close. */
  lemma {:induction false} CloseToCount<T>(s: seq<(T, real)>, top: real, x: (T, real))
    ensures multiset(CloseTo(s, top))[x] == if Close(x.1, top) then multiset(s)[x] else 0
  {
    if s != [] {
      var front := s[..|s| - 1];
      CloseToCount(front, top, x);
      assert s == front + [s[|s| - 1]];
    }
  }

  /** Filtering keeps the order, so a sorted sequence stays sorted. */
  lemma {:induction false} CloseToSorted<T>(s: seq<(T, real)>, top: real)
    requires SortedDesc(s)
    ensures SortedDesc(CloseTo(s, top))
    ensures forall y :: y in CloseTo(s, top) ==> y in s
  {
    if s != [] {
      var front := s[..|s| - 1];
      assert SortedDesc(front);
      CloseToSorted(front, top);
      var r := CloseTo(s, top);
      forall i, j | 0 <= i < j < |r| ensures r[i].1 >= r[j].1 {
        if j == |r| - 1 && Close(s[|s| - 1].1, top) {
          assert r[i] in front;
        }
      }
    }
  }

  /** The first entry of a sorted sequence holds the highest score. */
  lemma SortedFirstIsMax<T>(s: seq<(T, real)>)
    requires s != []
    ensures SortDesc(s)[0].1 == MaxScore(s)
  {
    var sorted := SortDesc(s);
    var i :| 0 <= i < |s| && s[i].1 == MaxScore(s);
    assert s[i] in multiset(sorted);
    assert sorted[0] in multiset(s);
  }

  /** `get_winner` returns, in descending score order, exactly the entries
      within 0.01 of the highest score, each as often as it occurs, and at
      least one entry whenever there is one. */
  lemma WinnersExact<T>(s: seq<(T, real)>)
    requires s != []
    ensures var w := Winners(s);
      && w != []
      && SortedDesc(w)
      && forall x: (T, real) :: multiset(w)[x] == if Close(x.1, MaxScore(s)) then multiset(s)[x] else 0
  {
    var sorted := SortDesc(s);
    var top := MaxScore(s);
    SortedFirstIsMax(s);
    var w := CloseTo(sorted, top);
    assert Winners(s) == w;
    CloseToSorted(sorted, top);
    forall x: (T, real) ensures multiset(w)[x] == if Close(x.1, top) then multiset(s)[x] else 0 {
      CloseToCount(sorted, top, x);
    }
    assert multiset(sorted)[sorted[0]] > 0;
    assert multiset(w)[sorted[0]] > 0;
  }
  lemma {:induction false} NoDupCount<T>(s: seq<T>, x: T)
    requires NoDup(s)
    ensures multiset(s)[x] <= 1
  {
    if s != [] {
      var front := s[..|s| - 1];
      assert s == front + [s[|s| - 1]];
      assert NoDup(front);
      NoDupCount(front, x);
      if x == s[|s| - 1] {
        assert x !in front;
      }
    }
  }

  /** An element found at two positions occurs at least twice. */
  lemma TwiceCounted<T>(s: seq<T>, i: int, j: int)
    requires 0 <= i < j < |s| && s[i] == s[j]
    ensures multiset(s)[s[i]] >= 2
  {
    assert s == s[..j] + [s[j]] + s[j + 1..];
    assert s[i] in s[..j];
  }

  /** An entry is among the winners exactly when it is an entry scoring
      within 0.01 of the highest score. */
  lemma WinnerMember<T>(s: seq<(T, real)>, x: (T, real))
    requires s != []
    ensures x in Winners(s) <==> x in s && Close(x.1, MaxScore(s))
  {
    var sorted := SortDesc(s);
    SortedFirstIsMax(s);
    assert Winners(s) == CloseTo(sorted, MaxScore(s));
    CloseToCount(sorted, MaxScore(s), x);
    assert multiset(sorted)[x] == multiset(s)[x];
  }

  /** When no entry's first component repeats, no winner's does either. */
  lemma WinnersDistinct<T>(s: seq<(T, real)>)
    requires s != [] && NoDup(Firsts(s))
    ensures NoDup(Firsts(Winners(s)))
  {
    var e := Winners(s);
    WinnersExact(s);
    assert NoDup(s) by {
      forall i, j | 0 <= i < j < |s| ensures s[i] != s[j] {
        assert Firsts(s)[i] != Firsts(s)[j];
      }
    }
    var w := Firsts(e);
    forall i, j | 0 <= i < j < |w| ensures w[i] != w[j] {
      if w[i] == w[j] {
        WinnerMember(s, e[i]);
        WinnerMember(s, e[j]);
        var a :| 0 <= a < |s| && s[a] == e[i];
        var b :| 0 <= b < |s| && s[b] == e[j];
        assert Firsts(s)[a] == Firsts(s)[b];
        assert a == b;
        TwiceCounted(e, i, j);
        NoDupCount(s, e[i]);
      }
    }
  }
}
