/** Facts about sequences used throughout the model: duplicate-freedom,
    de-duplication (Python's `set(list)`), and their cardinalities. */
module Seqs {

  /** The set of elements of a sequence. */
  function Elems<T>(s: seq<T>): set<T> {
    set x | x in s
  }

  predicate NoDup<T(==)>(s: seq<T>) {
    forall i, j :: 0 <= i < j < |s| ==> s[i] != s[j]
  }

  /** The elements of `s` without repetitions, first occurrences kept. */
  function Dedup<T(==,!new)>(s: seq<T>): (r: seq<T>)
    ensures NoDup(r)
    ensures forall x :: x in r <==> x in s
    ensures |r| <= |s|
  {
    if s == [] then []
    else if s[|s| - 1] in s[..|s| - 1] then Dedup(s[..|s| - 1])
    else Dedup(s[..|s| - 1]) + [s[|s| - 1]]
  }

  /** A duplicate-free sequence has as many elements as its set. */
  lemma {:induction false} NoDupCard<T>(s: seq<T>)
    requires NoDup(s)
    ensures |Elems(s)| == |s|
  {
    if s != [] {
      var t := s[..|s| - 1];
      assert NoDup(t);
      NoDupCard(t);
      assert s[|s| - 1] !in t;
      assert Elems(s) == Elems(t) + {s[|s| - 1]};
    }
  }

  /** De-duplication keeps exactly as many elements as the set has. */
  lemma DedupCard<T(!new)>(s: seq<T>)
    ensures |Dedup(s)| == |Elems(s)|
  {
    NoDupCard(Dedup(s));
    assert Elems(Dedup(s)) == Elems(s);
  }

  /** De-duplicating a duplicate-free sequence changes nothing. */
  lemma {:induction false} DedupNoDup<T(!new)>(s: seq<T>)
    requires NoDup(s)
    ensures Dedup(s) == s
  {
    if s != [] {
      var t := s[..|s| - 1];
      assert NoDup(t);
      DedupNoDup(t);
      assert s[|s| - 1] !in t;
      assert t + [s[|s| - 1]] == s;
    }
  }

  /** A subset with as many elements as its superset is the superset. */
  lemma {:induction false} SubsetCardEq<T>(a: set<T>, b: set<T>)
    requires a <= b && |a| == |b|
    ensures a == b
  {
    if a != b {
      var x :| x in b && x !in a;
      assert a <= b - {x};
      SubsetCard(a, b - {x});
    }
  }

  /** A subset is no larger than its superset. */
  lemma {:induction false} SubsetCard<T>(a: set<T>, b: set<T>)
    requires a <= b
    ensures |a| <= |b|
  {
    if a != {} {
      var x :| x in a;
      SubsetCard(a - {x}, b - {x});
    }
  }
  /** A sequence has at least as many entries as distinct elements. */
  lemma {:induction false} ElemsCard<T>(s: seq<T>)
    ensures |Elems(s)| <= |s|
  {
    if s != [] {
      var t := s[..|s| - 1];
      ElemsCard(t);
      assert Elems(s) == Elems(t) + {s[|s| - 1]};
    }
  }

  /** A sequence with as many entries as distinct elements repeats nothing:
      Python's `len(xs) == len(set(xs))` is a duplicate test. */
  lemma CardNoDup<T>(s: seq<T>)
    requires |Elems(s)| == |s|
    ensures NoDup(s)
  {
    if !NoDup(s) {
      var i, j :| 0 <= i < j < |s| && s[i] == s[j];
      var t := s[..j] + s[j + 1..];
      forall x | x in Elems(s) ensures x in Elems(t) {
        var k :| 0 <= k < |s| && s[k] == x;
        if k < j {
          assert t[k] == x;
        } else if k == j {
          assert t[i] == x;
        } else {
          assert t[k - 1] == x;
        }
      }
      ElemsCard(t);
      SubsetCard(Elems(s), Elems(t));
    }
  }

  /** The first components of a sequence of pairs, in order. */
  function Firsts<T, U>(s: seq<(T, U)>): (r: seq<T>)
    ensures |r| == |s| && forall i :: 0 <= i < |s| ==> r[i] == s[i].0
  {
    seq(|s|, i requires 0 <= i < |s| => s[i].0)
  }

  /** `n` copies of `x`. */
  function Repeat<T>(x: T, n: nat): (r: seq<T>)
    ensures |r| == n && forall i :: 0 <= i < n ==> r[i] == x
  {
    if n == 0 then [] else Repeat(x, n - 1) + [x]
  }

  /** A prefix one longer holds one more copy of the next element. */
  lemma PrefixMultisetStep<T>(s: seq<T>, i: int)
    requires 0 <= i < |s|
    ensures multiset(s[..i + 1]) == multiset(s[..i]) + multiset{s[i]}
  {
    assert s[..i + 1] == s[..i] + [s[i]];
  }
}
