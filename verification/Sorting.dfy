/** A stable sort by any total preorder, and what is kept when only the first few are taken. */
module Sorting {

  ghost predicate TotalPreorder<T(!new)>(leq: (T, T) -> bool) {
    && (forall a, b :: leq(a, b) || leq(b, a))
    && (forall a, b, c :: leq(a, b) && leq(b, c) ==> leq(a, c))
  }

  /** Put `x` behind the last element that is not greater. */
  function Insert<T>(leq: (T, T) -> bool, s: seq<T>, x: T): seq<T> {
    if s == [] || leq(s[|s| - 1], x) then s + [x]
    else Insert(leq, s[..|s| - 1], x) + [s[|s| - 1]]
  }

  function StableSort<T>(leq: (T, T) -> bool, s: seq<T>): seq<T> {
    if s == [] then [] else Insert(leq, StableSort(leq, s[..|s| - 1]), s[|s| - 1])
  }

  ghost predicate InOrder<T>(leq: (T, T) -> bool, s: seq<T>) {
    forall i, j :: 0 <= i < j < |s| ==> leq(s[i], s[j])
  }

  lemma {:induction false} InsertPermutes<T>(leq: (T, T) -> bool, s: seq<T>, x: T)
    ensures multiset(Insert(leq, s, x)) == multiset(s) + multiset{x}
  {
    if s == [] {
    } else {
      assert s == s[..|s| - 1] + [s[|s| - 1]];
      InsertPermutes(leq, s[..|s| - 1], x);
    }
  }

  lemma InsertedMembers<T>(leq: (T, T) -> bool, s: seq<T>, x: T, y: T)
    requires y in Insert(leq, s, x)
    ensures y == x || y in s
  {
    InsertPermutes(leq, s, x);
    assert y in multiset(Insert(leq, s, x));
  }

  lemma {:induction false} InsertSorts<T(!new)>(leq: (T, T) -> bool, s: seq<T>, x: T)
    requires TotalPreorder(leq) && InOrder(leq, s)
    ensures InOrder(leq, Insert(leq, s, x))
  {
    if s == [] {
    } else {
      var rest, last := s[..|s| - 1], s[|s| - 1];
      if !leq(last, x) {
        InsertSorts(leq, rest, x);
        var inserted := Insert(leq, rest, x);
        forall i | 0 <= i < |inserted|
          ensures leq(inserted[i], last)
        {
          InsertedMembers(leq, rest, x, inserted[i]);
        }
      }
    }
  }

  /** The sort keeps all elements. */
  lemma {:induction false} SortPermutes<T>(leq: (T, T) -> bool, s: seq<T>)
    ensures multiset(StableSort(leq, s)) == multiset(s)
  {
    if s == [] {
    } else {
      SortPermutes(leq, s[..|s| - 1]);
      InsertPermutes(leq, StableSort(leq, s[..|s| - 1]), s[|s| - 1]);
      assert s == s[..|s| - 1] + [s[|s| - 1]];
    }
  }

  /** The sort puts them in order. */
  lemma {:induction false} SortSorts<T(!new)>(leq: (T, T) -> bool, s: seq<T>)
    requires TotalPreorder(leq)
    ensures InOrder(leq, StableSort(leq, s))
  {
    if s == [] {
    } else {
      SortSorts(leq, s[..|s| - 1]);
      InsertSorts(leq, StableSort(leq, s[..|s| - 1]), s[|s| - 1]);
    }
  }

  /** The first `n` elements in order, or all if there are fewer. */
  function Best<T>(leq: (T, T) -> bool, s: seq<T>, n: nat): seq<T> {
    var sorted := StableSort(leq, s);
    if |sorted| <= n then sorted else sorted[..n]
  }

  /** The best are in order, and what is left out ranks above none of them. */
  lemma BestAreBest<T(!new)>(leq: (T, T) -> bool, s: seq<T>, n: nat) returns (rest: seq<T>)
    requires TotalPreorder(leq)
    ensures multiset(Best(leq, s, n)) + multiset(rest) == multiset(s)
    ensures |Best(leq, s, n)| == n || rest == []
    ensures InOrder(leq, Best(leq, s, n))
    ensures forall a, b :: a in Best(leq, s, n) && b in rest ==> leq(a, b)
  {
    SortSorts(leq, s);
    SortPermutes(leq, s);
    var sorted := StableSort(leq, s);
    if |sorted| <= n {
      rest := [];
    } else {
      rest := sorted[n..];
      assert sorted == sorted[..n] + rest;
    }
  }
}
