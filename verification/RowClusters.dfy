/** Grouping the words found on a scanned form into rows of print. */
module RowClusters {
  import opened Sorting

  datatype Token = Token(text: string, x: real, y: real, h: real)

  /** Top to bottom, then left to right. */
  function Reading(): (Token, Token) -> bool {
    (a: Token, b: Token) => a.y < b.y || (a.y == b.y && a.x <= b.x)
  }

  function LeftToRight(): (Token, Token) -> bool {
    (a: Token, b: Token) => a.x <= b.x
  }

  function Ascending(): (real, real) -> bool {
    (a: real, b: real) => a <= b
  }

  function SumY(row: seq<Token>): real {
    if row == [] then 0.0 else SumY(row[..|row| - 1]) + row[|row| - 1].y
  }

  function MeanY(row: seq<Token>): real
    requires row != []
  {
    SumY(row) / |row| as real
  }

  function Distance(a: real, b: real): real {
    if a >= b then a - b else b - a
  }

  // ---------------------------------------------------------------- what a clustering is

  function Flatten(rows: seq<seq<Token>>): seq<Token> {
    if rows == [] then [] else Flatten(rows[..|rows| - 1]) + rows[|rows| - 1]
  }

  /** Each token but the first lies within the tolerance of the mean of those that joined before it. */
  ghost predicate HoldsTogether(row: seq<Token>, tol: real) {
    row != [] && forall k :: 0 < k < |row| ==> Distance(row[k].y, MeanY(row[..k])) <= tol
  }

  /** The rows hold together, and each begins outside the tolerance of the whole row before it. */
  ghost predicate Clustered(rows: seq<seq<Token>>, tol: real) {
    && (forall i :: 0 <= i < |rows| ==> HoldsTogether(rows[i], tol))
    && (forall i :: 0 < i < |rows| ==> Distance(rows[i][0].y, MeanY(rows[i - 1])) > tol)
  }

  // ---------------------------------------------------------------- the loops

  function Heights(tokens: seq<Token>): seq<real> {
    if tokens == [] then []
    else
      var last := tokens[|tokens| - 1];
      Heights(tokens[..|tokens| - 1]) + if last.h > 0.0 then [last.h] else []
  }

  /** Seven tenths of the median height of print, but at least 18. */
  function Tolerance(tokens: seq<Token>): real {
    var sorted := StableSort(Ascending(), Heights(tokens));
    var median := if sorted == [] then 20.0 else sorted[|sorted| / 2];
    if median * 0.7 > 18.0 then median * 0.7 else 18.0
  }

  // ---------------------------------------------------------------- the tolerance

  function HasHeight(): Token -> bool {
    (t: Token) => t.h > 0.0
  }

  /** Tokens with a height that is not above, or not below, `m`. */
  function NoHigher(m: real): Token -> bool {
    (t: Token) => t.h > 0.0 && t.h <= m
  }

  function NoLower(m: real): Token -> bool {
    (t: Token) => t.h > 0.0 && t.h >= m
  }

  function AtMost(m: real): real -> bool {
    h => h <= m
  }

  function AtLeast(m: real): real -> bool {
    h => h >= m
  }

  /** How many elements have a property. */
  ghost function CountOf<T>(s: seq<T>, p: T -> bool): nat {
    if s == [] then 0 else CountOf(s[..|s| - 1], p) + if p(s[|s| - 1]) then 1 else 0
  }

  lemma CountNext<T>(s: seq<T>, x: T, p: T -> bool)
    ensures CountOf(s + [x], p) == CountOf(s, p) + if p(x) then 1 else 0
  {
    assert (s + [x])[..|s + [x]| - 1] == s;
  }

  lemma {:induction false} CountInserted<T>(leq: (T, T) -> bool, s: seq<T>, x: T, p: T -> bool)
    ensures CountOf(Insert(leq, s, x), p) == CountOf(s, p) + if p(x) then 1 else 0
  {
    CountNext(s, x, p);
    if s == [] || leq(s[|s| - 1], x) {
    } else {
      CountInserted(leq, s[..|s| - 1], x, p);
      CountNext(Insert(leq, s[..|s| - 1], x), s[|s| - 1], p);
    }
  }

  lemma {:induction false} CountSorted<T>(leq: (T, T) -> bool, s: seq<T>, p: T -> bool)
    ensures CountOf(StableSort(leq, s), p) == CountOf(s, p)
  {
    if s == [] {
    } else {
      CountSorted(leq, s[..|s| - 1], p);
      CountInserted(leq, StableSort(leq, s[..|s| - 1]), s[|s| - 1], p);
    }
  }

  /** At least those between two places that all have the property. */
  lemma {:induction false} CountAtLeast<T>(s: seq<T>, p: T -> bool, from: nat, to: nat)
    requires from <= to <= |s| && forall i :: from <= i < to ==> p(s[i])
    ensures CountOf(s, p) >= to - from
  {
    if s == [] {
    } else if to == |s| {
      if from < to {
        CountAtLeast(s[..|s| - 1], p, from, to - 1);
      }
    } else {
      CountAtLeast(s[..|s| - 1], p, from, to);
    }
  }

  /** At least half of the tokens with a height are not higher than `m`, and at least half are not lower. */
  ghost predicate IsMedianHeight(tokens: seq<Token>, m: real) {
    var n := CountOf(tokens, HasHeight());
    && (exists t :: t in tokens && t.h == m && m > 0.0)
    && 2 * CountOf(tokens, NoHigher(m)) >= n
    && 2 * CountOf(tokens, NoLower(m)) >= n
  }

  lemma {:induction false} HeightsExactly(tokens: seq<Token>)
    ensures forall h :: h in Heights(tokens) <==> h > 0.0 && exists t :: t in tokens && t.h == h
    ensures |Heights(tokens)| == CountOf(tokens, HasHeight())
  {
    if tokens == [] {
    } else {
      var before, last := tokens[..|tokens| - 1], tokens[|tokens| - 1];
      HeightsExactly(before);
      assert tokens == before + [last];
    }
  }

  lemma SameLength(heights: seq<real>)
    ensures |StableSort(Ascending(), heights)| == |heights|
    ensures forall h :: h in StableSort(Ascending(), heights) <==> h in heights
  {
    SortPermutes(Ascending(), heights);
    var sorted := StableSort(Ascending(), heights);
    assert |sorted| == |multiset(sorted)| && |heights| == |multiset(heights)|;
    assert forall h :: h in sorted <==> h in multiset(sorted);
    assert forall h :: h in heights <==> h in multiset(heights);
  }

  lemma SortedAscends(heights: seq<real>)
    ensures
      var sorted := StableSort(Ascending(), heights);
      forall i, j :: 0 <= i <= j < |sorted| ==> sorted[i] <= sorted[j]
  {
    hide StableSort;
    AscendingIsPreorder();
    SortSorts(Ascending(), heights);
    var sorted := StableSort(Ascending(), heights);
    forall i, j | 0 <= i < j < |sorted|
      ensures sorted[i] <= sorted[j]
    {
      assert Ascending()(sorted[i], sorted[j]);
    }
  }

  lemma HalfOnEitherSide(heights: seq<real>, m: real)
    requires heights != [] && |StableSort(Ascending(), heights)| == |heights|
    requires m == StableSort(Ascending(), heights)[|heights| / 2]
    ensures 2 * CountOf(heights, AtMost(m)) >= |heights| && 2 * CountOf(heights, AtLeast(m)) >= |heights|
  {
    hide StableSort, CountOf;
    var sorted, middle := StableSort(Ascending(), heights), |heights| / 2;
    SortedAscends(heights);
    CountAtLeast(sorted, AtMost(m), 0, middle + 1);
    CountAtLeast(sorted, AtLeast(m), middle, |sorted|);
    CountSorted(Ascending(), heights, AtMost(m));
    CountSorted(Ascending(), heights, AtLeast(m));
  }

  lemma MiddleIsMedian(tokens: seq<Token>)
    requires Heights(tokens) != []
    ensures
      var sorted := StableSort(Ascending(), Heights(tokens));
      |sorted| > 0 && IsMedianHeight(tokens, sorted[|sorted| / 2])
  {
    hide StableSort, Heights, CountOf;
    var heights := Heights(tokens);
    SameLength(heights);
    var m := StableSort(Ascending(), heights)[|heights| / 2];
    assert m in StableSort(Ascending(), heights);
    HalfOnEitherSide(heights, m);
    HeightsExactly(tokens);
    CountOfTokens(tokens, m);
  }

  lemma AscendingIsPreorder()
    ensures TotalPreorder(Ascending())
  {
  }

  lemma {:induction false} CountOfTokens(tokens: seq<Token>, m: real)
    ensures CountOf(Heights(tokens), AtMost(m)) == CountOf(tokens, NoHigher(m))
    ensures CountOf(Heights(tokens), AtLeast(m)) == CountOf(tokens, NoLower(m))
  {
    if tokens == [] {
    } else {
      var before, last := tokens[..|tokens| - 1], tokens[|tokens| - 1];
      CountOfTokens(before, m);
      if last.h > 0.0 {
        CountNext(Heights(before), last.h, AtMost(m));
        CountNext(Heights(before), last.h, AtLeast(m));
      } else {
        assert Heights(tokens) == Heights(before);
      }
    }
  }

  /** Seven tenths of the median height, but never below 18, and 18 where no token has a height. */
  lemma ToleranceExactly(tokens: seq<Token>)
    ensures Tolerance(tokens) >= 18.0
    ensures (forall t :: t in tokens ==> t.h <= 0.0) ==> Tolerance(tokens) == 18.0
    ensures (exists t :: t in tokens && t.h > 0.0) ==> exists m ::
      IsMedianHeight(tokens, m) && Tolerance(tokens) == if m > 180.0 / 7.0 then 7.0 * m / 10.0 else 18.0
  {
    HeightsExactly(tokens);
    var sorted := StableSort(Ascending(), Heights(tokens));
    if Heights(tokens) == [] {
      assert sorted == [];
      assert forall t :: t in tokens && t.h > 0.0 ==> t.h in Heights(tokens);
    } else {
      MiddleIsMedian(tokens);
      var m := sorted[|sorted| / 2];
      assert IsMedianHeight(tokens, m);
      assert Heights(tokens)[0] in Heights(tokens);
    }
  }

  method FindTolerance(tokens: seq<Token>) returns (tol: real)
    ensures tol == Tolerance(tokens)
  {
    var heights := [];
    for i := 0 to |tokens|
      invariant heights == Heights(tokens[..i])
    {
      assert tokens[..i + 1][..i] == tokens[..i];
      if tokens[i].h > 0.0 {
        heights := heights + [tokens[i].h];
      }
    }
    assert tokens[..|tokens|] == tokens;
    var sorted := StableSort(Ascending(), heights);
    var median := if |sorted| > 0 then sorted[|sorted| / 2] else 20.0;
    tol := if median * 0.7 > 18.0 then median * 0.7 else 18.0;
  }

  method MeanOf(row: seq<Token>) returns (mean: real)
    requires row != []
    ensures mean == MeanY(row)
  {
    var sum := 0.0;
    for i := 0 to |row|
      invariant sum == SumY(row[..i])
    {
      assert row[..i + 1][..i] == row[..i];
      sum := sum + row[i].y;
    }
    assert row[..|row|] == row;
    mean := sum / |row| as real;
  }

  /** One token: it joins the last row, or begins a new one. */
  method PlaceToken(rows: seq<seq<Token>>, token: Token, tol: real) returns (placed: seq<seq<Token>>)
    requires Clustered(rows, tol)
    ensures Clustered(placed, tol) && Flatten(placed) == Flatten(rows) + [token]
  {
    if |rows| == 0 {
      placed := [[token]];
      assert Flatten([]) == [] && placed[..0] == [];
      return;
    }
    var last := rows[|rows| - 1];
    var mean := MeanOf(last);
    if (if token.y >= mean then token.y - mean else mean - token.y) <= tol {
      placed := rows[..|rows| - 1] + [last + [token]];
      JoinedRow(rows, token, tol);
    } else {
      placed := rows + [[token]];
      assert placed[..|rows|] == rows;
    }
  }

  lemma JoinedRow(rows: seq<seq<Token>>, token: Token, tol: real)
    requires rows != [] && Clustered(rows, tol)
    requires Distance(token.y, MeanY(rows[|rows| - 1])) <= tol
    ensures
      var placed := rows[..|rows| - 1] + [rows[|rows| - 1] + [token]];
      Clustered(placed, tol) && Flatten(placed) == Flatten(rows) + [token]
  {
    var last := rows[|rows| - 1];
    var joined := last + [token];
    var placed := rows[..|rows| - 1] + [joined];
    forall k | 0 < k < |joined|
      ensures Distance(joined[k].y, MeanY(joined[..k])) <= tol
    {
      assert joined[..k] == if k == |last| then last else last[..k];
    }
    assert placed[..|placed| - 1] == rows[..|rows| - 1];
  }

  method ClusterSorted(sorted: seq<Token>, tol: real) returns (rows: seq<seq<Token>>)
    ensures Clustered(rows, tol) && Flatten(rows) == sorted
  {
    rows := [];
    for i := 0 to |sorted|
      invariant Clustered(rows, tol) && Flatten(rows) == sorted[..i]
    {
      rows := PlaceToken(rows, sorted[i], tol);
      assert sorted[..i + 1] == sorted[..i] + [sorted[i]];
    }
    assert sorted[..|sorted|] == sorted;
  }

  /** Rows whose clusters, before each was sorted from left to right, are those of the tokens. */
  ghost predicate RowsOf(rows: seq<seq<Token>>, clusters: seq<seq<Token>>) {
    |rows| == |clusters| && forall i :: 0 <= i < |rows| ==> rows[i] == StableSort(LeftToRight(), clusters[i])
  }

  ghost predicate AreClusters(clusters: seq<seq<Token>>, tokens: seq<Token>) {
    Clustered(clusters, Tolerance(tokens)) && Flatten(clusters) == StableSort(Reading(), tokens)
  }

  method ClusterRows(tokens: seq<Token>) returns (rows: seq<seq<Token>>)
    ensures exists clusters :: AreClusters(clusters, tokens) && RowsOf(rows, clusters)
  {
    if |tokens| == 0 {
      assert AreClusters([], tokens) && RowsOf([], []);
      return [];
    }
    var tol := FindTolerance(tokens);
    var sorted := StableSort(Reading(), tokens);
    var clusters := ClusterSorted(sorted, tol);
    rows := [];
    for i := 0 to |clusters|
      invariant |rows| == i && forall k :: 0 <= k < i ==> rows[k] == StableSort(LeftToRight(), clusters[k])
    {
      rows := rows + [StableSort(LeftToRight(), clusters[i])];
    }
    assert AreClusters(clusters, tokens) && RowsOf(rows, clusters);
  }

  /** The tokens determine their clusters. */
  lemma ClustersAreDetermined(tokens: seq<Token>, a: seq<seq<Token>>, b: seq<seq<Token>>)
    requires AreClusters(a, tokens) && AreClusters(b, tokens)
    ensures a == b
  {
    SameClusters(a, b, Tolerance(tokens));
  }

  lemma FlattenLast(rows: seq<seq<Token>>, tol: real)
    requires Clustered(rows, tol)
    ensures rows == [] <==> Flatten(rows) == []
  {
    if rows != [] {
      assert HoldsTogether(rows[|rows| - 1], tol);
    }
  }

  /** All but the last token of a clustering. */
  function Shorter(rows: seq<seq<Token>>): seq<seq<Token>>
    requires rows != [] && rows[|rows| - 1] != []
  {
    var last := rows[|rows| - 1];
    if |last| == 1 then rows[..|rows| - 1] else rows[..|rows| - 1] + [last[..|last| - 1]]
  }

  lemma ShorterRow(row: seq<Token>, tol: real)
    requires HoldsTogether(row, tol) && |row| > 1
    ensures HoldsTogether(row[..|row| - 1], tol)
  {
    var shorter := row[..|row| - 1];
    forall k | 0 < k < |shorter|
      ensures Distance(shorter[k].y, MeanY(shorter[..k])) <= tol
    {
      assert shorter[..k] == row[..k];
    }
  }

  lemma ShorterIsClustered(rows: seq<seq<Token>>, tol: real)
    requires rows != [] && Clustered(rows, tol)
    ensures rows[|rows| - 1] != [] && Clustered(Shorter(rows), tol)
  {
    var last := rows[|rows| - 1];
    assert HoldsTogether(last, tol);
    if |last| > 1 {
      ShorterRow(last, tol);
      hide Distance;
      assert last[..|last| - 1][0] == last[0];
    }
  }

  lemma ShorterFlattens(rows: seq<seq<Token>>)
    requires rows != [] && rows[|rows| - 1] != []
    ensures var last := rows[|rows| - 1];
      Flatten(rows) == Flatten(Shorter(rows)) + [last[|last| - 1]]
  {
    var rest, last := rows[..|rows| - 1], rows[|rows| - 1];
    assert last == last[..|last| - 1] + [last[|last| - 1]];
    if |last| > 1 {
      assert Shorter(rows)[..|Shorter(rows)| - 1] == rest;
    }
  }

  /** Whether the last token began its row is decided by the rows before it. */
  lemma LastTokenDecides(rows: seq<seq<Token>>, tol: real)
    requires rows != [] && Clustered(rows, tol) && rows[|rows| - 1] != [] && Shorter(rows) != []
    ensures
      var before, last := Shorter(rows), rows[|rows| - 1];
      before[|before| - 1] != [] &&
      (|last| == 1 <==> Distance(last[|last| - 1].y, MeanY(before[|before| - 1])) > tol)
  {
    var before, last := Shorter(rows), rows[|rows| - 1];
    if |last| == 1 {
      assert HoldsTogether(rows[|rows| - 2], tol);
    } else {
      assert HoldsTogether(last, tol);
    }
  }

  lemma {:induction false} SameClusters(a: seq<seq<Token>>, b: seq<seq<Token>>, tol: real)
    requires Clustered(a, tol) && Clustered(b, tol) && Flatten(a) == Flatten(b)
    ensures a == b
    decreases |Flatten(a)|
  {
    hide Clustered, Flatten;
    FlattenLast(a, tol);
    FlattenLast(b, tol);
    if a == [] {
    } else {
      ShorterIsClustered(a, tol);
      ShorterIsClustered(b, tol);
      ShorterFlattens(a);
      ShorterFlattens(b);
      var x, y := a[|a| - 1], b[|b| - 1];
      assert Flatten(Shorter(a)) == Flatten(a)[..|Flatten(a)| - 1] == Flatten(Shorter(b));
      SameClusters(Shorter(a), Shorter(b), tol);
      if Shorter(a) != [] {
        LastTokenDecides(a, tol);
        LastTokenDecides(b, tol);
      }
      SameRestored(a, b);
    }
  }

  lemma SameRestored(a: seq<seq<Token>>, b: seq<seq<Token>>)
    requires a != [] && b != [] && a[|a| - 1] != [] && b[|b| - 1] != [] && Shorter(a) == Shorter(b)
    requires |a[|a| - 1]| == 1 <==> |b[|b| - 1]| == 1
    requires a[|a| - 1][|a[|a| - 1]| - 1] == b[|b| - 1][|b[|b| - 1]| - 1]
    ensures a == b
  {
    var x, y := a[|a| - 1], b[|b| - 1];
    assert a == a[..|a| - 1] + [x] && b == b[..|b| - 1] + [y];
    if |x| == 1 {
      assert x == y;
    } else {
      var s := Shorter(a);
      assert s[..|s| - 1] == a[..|a| - 1] == b[..|b| - 1];
      assert x == x[..|x| - 1] + [x[|x| - 1]] && y == y[..|y| - 1] + [y[|y| - 1]];
      assert x[..|x| - 1] == s[|s| - 1] == y[..|y| - 1];
    }
  }

  // ---------------------------------------------------------------- nothing is lost

  ghost function All(rows: seq<seq<Token>>): multiset<Token> {
    if rows == [] then multiset{} else All(rows[..|rows| - 1]) + multiset(rows[|rows| - 1])
  }

  lemma {:induction false} SameAll(rows: seq<seq<Token>>, clusters: seq<seq<Token>>)
    requires RowsOf(rows, clusters)
    ensures All(rows) == multiset(Flatten(clusters))
  {
    if rows == [] {
    } else {
      SameAll(rows[..|rows| - 1], clusters[..|clusters| - 1]);
      SortPermutes(LeftToRight(), clusters[|clusters| - 1]);
    }
  }

  lemma {:induction false} InFlatten(rows: seq<seq<Token>>, i: nat, t: Token) returns (p: nat)
    requires i < |rows| && t in rows[i]
    ensures |Flatten(rows[..i])| <= p < |Flatten(rows[..i + 1])| <= |Flatten(rows)| && Flatten(rows)[p] == t
  {
    if i == |rows| - 1 {
      var k :| 0 <= k < |rows[i]| && rows[i][k] == t;
      p := |Flatten(rows[..i])| + k;
      assert rows[..i + 1] == rows;
    } else {
      var rest := rows[..|rows| - 1];
      p := InFlatten(rest, i, t);
      assert rest[..i] == rows[..i] && rest[..i + 1] == rows[..i + 1];
    }
  }

  lemma {:induction false} FlattenGrows(rows: seq<seq<Token>>, i: nat, j: nat)
    requires i <= j <= |rows|
    ensures |Flatten(rows[..i])| <= |Flatten(rows[..j])|
  {
    if i < j {
      FlattenGrows(rows, i, j - 1);
      assert rows[..j][..j - 1] == rows[..j - 1];
    }
  }

  lemma Orders()
    ensures TotalPreorder(Reading()) && TotalPreorder(LeftToRight())
  {
  }

  lemma SortedMembers(s: seq<Token>, t: Token)
    ensures t in StableSort(LeftToRight(), s) <==> t in s
  {
    SortPermutes(LeftToRight(), s);
    assert t in multiset(s) <==> t in s;
    assert t in multiset(StableSort(LeftToRight(), s)) <==> t in StableSort(LeftToRight(), s);
  }

  /** A token of an earlier cluster comes before one of a later cluster. */
  lemma ClustersInOrder(clusters: seq<seq<Token>>, i: nat, j: nat, a: Token, b: Token)
    requires i < j < |clusters| && a in clusters[i] && b in clusters[j]
    requires InOrder(Reading(), Flatten(clusters))
    ensures a.y <= b.y
  {
    hide Flatten;
    var p := InFlatten(clusters, i, a);
    var q := InFlatten(clusters, j, b);
    FlattenGrows(clusters, i + 1, j);
    assert Reading()(Flatten(clusters)[p], Flatten(clusters)[q]);
  }

  /**
   * The rows together hold every token exactly as often as it was found; every row runs from left to
   * right; and no token of an earlier row lies below one of a later row.
   */
  lemma RowsLoseNothing(tokens: seq<Token>, rows: seq<seq<Token>>, clusters: seq<seq<Token>>)
    requires RowsOf(rows, clusters) && AreClusters(clusters, tokens)
    ensures All(rows) == multiset(tokens)
    ensures forall i :: 0 <= i < |rows| ==> InOrder(LeftToRight(), rows[i])
    ensures forall i, j, a, b :: 0 <= i < j < |rows| && a in rows[i] && b in rows[j] ==> a.y <= b.y
  {
    Orders();
    SameAll(rows, clusters);
    SortPermutes(Reading(), tokens);
    SortSorts(Reading(), tokens);
    hide StableSort, InOrder, Flatten, All;
    forall i | 0 <= i < |rows|
      ensures InOrder(LeftToRight(), rows[i])
    {
      SortSorts(LeftToRight(), clusters[i]);
    }
    forall i, j, a, b | 0 <= i < j < |rows| && a in rows[i] && b in rows[j]
      ensures a.y <= b.y
    {
      SortedMembers(clusters[i], a);
      SortedMembers(clusters[j], b);
      ClustersInOrder(clusters, i, j, a, b);
    }
  }
}
