/** What the comparison with IReV says of the client's votes, and which units and wards to look at. */
module Attention {
  import opened Wrappers
  import opened Hierarchy
  import opened Grouping
  import opened Sorting

  const MATERIAL_PARTY_DELTA := 5

  /** One polling unit: by how much the agent's figure is above IReV's, if both are known. */
  datatype UnitRow = UnitRow(unit: Id, delta: Option<int>, replaced: bool)

  function Abs(n: int): nat {
    if n < 0 then -n else n
  }

  predicate IsMaterial(delta: Option<int>) {
    delta.Some? && Abs(delta.value) >= MATERIAL_PARTY_DELTA
  }

  /** Rows that are counted: with a known difference that matters, or of a replaced result. */
  predicate IsCounted(r: UnitRow) {
    r.delta.Some? && (IsMaterial(r.delta) || r.replaced)
  }

  datatype Summary = Summary(
    votesAtRisk: nat, votesAgainst: nat, comparablePus: nat, agentHigherPus: nat, irevHigherPus: nat, replacedPus: nat,
    topPus: seq<UnitRow>)

  function CountedDeltas(rows: seq<UnitRow>): int {
    if rows == [] then 0
    else CountedDeltas(rows[..|rows| - 1]) + if IsCounted(rows[|rows| - 1]) then rows[|rows| - 1].delta.value else 0
  }

  /** By how much the figures differ in the rows with a property, added up. */
  function SumOfDeltas(rows: seq<UnitRow>, p: UnitRow -> bool): nat {
    if rows == [] then 0
    else
      var last := rows[|rows| - 1];
      SumOfDeltas(rows[..|rows| - 1], p) + if p(last) then Abs(last.delta.Or(0)) else 0
  }

  /** How many of the first `n` rows have a property. */
  ghost function HowMany(rows: seq<UnitRow>, n: nat, p: UnitRow -> bool): nat
    requires n <= |rows|
  {
    |set i: nat | i < n && p(rows[i])|
  }

  lemma HowManyNext(rows: seq<UnitRow>, n: nat, p: UnitRow -> bool)
    requires n < |rows|
    ensures HowMany(rows, n + 1, p) == HowMany(rows, n, p) + if p(rows[n]) then 1 else 0
  {
    var before := set i: nat | i < n && p(rows[i]);
    assert (set i: nat | i < n + 1 && p(rows[i])) == if p(rows[n]) then before + {n} else before;
  }

  predicate AgentHigher(r: UnitRow) { IsCounted(r) && r.delta.value > 0 }

  predicate IrevHigher(r: UnitRow) { IsCounted(r) && r.delta.value < 0 }

  predicate IsReplaced(r: UnitRow) { r.replaced }

  predicate IsEligible(r: UnitRow) { r.replaced || IsMaterial(r.delta) }

  /** Replaced results first, then by how much the figures differ. */
  function MoreUrgent(): (UnitRow, UnitRow) -> bool {
    (a: UnitRow, b: UnitRow) =>
      if a.replaced != b.replaced then a.replaced else Abs(a.delta.Or(0)) >= Abs(b.delta.Or(0))
  }

  function Eligible(rows: seq<UnitRow>): seq<UnitRow> {
    if rows == [] then []
    else Eligible(rows[..|rows| - 1]) + if IsEligible(rows[|rows| - 1]) then [rows[|rows| - 1]] else []
  }

  method FilterEligible(rows: seq<UnitRow>) returns (kept: seq<UnitRow>)
    ensures kept == Eligible(rows)
  {
    kept := [];
    for i := 0 to |rows|
      invariant kept == Eligible(rows[..i])
    {
      assert rows[..i + 1][..i] == rows[..i];
      if rows[i].replaced || IsMaterial(rows[i].delta) {
        kept := kept + [rows[i]];
      }
    }
    assert rows[..|rows|] == rows;
  }

  /** What is at risk less what is against is the sum of the differences that were counted. */
  lemma {:induction false} RiskLessAgainst(rows: seq<UnitRow>)
    ensures SumOfDeltas(rows, AgentHigher) - SumOfDeltas(rows, IrevHigher) == CountedDeltas(rows)
  {
    if rows == [] {
    } else {
      RiskLessAgainst(rows[..|rows| - 1]);
    }
  }

  method SummarizeVotesAtRisk(rows: seq<UnitRow>) returns (s: Summary)
    ensures s.votesAtRisk == SumOfDeltas(rows, AgentHigher) && s.votesAgainst == SumOfDeltas(rows, IrevHigher)
    ensures s.comparablePus == HowMany(rows, |rows|, IsCounted) && s.replacedPus == HowMany(rows, |rows|, IsReplaced)
    ensures s.agentHigherPus == HowMany(rows, |rows|, AgentHigher)
    ensures s.irevHigherPus == HowMany(rows, |rows|, IrevHigher)
    ensures s.topPus == Best(MoreUrgent(), Eligible(rows), 8)
  {
    s := Summary(0, 0, 0, 0, 0, 0, []);
    for i := 0 to |rows|
      invariant s.votesAtRisk == SumOfDeltas(rows[..i], AgentHigher)
      invariant s.votesAgainst == SumOfDeltas(rows[..i], IrevHigher)
      invariant s.comparablePus == HowMany(rows, i, IsCounted) && s.replacedPus == HowMany(rows, i, IsReplaced)
      invariant s.agentHigherPus == HowMany(rows, i, AgentHigher) && s.irevHigherPus == HowMany(rows, i, IrevHigher)
    {
      hide HowMany;
      var row := rows[i];
      assert rows[..i + 1][..i] == rows[..i];
      HowManyNext(rows, i, IsCounted);
      HowManyNext(rows, i, IsReplaced);
      HowManyNext(rows, i, AgentHigher);
      HowManyNext(rows, i, IrevHigher);
      if row.replaced {
        s := s.(replacedPus := s.replacedPus + 1);
      }
      if row.delta.None? {
        continue;
      }
      if !IsMaterial(row.delta) && !row.replaced {
        continue;
      }
      s := s.(comparablePus := s.comparablePus + 1);
      if row.delta.value > 0 {
        s := s.(votesAtRisk := s.votesAtRisk + row.delta.value, agentHigherPus := s.agentHigherPus + 1);
      } else if row.delta.value < 0 {
        s := s.(votesAgainst := s.votesAgainst + Abs(row.delta.value), irevHigherPus := s.irevHigherPus + 1);
      }
    }
    assert rows[..|rows|] == rows;
    var eligible := FilterEligible(rows);
    var sorted := StableSort(MoreUrgent(), eligible);
    s := s.(topPus := if |sorted| <= 8 then sorted else sorted[..8]);
  }

  lemma MoreUrgentIsPreorder()
    ensures TotalPreorder(MoreUrgent())
  {
  }

  /** The figures of the row differ by `n`, either way; where one is missing they do not differ. */
  predicate DiffersBy(r: UnitRow, n: nat) {
    if r.delta.None? then n == 0 else n == r.delta.value || n == -r.delta.value
  }

  /** A replaced result comes before one that is not; otherwise the one that differs by no less. */
  ghost predicate ComesBefore(a: UnitRow, b: UnitRow) {
    || (a.replaced && !b.replaced)
    || (a.replaced == b.replaced && exists m, n :: DiffersBy(a, m) && DiffersBy(b, n) && m >= n)
  }

  lemma MoreUrgentExactly(a: UnitRow, b: UnitRow)
    ensures MoreUrgent()(a, b) <==> ComesBefore(a, b)
  {
    assert DiffersBy(a, Abs(a.delta.Or(0))) && DiffersBy(b, Abs(b.delta.Or(0)));
  }

  /** Replaced results, and those that differ by five votes or more. */
  lemma {:induction false} EligibleExactly(rows: seq<UnitRow>)
    ensures forall r :: r in Eligible(rows) <==>
      r in rows && (r.replaced || (r.delta.Some? && (r.delta.value >= 5 || r.delta.value <= -5)))
  {
    if rows == [] {
    } else {
      var before, last := rows[..|rows| - 1], rows[|rows| - 1];
      EligibleExactly(before);
      assert rows == before + [last];
    }
  }

  /** At most eight units are shown, the most urgent first, and no eligible unit left out is more urgent. */
  lemma TopUnitsAreMostUrgent(rows: seq<UnitRow>) returns (rest: seq<UnitRow>)
    ensures var top := Best(MoreUrgent(), Eligible(rows), 8);
      && multiset(top) + multiset(rest) == multiset(Eligible(rows))
      && (forall i, j :: 0 <= i < j < |top| ==> ComesBefore(top[i], top[j]))
      && (|top| == 8 || rest == []) && forall a, b :: a in top && b in rest ==> ComesBefore(a, b)
  {
    MoreUrgentIsPreorder();
    rest := BestAreBest(MoreUrgent(), Eligible(rows), 8);
    forall a, b
      ensures MoreUrgent()(a, b) <==> ComesBefore(a, b)
    {
      MoreUrgentExactly(a, b);
    }
  }

  // ---------------------------------------------------------------- wards

  /** The names shown with a ward. */
  datatype Place = Place(wardName: string, lgaName: string, stateName: string)

  datatype WardRow = WardRow(ward: Id, place: Place, mismatch: bool, replaced: bool, votesAtRisk: int)

  datatype Totals = Totals(comparedPus: nat, mismatchPus: nat, replacedPus: nat, votesAtRisk: nat)

  datatype Cluster = Cluster(ward: Id, place: Place, totals: Totals)

  const NOTHING := Totals(0, 0, 0, 0)

  function Plus(a: Totals, b: Totals): Totals {
    Totals(
      a.comparedPus + b.comparedPus, a.mismatchPus + b.mismatchPus, a.replacedPus + b.replacedPus,
      a.votesAtRisk + b.votesAtRisk)
  }

  function One(r: WardRow): Totals {
    Totals(1, if r.mismatch then 1 else 0, if r.replaced then 1 else 0, if r.votesAtRisk > 0 then r.votesAtRisk else 0)
  }

  /** The totals of the rows with a property. */
  function TotalOf(rows: seq<WardRow>, p: WardRow -> bool): Totals {
    if rows == [] then NOTHING
    else
      var rest := TotalOf(rows[..|rows| - 1], p);
      if p(rows[|rows| - 1]) then Plus(rest, One(rows[|rows| - 1])) else rest
  }

  predicate HasWard(r: WardRow) { r.ward != "" }

  function InWard(ward: Id): WardRow -> bool {
    (r: WardRow) => r.ward == ward
  }

  /** The names that the first row of a ward gives it. */
  function FirstPlace(rows: seq<WardRow>, ward: Id): Option<Place> {
    if rows == [] then None
    else
      var before, last := FirstPlace(rows[..|rows| - 1], ward), rows[|rows| - 1];
      if before.None? && last.ward == ward then Some(last.place) else before
  }

  /** The wards of the rows in the order in which they first occur. */
  function WardsOf(rows: seq<WardRow>): seq<Id> {
    if rows == [] then []
    else
      var before, last := WardsOf(rows[..|rows| - 1]), rows[|rows| - 1];
      if last.ward == "" || last.ward in before then before else before + [last.ward]
  }

  ghost predicate HasRow(rows: seq<WardRow>, ward: Id) {
    ward != "" && exists r :: r in rows && r.ward == ward
  }

  /** What the rows of one ward come to. */
  function ClusterOf(rows: seq<WardRow>, ward: Id): Cluster {
    Cluster(ward, FirstPlace(rows, ward).Or(Place("", "", "")), TotalOf(rows, InWard(ward)))
  }

  lemma NextRow(rows: seq<WardRow>, row: WardRow, p: WardRow -> bool, ward: Id)
    ensures TotalOf(rows + [row], p) == if p(row) then Plus(TotalOf(rows, p), One(row)) else TotalOf(rows, p)
    ensures FirstPlace(rows + [row], ward)
      == if FirstPlace(rows, ward).None? && row.ward == ward then Some(row.place) else FirstPlace(rows, ward)
    ensures WardsOf(rows + [row])
      == if row.ward == "" || row.ward in WardsOf(rows) then WardsOf(rows) else WardsOf(rows) + [row.ward]
  {
    assert (rows + [row])[..|rows + [row]| - 1] == rows;
  }

  /** Every ward with a row is listed once, and no other. */
  lemma {:induction false} WardsAreThoseWithRows(rows: seq<WardRow>)
    ensures NoRepeats(WardsOf(rows))
    ensures forall w :: w in WardsOf(rows) <==> HasRow(rows, w)
    ensures forall w :: FirstPlace(rows, w).Some? <==> exists r :: r in rows && r.ward == w
  {
    if rows == [] {
    } else {
      var before, last := rows[..|rows| - 1], rows[|rows| - 1];
      WardsAreThoseWithRows(before);
      assert rows == before + [last];
    }
  }

  /** The first `n` rows with a property. */
  function RowsWith(rows: seq<WardRow>, n: nat, p: WardRow -> bool): set<nat>
    requires n <= |rows|
  {
    set i: nat | i < n && p(rows[i])
  }

  /** The votes at risk of the rows with a property, where there are any, added up. */
  function RiskOf(rows: seq<WardRow>, p: WardRow -> bool): nat {
    if rows == [] then 0
    else
      var last := rows[|rows| - 1];
      RiskOf(rows[..|rows| - 1], p) + if p(last) && last.votesAtRisk > 0 then last.votesAtRisk else 0
  }

  function Both(p: WardRow -> bool, q: WardRow -> bool): WardRow -> bool {
    (r: WardRow) => p(r) && q(r)
  }

  predicate Mismatches(r: WardRow) { r.mismatch }

  predicate WasReplaced(r: WardRow) { r.replaced }

  lemma RowsWithNext(rows: seq<WardRow>, n: nat, p: WardRow -> bool)
    requires n < |rows|
    ensures |RowsWith(rows, n + 1, p)| == |RowsWith(rows, n, p)| + if p(rows[n]) then 1 else 0
  {
    assert RowsWith(rows, n + 1, p) == if p(rows[n]) then RowsWith(rows, n, p) + {n} else RowsWith(rows, n, p);
  }

  lemma SameRowsWith(rows: seq<WardRow>, n: nat, p: WardRow -> bool)
    requires n <= |rows|
    ensures RowsWith(rows[..n], n, p) == RowsWith(rows, n, p)
  {
  }

  /** Totals are numbers of rows: of all, of those that mismatch, of those replaced; and the votes at risk. */
  lemma {:induction false} TotalsInFigures(rows: seq<WardRow>, p: WardRow -> bool)
    ensures
      var totals, n := TotalOf(rows, p), |rows|;
      && totals.comparedPus == |RowsWith(rows, n, p)|
      && totals.mismatchPus == |RowsWith(rows, n, Both(p, Mismatches))|
      && totals.replacedPus == |RowsWith(rows, n, Both(p, WasReplaced))|
      && totals.votesAtRisk == RiskOf(rows, p)
  {
    if rows == [] {
      assert forall q :: RowsWith(rows, 0, q) == {};
    } else {
      var n := |rows| - 1;
      TotalsInFigures(rows[..n], p);
      SameRowsWith(rows, n, p);
      SameRowsWith(rows, n, Both(p, Mismatches));
      SameRowsWith(rows, n, Both(p, WasReplaced));
      RowsWithNext(rows, n, p);
      RowsWithNext(rows, n, Both(p, Mismatches));
      RowsWithNext(rows, n, Both(p, WasReplaced));
      hide RowsWith;
    }
  }

  // ---------------------------------------------------------------- the totals of all wards

  function TotalsAt(byWard: map<Id, Cluster>, ward: Id): Totals {
    if ward in byWard then byWard[ward].totals else NOTHING
  }

  ghost function TotalsIn(byWard: map<Id, Cluster>): Id -> Totals {
    ward => TotalsAt(byWard, ward)
  }

  /** All clusters together. */
  ghost function SumOver(byWard: map<Id, Cluster>): Totals {
    Total(NOTHING, Plus, byWard.Keys, TotalsIn(byWard))
  }

  lemma TotalsAdd()
    ensures Adds(NOTHING, Plus)
  {
  }

  lemma SumOverUpdated(byWard: map<Id, Cluster>, w: Id, c: Cluster, one: Totals)
    requires c.totals == Plus(TotalsAt(byWard, w), one)
    ensures SumOver(byWard[w := c]) == Plus(SumOver(byWard), one)
  {
    hide Plus, Adds;
    var updated := byWard[w := c];
    var others := byWard.Keys - {w};
    var rest := Total(NOTHING, Plus, others, TotalsIn(byWard));
    TotalsAdd();
    PlusSwap(TotalsAt(byWard, w), one, rest);
    assert updated.Keys - {w} == others;
    TotalTakeOut(NOTHING, Plus, updated.Keys, TotalsIn(updated), w);
    TotalSame(NOTHING, Plus, others, TotalsIn(byWard), TotalsIn(updated));
    if w in byWard {
      TotalTakeOut(NOTHING, Plus, byWard.Keys, TotalsIn(byWard), w);
    } else {
      assert others == byWard.Keys;
      PlusNothing(rest);
    }
  }

  lemma PlusSwap(a: Totals, b: Totals, c: Totals)
    ensures Plus(Plus(a, b), c) == Plus(Plus(a, c), b)
  {
  }

  lemma PlusNothing(a: Totals)
    ensures Plus(NOTHING, a) == a
  {
  }

  /** Each cluster is that of its ward, and together they hold the totals of all rows with a ward. */
  ghost predicate HoldsWards(byWard: map<Id, Cluster>, rows: seq<WardRow>) {
    && (forall w :: w in byWard <==> w in WardsOf(rows))
    && (forall w :: w in byWard ==> byWard[w] == ClusterOf(rows, w))
    && (forall w :: w != "" ==> TotalsAt(byWard, w) == TotalOf(rows, InWard(w)))
    && SumOver(byWard) == TotalOf(rows, HasWard)
  }

  lemma OneMoreRow(byWard: map<Id, Cluster>, rows: seq<WardRow>, row: WardRow)
    requires HoldsWards(byWard, rows) && row.ward != ""
    ensures
      var place := if row.ward in byWard then byWard[row.ward].place else row.place;
      var totals := Plus(TotalsAt(byWard, row.ward), One(row));
      HoldsWards(byWard[row.ward := Cluster(row.ward, place, totals)], rows + [row])
  {
    hide TotalOf, SumOver, Plus, One, FirstPlace, WardsOf;
    var place := if row.ward in byWard then byWard[row.ward].place else row.place;
    var c := Cluster(row.ward, place, Plus(TotalsAt(byWard, row.ward), One(row)));
    var after := byWard[row.ward := c];
    WardsAreThoseWithRows(rows);
    forall w | w != ""
      ensures TotalsAt(after, w) == TotalOf(rows + [row], InWard(w))
      ensures w in after <==> w in WardsOf(rows + [row])
      ensures w in after ==> after[w] == ClusterOf(rows + [row], w)
    {
      NextRow(rows, row, InWard(w), w);
    }
    WardsAreThoseWithRows(rows + [row]);
    NextRow(rows, row, HasWard, "");
    SumOverUpdated(byWard, row.ward, c, One(row));
  }

  /** A row without a ward counts for none. */
  lemma OneMoreWithoutWard(byWard: map<Id, Cluster>, rows: seq<WardRow>, row: WardRow)
    requires HoldsWards(byWard, rows) && row.ward == ""
    ensures HoldsWards(byWard, rows + [row])
  {
    hide TotalOf, SumOver, Plus, One, FirstPlace, WardsOf;
    WardsAreThoseWithRows(rows);
    forall w | w != ""
      ensures TotalOf(rows + [row], InWard(w)) == TotalOf(rows, InWard(w))
      ensures FirstPlace(rows + [row], w) == FirstPlace(rows, w)
    {
      NextRow(rows, row, InWard(w), w);
    }
    NextRow(rows, row, HasWard, "");
  }

  /** The clusters, and the wards in the order in which their clusters were made. */
  method ClusterByWard(rows: seq<WardRow>) returns (order: seq<Id>, byWard: map<Id, Cluster>)
    ensures order == WardsOf(rows) && HoldsWards(byWard, rows)
  {
    order, byWard := [], map[];
    for i := 0 to |rows|
      invariant order == WardsOf(rows[..i]) && HoldsWards(byWard, rows[..i])
    {
      var row := rows[i];
      NextRow(rows[..i], row, HasWard, "");
      assert forall w :: w in byWard <==> w in order;
      hide HoldsWards, WardsOf, Plus, One;
      assert rows[..i] + [row] == rows[..i + 1];
      if row.ward == "" {
        OneMoreWithoutWard(byWard, rows[..i], row);
        continue;
      }
      OneMoreRow(byWard, rows[..i], row);
      if row.ward !in byWard {
        order := order + [row.ward];
      }
      var current := if row.ward in byWard then byWard[row.ward] else Cluster(row.ward, row.place, Totals(0, 0, 0, 0));
      var updated := CountRow(current.totals, row);
      byWard := byWard[row.ward := Cluster(row.ward, current.place, updated)];
    }
    assert rows[..|rows|] == rows;
  }

  method CountRow(current: Totals, row: WardRow) returns (c: Totals)
    ensures c == Plus(current, One(row))
  {
    c := current.(comparedPus := current.comparedPus + 1);
    if row.mismatch {
      c := c.(mismatchPus := c.mismatchPus + 1);
    }
    if row.replaced {
      c := c.(replacedPus := c.replacedPus + 1);
    }
    c := c.(votesAtRisk := c.votesAtRisk + if row.votesAtRisk > 0 then row.votesAtRisk else 0);
  }

  // ---------------------------------------------------------------- the wards that are shown

  function FlaggedPus(c: Cluster): nat {
    c.totals.mismatchPus + c.totals.replacedPus
  }

  predicate IsFlagged(c: Cluster) { FlaggedPus(c) > 0 }

  /** More votes at risk first, then more units flagged. */
  function Graver(): (Cluster, Cluster) -> bool {
    (a: Cluster, b: Cluster) =>
      if a.totals.votesAtRisk != b.totals.votesAtRisk then a.totals.votesAtRisk > b.totals.votesAtRisk
      else FlaggedPus(a) >= FlaggedPus(b)
  }

  /** The flagged ones among the clusters of some wards, in the same order. */
  function FlaggedAmong(rows: seq<WardRow>, wards: seq<Id>): seq<Cluster> {
    if wards == [] then []
    else
      var c := ClusterOf(rows, wards[|wards| - 1]);
      FlaggedAmong(rows, wards[..|wards| - 1]) + if IsFlagged(c) then [c] else []
  }

  /** What is shown of the rows. */
  function ShownClusters(rows: seq<WardRow>): seq<Cluster> {
    Best(Graver(), FlaggedAmong(rows, WardsOf(rows)), 8)
  }

  method ClusterAttentionRows(rows: seq<WardRow>) returns (shown: seq<Cluster>)
    ensures shown == ShownClusters(rows)
  {
    var order, byWard := ClusterByWard(rows);
    var flagged := [];
    for i := 0 to |order|
      invariant flagged == FlaggedAmong(rows, order[..i])
    {
      assert order[..i + 1][..i] == order[..i];
      assert order[i] in byWard && byWard[order[i]] == ClusterOf(rows, order[i]);
      var c := byWard[order[i]];
      if c.totals.mismatchPus + c.totals.replacedPus > 0 {
        flagged := flagged + [c];
      }
    }
    assert order[..|order|] == order;
    var sorted := StableSort(Graver(), flagged);
    shown := if |sorted| <= 8 then sorted else sorted[..8];
  }

  lemma ClusterIsOfWard(rows: seq<WardRow>, ward: Id)
    ensures ClusterOf(rows, ward).ward == ward
  {
  }

  lemma {:induction false} FlaggedExactly(rows: seq<WardRow>, wards: seq<Id>)
    requires NoRepeats(wards)
    ensures NoRepeats(FlaggedAmong(rows, wards))
    ensures forall c :: c in FlaggedAmong(rows, wards) <==>
      c.ward in wards && c == ClusterOf(rows, c.ward) && IsFlagged(c)
  {
    hide ClusterOf, IsFlagged;
    if wards == [] {
    } else {
      var before, last := wards[..|wards| - 1], wards[|wards| - 1];
      FlaggedExactly(rows, before);
      assert wards == before + [last];
      ClusterIsOfWard(rows, last);
    }
  }

  lemma NoRepeatsInPart<T>(s: seq<T>, part: seq<T>, rest: seq<T>)
    requires NoRepeats(s) && multiset(part) + multiset(rest) == multiset(s)
    ensures NoRepeats(part)
  {
    forall i, j | 0 <= i < j < |part|
      ensures part[i] != part[j]
    {
      if part[i] == part[j] {
        assert part == part[..i] + [part[i]] + part[i + 1..j] + [part[j]] + part[j + 1..];
        assert multiset(part)[part[i]] >= 2;
        CountedOnce(s, part[i]);
      }
    }
  }

  lemma {:induction false} CountedOnce<T>(s: seq<T>, x: T)
    requires NoRepeats(s)
    ensures multiset(s)[x] <= 1
  {
    if s == [] {
    } else {
      CountedOnce(s[1..], x);
      assert s == [s[0]] + s[1..];
      if s[0] == x && x in s[1..] {
        assert false;
      }
    }
  }

  /** More votes at risk, or as many and no fewer units that mismatch or were replaced. */
  predicate NoLessGrave(a: Cluster, b: Cluster) {
    || a.totals.votesAtRisk > b.totals.votesAtRisk
    || (&& a.totals.votesAtRisk == b.totals.votesAtRisk
        && a.totals.mismatchPus + a.totals.replacedPus >= b.totals.mismatchPus + b.totals.replacedPus)
  }

  lemma GraverExactly(a: Cluster, b: Cluster)
    ensures Graver()(a, b) <==> NoLessGrave(a, b)
    ensures IsFlagged(a) <==> a.totals.mismatchPus > 0 || a.totals.replacedPus > 0
  {
  }

  /** A ward of the rows that is flagged and not shown. */
  ghost predicate LeftOut(rows: seq<WardRow>, ward: Id) {
    HasRow(rows, ward) && IsFlagged(ClusterOf(rows, ward)) && ClusterOf(rows, ward) !in ShownClusters(rows)
  }

  /**
   * At most eight wards are shown, none twice, each with the totals of its rows and with a flagged
   * unit, the gravest first; a flagged ward is left out only behind eight others, none less grave.
   */
  lemma ShownWardsAreGravest(rows: seq<WardRow>)
    ensures var shown := ShownClusters(rows);
      && |shown| <= 8 && (forall i, j :: 0 <= i < j < |shown| ==> NoLessGrave(shown[i], shown[j]))
      && (forall i, j :: 0 <= i < j < |shown| ==> shown[i].ward != shown[j].ward)
      && (forall c :: c in shown ==> HasRow(rows, c.ward) && c == ClusterOf(rows, c.ward) && IsFlagged(c))
      && (forall w :: LeftOut(rows, w) ==>
            |shown| == 8 && forall c :: c in shown ==> NoLessGrave(c, ClusterOf(rows, w)))
  {
    hide ClusterOf, IsFlagged, FlaggedAmong, WardsOf, HasRow;
    var flagged, shown := FlaggedAmong(rows, WardsOf(rows)), ShownClusters(rows);
    WardsAreThoseWithRows(rows);
    FlaggedExactly(rows, WardsOf(rows));
    var rest := BestAreBest(Graver(), flagged, 8);
    forall a, b
      ensures Graver()(a, b) <==> NoLessGrave(a, b)
    {
      GraverExactly(a, b);
    }
    forall c
      ensures c in flagged <==> c in shown || c in rest
    {
      assert c in multiset(flagged) <==> c in multiset(shown) || c in multiset(rest);
    }
    NoRepeatsInPart(flagged, shown, rest);
    forall w | HasRow(rows, w) && IsFlagged(ClusterOf(rows, w)) && ClusterOf(rows, w) !in shown
      ensures ClusterOf(rows, w) in rest
    {
      ClusterIsOfWard(rows, w);
    }
  }
}
