/**
 * Result sheets, the totals a roll-up computes from them, and sums over sets of sheets.
 * A sheet is what one EC8A form or one published roll-up holds; any figure may be missing.
 */
module Sheets {
  import opened Wrappers

  type Party = string

  datatype Sheet = Sheet(
    registeredVoters: Option<int>,
    accreditedVoters: Option<int>,
    ballotPapersIssued: Option<int>,
    unusedBallotPapers: Option<int>,
    spoiledBallotPapers: Option<int>,
    votesCast: Option<int>,
    invalidVotes: Option<int>,
    usedBallotPapers: Option<int>,
    // None: no party map at all.  A party whose votes are None was typed as null.
    partyResults: Option<map<Party, Option<int>>>)

  const BLANK_SHEET := Sheet(None, None, None, None, None, None, None, None, None)

  datatype Totals = Totals(
    registeredVoters: int,
    accreditedVoters: int,
    ballotPapersIssued: int,
    unusedBallotPapers: int,
    spoiledBallotPapers: int,
    votesCast: int,
    invalidVotes: int,
    usedBallotPapers: int,
    parties: map<Party, int>)

  const ZERO := Totals(0, 0, 0, 0, 0, 0, 0, 0, map[])

  /** What a sheet adds to a roll-up: a missing figure adds nothing. */
  function Tally(s: Sheet): Totals {
    Totals(
      s.registeredVoters.Or(0),
      s.accreditedVoters.Or(0),
      s.ballotPapersIssued.Or(0),
      s.unusedBallotPapers.Or(0),
      s.spoiledBallotPapers.Or(0),
      s.votesCast.Or(0),
      s.invalidVotes.Or(0),
      s.usedBallotPapers.Or(0),
      if s.partyResults.None? then map[]
      else map p | p in s.partyResults.value :: s.partyResults.value[p].Or(0))
  }

  /** The sheet a roll-up stores for its totals: every figure is present. */
  function Published(t: Totals): Sheet {
    Sheet(
      Some(t.registeredVoters),
      Some(t.accreditedVoters),
      Some(t.ballotPapersIssued),
      Some(t.unusedBallotPapers),
      Some(t.spoiledBallotPapers),
      Some(t.votesCast),
      Some(t.invalidVotes),
      Some(t.usedBallotPapers),
      Some(map p | p in t.parties :: Some(t.parties[p])))
  }

  function VotesOf(m: map<Party, int>, p: Party): int {
    if p in m then m[p] else 0
  }

  function MergeParties(a: map<Party, int>, b: map<Party, int>): map<Party, int> {
    map p | p in a.Keys + b.Keys :: VotesOf(a, p) + VotesOf(b, p)
  }

  function Plus(a: Totals, b: Totals): Totals {
    Totals(
      a.registeredVoters + b.registeredVoters,
      a.accreditedVoters + b.accreditedVoters,
      a.ballotPapersIssued + b.ballotPapersIssued,
      a.unusedBallotPapers + b.unusedBallotPapers,
      a.spoiledBallotPapers + b.spoiledBallotPapers,
      a.votesCast + b.votesCast,
      a.invalidVotes + b.invalidVotes,
      a.usedBallotPapers + b.usedBallotPapers,
      MergeParties(a.parties, b.parties))
  }

  lemma TallyOfPublished(t: Totals)
    ensures Tally(Published(t)) == t
  {
    assert Tally(Published(t)).parties == t.parties;
  }

  lemma PlusZero(a: Totals)
    ensures Plus(a, ZERO) == a && Plus(ZERO, a) == a
  {
    assert MergeParties(a.parties, map[]) == a.parties;
    assert MergeParties(map[], a.parties) == a.parties;
  }

  lemma PlusCommutes(a: Totals, b: Totals)
    ensures Plus(a, b) == Plus(b, a)
  {
    assert MergeParties(a.parties, b.parties) == MergeParties(b.parties, a.parties);
  }

  lemma PlusAssociates(a: Totals, b: Totals, c: Totals)
    ensures Plus(Plus(a, b), c) == Plus(a, Plus(b, c))
  {
    MergeAssociates(a.parties, b.parties, c.parties);
  }

  lemma MergeAssociates(a: map<Party, int>, b: map<Party, int>, c: map<Party, int>)
    ensures MergeParties(MergeParties(a, b), c) == MergeParties(a, MergeParties(b, c))
  {
    var left, right := MergeParties(MergeParties(a, b), c), MergeParties(a, MergeParties(b, c));
    assert left.Keys == a.Keys + b.Keys + c.Keys == right.Keys;
    forall p | p in left
      ensures left[p] == right[p]
    {
      assert VotesOf(MergeParties(a, b), p) == VotesOf(a, p) + VotesOf(b, p);
      assert VotesOf(MergeParties(b, c), p) == VotesOf(b, p) + VotesOf(c, p);
    }
  }

  /** The total of a finite family of sheets; the order of summation does not matter. */
  ghost function Sum<K(!new)>(ks: set<K>, sheets: map<K, Sheet>): Totals
    requires ks <= sheets.Keys
  {
    if ks == {} then ZERO
    else
      var k :| k in ks;
      Plus(Tally(sheets[k]), Sum(ks - {k}, sheets))
  }

  lemma {:induction false} SumTakeOut<K(!new)>(ks: set<K>, sheets: map<K, Sheet>, k: K)
    requires k in ks && ks <= sheets.Keys
    ensures Sum(ks, sheets) == Plus(Tally(sheets[k]), Sum(ks - {k}, sheets))
    decreases ks
  {
    var j :| j in ks && Sum(ks, sheets) == Plus(Tally(sheets[j]), Sum(ks - {j}, sheets));
    if j != k {
      var rest := ks - {j} - {k};
      SumTakeOut(ks - {j}, sheets, k);
      SumTakeOut(ks - {k}, sheets, j);
      assert ks - {k} - {j} == rest;
      var a, b, c := Tally(sheets[j]), Tally(sheets[k]), Sum(rest, sheets);
      PlusAssociates(a, b, c);
      PlusCommutes(a, b);
      PlusAssociates(b, a, c);
    }
  }

  lemma {:induction false} SumCongruent<K(!new)>(ks: set<K>, sheets: map<K, Sheet>, other: map<K, Sheet>)
    requires ks <= sheets.Keys && ks <= other.Keys
    requires forall k :: k in ks ==> sheets[k] == other[k]
    ensures Sum(ks, sheets) == Sum(ks, other)
    decreases ks
  {
    if ks != {} {
      var k :| k in ks;
      SumCongruent(ks - {k}, sheets, other);
      SumTakeOut(ks, sheets, k);
      SumTakeOut(ks, other, k);
    }
  }

  lemma {:induction false} SumUnion<K(!new)>(a: set<K>, b: set<K>, sheets: map<K, Sheet>)
    requires a !! b && a + b <= sheets.Keys
    ensures Sum(a + b, sheets) == Plus(Sum(a, sheets), Sum(b, sheets))
    decreases |a|
  {
    if k :| k in a {
      SumUnion(a - {k}, b, sheets);
      SumUnionStep(k, a, b, sheets);
    } else {
      SumUnionNone(a, b, sheets);
    }
  }

  lemma TakeOutOfUnion<K(!new)>(a: set<K>, b: set<K>, k: K)
    requires k !in b
    ensures a + b - {k} == (a - {k}) + b
  {
  }

  lemma SumUnionNone<K(!new)>(a: set<K>, b: set<K>, sheets: map<K, Sheet>)
    requires a == {} && b <= sheets.Keys
    ensures Sum(a + b, sheets) == Plus(Sum(a, sheets), Sum(b, sheets))
  {
    assert a + b == b;
    PlusZero(Sum(b, sheets));
  }

  lemma SumUnionStep<K(!new)>(k: K, a: set<K>, b: set<K>, sheets: map<K, Sheet>)
    requires a + b <= sheets.Keys && k in a
    requires k !in b && Sum((a - {k}) + b, sheets) == Plus(Sum(a - {k}, sheets), Sum(b, sheets))
    ensures Sum(a + b, sheets) == Plus(Sum(a, sheets), Sum(b, sheets))
  {
    TakeOutOfUnion(a, b, k);
    SumTakeOut(a + b, sheets, k);
    SumTakeOut(a, sheets, k);
    PlusAssociates(Tally(sheets[k]), Sum(a - {k}, sheets), Sum(b, sheets));
  }

  ghost function Union<K(!new)>(ks: set<K>, parts: map<K, set<K>>): set<K>
    requires ks <= parts.Keys
  {
    set k, j | k in ks && j in parts[k] :: j
  }

  /**
   * If each group's sheet is the sum over its own members and no member is in two groups,
   * summing the groups is summing the members.
   */
  lemma {:induction false} SumOfGroups<K(!new)>(ks: set<K>, sheets: map<K, Sheet>, parts: map<K, set<K>>)
    requires ks <= sheets.Keys && ks <= parts.Keys
    requires forall k :: k in ks ==> parts[k] <= sheets.Keys && Tally(sheets[k]) == Sum(parts[k], sheets)
    requires forall k, j :: k in ks && j in ks && k != j ==> parts[k] !! parts[j]
    ensures Sum(ks, sheets) == Sum(Union(ks, parts), sheets)
    decreases ks
  {
    if ks == {} {
      assert Union(ks, parts) == {};
    } else {
      var k :| k in ks;
      SumOfGroups(ks - {k}, sheets, parts);
      assert Union(ks, parts) == parts[k] + Union(ks - {k}, parts);
      SumUnion(parts[k], Union(ks - {k}, parts), sheets);
      SumTakeOut(ks, sheets, k);
    }
  }
  // ---------------------------------------------------------------- figure by figure

  /** One figure added up over some sheets; where it is missing it adds nothing. */
  ghost function FigureSum<K(!new)>(ks: set<K>, sheets: map<K, Sheet>, figure: Sheet -> Option<int>): int
    requires ks <= sheets.Keys
  {
    if ks == {} then 0
    else
      var k :| k in ks;
      var rest := FigureSum(ks - {k}, sheets, figure);
      match figure(sheets[k])
      case None => rest
      case Some(n) => n + rest
  }

  lemma {:induction false} FigureSumTakeOut<K(!new)>(
      ks: set<K>, sheets: map<K, Sheet>, figure: Sheet -> Option<int>, k: K)
    requires k in ks && ks <= sheets.Keys
    ensures FigureSum(ks, sheets, figure) == figure(sheets[k]).Or(0) + FigureSum(ks - {k}, sheets, figure)
    decreases ks
  {
    var j :| j in ks
      && FigureSum(ks, sheets, figure) == figure(sheets[j]).Or(0) + FigureSum(ks - {j}, sheets, figure);
    if j != k {
      FigureSumTakeOut(ks - {j}, sheets, figure, k);
      FigureSumTakeOut(ks - {k}, sheets, figure, j);
      assert ks - {k} - {j} == ks - {j} - {k};
    }
  }

  /** The votes a sheet gives for a party, if it gives any. */
  ghost function Score(s: Sheet, p: Party): Option<int> {
    if s.partyResults.Some? && p in s.partyResults.value then s.partyResults.value[p] else None
  }

  ghost function ScoreFor(p: Party): Sheet -> Option<int> {
    s => Score(s, p)
  }

  ghost predicate Names(s: Sheet, p: Party) {
    s.partyResults.Some? && p in s.partyResults.value
  }

  ghost predicate AnyNames<K(!new)>(ks: set<K>, sheets: map<K, Sheet>, p: Party)
    requires ks <= sheets.Keys
  {
    exists k :: k in ks && Names(sheets[k], p)
  }

  /** Each figure of `total` is that figure added up over the sheets. */
  ghost predicate ShowsFigures<K(!new)>(total: Sheet, ks: set<K>, sheets: map<K, Sheet>)
    requires ks <= sheets.Keys
  {
    && total.registeredVoters == Some(FigureSum(ks, sheets, (s: Sheet) => s.registeredVoters))
    && total.accreditedVoters == Some(FigureSum(ks, sheets, (s: Sheet) => s.accreditedVoters))
    && total.ballotPapersIssued == Some(FigureSum(ks, sheets, (s: Sheet) => s.ballotPapersIssued))
    && total.unusedBallotPapers == Some(FigureSum(ks, sheets, (s: Sheet) => s.unusedBallotPapers))
    && total.spoiledBallotPapers == Some(FigureSum(ks, sheets, (s: Sheet) => s.spoiledBallotPapers))
    && total.votesCast == Some(FigureSum(ks, sheets, (s: Sheet) => s.votesCast))
    && total.invalidVotes == Some(FigureSum(ks, sheets, (s: Sheet) => s.invalidVotes))
    && total.usedBallotPapers == Some(FigureSum(ks, sheets, (s: Sheet) => s.usedBallotPapers))
  }

  /** The parties of `total` are those any of the sheets names, each with its votes added up. */
  ghost predicate ShowsParties<K(!new)>(total: Sheet, ks: set<K>, sheets: map<K, Sheet>)
    requires ks <= sheets.Keys
  {
    && total.partyResults.Some?
    && (forall p :: p in total.partyResults.value <==> AnyNames(ks, sheets, p))
    && (forall p :: p in total.partyResults.value ==>
          total.partyResults.value[p] == Some(FigureSum(ks, sheets, ScoreFor(p))))
  }

  ghost predicate ShowsTotals<K(!new)>(total: Sheet, ks: set<K>, sheets: map<K, Sheet>)
    requires ks <= sheets.Keys
  {
    ShowsFigures(total, ks, sheets) && ShowsParties(total, ks, sheets)
  }

  /** A figure of the total that adds up like the figure of the sheets. */
  lemma {:induction false} FigureOfSum<K(!new)>(
      ks: set<K>, sheets: map<K, Sheet>, total: Totals -> int, figure: Sheet -> Option<int>)
    requires ks <= sheets.Keys && total(ZERO) == 0
    requires forall a, b :: total(Plus(a, b)) == total(a) + total(b)
    requires forall s :: total(Tally(s)) == figure(s).Or(0)
    ensures total(Sum(ks, sheets)) == FigureSum(ks, sheets, figure)
    decreases ks
  {
    hide Plus, Tally;
    if ks == {} {
    } else {
      var k :| k in ks;
      FigureOfSum(ks - {k}, sheets, total, figure);
      SumTakeOut(ks, sheets, k);
      FigureSumTakeOut(ks, sheets, figure, k);
    }
  }

  /** What a roll-up publishes of some sheets, figure by figure and party by party. */
  lemma PublishedShowsTotals<K(!new)>(ks: set<K>, sheets: map<K, Sheet>)
    requires ks <= sheets.Keys
    ensures ShowsTotals(Published(Sum(ks, sheets)), ks, sheets)
  {
    hide FigureSum, Sum, ShowsParties;
    FigureOfSum(ks, sheets, (t: Totals) => t.registeredVoters, (s: Sheet) => s.registeredVoters);
    FigureOfSum(ks, sheets, (t: Totals) => t.accreditedVoters, (s: Sheet) => s.accreditedVoters);
    FigureOfSum(ks, sheets, (t: Totals) => t.ballotPapersIssued, (s: Sheet) => s.ballotPapersIssued);
    FigureOfSum(ks, sheets, (t: Totals) => t.unusedBallotPapers, (s: Sheet) => s.unusedBallotPapers);
    FigureOfSum(ks, sheets, (t: Totals) => t.spoiledBallotPapers, (s: Sheet) => s.spoiledBallotPapers);
    FigureOfSum(ks, sheets, (t: Totals) => t.votesCast, (s: Sheet) => s.votesCast);
    FigureOfSum(ks, sheets, (t: Totals) => t.invalidVotes, (s: Sheet) => s.invalidVotes);
    FigureOfSum(ks, sheets, (t: Totals) => t.usedBallotPapers, (s: Sheet) => s.usedBallotPapers);
    PublishedShowsParties(ks, sheets);
  }

  lemma {:induction false} UnnamedScoresNothing<K(!new)>(ks: set<K>, sheets: map<K, Sheet>, p: Party)
    requires ks <= sheets.Keys && !AnyNames(ks, sheets, p)
    ensures FigureSum(ks, sheets, ScoreFor(p)) == 0
    decreases ks
  {
    if k :| k in ks {
      UnnamedScoresNothing(ks - {k}, sheets, p);
      FigureSumTakeOut(ks, sheets, ScoreFor(p), k);
      assert !Names(sheets[k], p);
    }
  }

  lemma PartyWith<K(!new)>(rest: map<Party, int>, ks: set<K>, sheets: map<K, Sheet>, k: K, p: Party)
    requires k in ks && ks <= sheets.Keys && (p in rest <==> AnyNames(ks - {k}, sheets, p))
    requires p in rest ==> rest[p] == FigureSum(ks - {k}, sheets, ScoreFor(p))
    ensures
      var all := MergeParties(Tally(sheets[k]).parties, rest);
      && (p in all <==> AnyNames(ks, sheets, p))
      && (p in all ==> all[p] == FigureSum(ks, sheets, ScoreFor(p)))
  {
    hide FigureSum;
    FigureSumTakeOut(ks, sheets, ScoreFor(p), k);
    if p !in rest {
      UnnamedScoresNothing(ks - {k}, sheets, p);
    }
    assert AnyNames(ks, sheets, p) <==> AnyNames(ks - {k}, sheets, p) || Names(sheets[k], p);
  }

  lemma {:induction false} PartyOfSum<K(!new)>(ks: set<K>, sheets: map<K, Sheet>, p: Party)
    requires ks <= sheets.Keys
    ensures p in Sum(ks, sheets).parties <==> AnyNames(ks, sheets, p)
    ensures p in Sum(ks, sheets).parties ==> Sum(ks, sheets).parties[p] == FigureSum(ks, sheets, ScoreFor(p))
    decreases ks
  {
    if ks == {} {
    } else {
      var k :| k in ks;
      hide FigureSum, Sum, AnyNames, MergeParties;
      PartyOfSum(ks - {k}, sheets, p);
      SumTakeOut(ks, sheets, k);
      PartyWith(Sum(ks - {k}, sheets).parties, ks, sheets, k, p);
    }
  }

  lemma PublishedShowsParties<K(!new)>(ks: set<K>, sheets: map<K, Sheet>)
    requires ks <= sheets.Keys
    ensures ShowsParties(Published(Sum(ks, sheets)), ks, sheets)
  {
    hide FigureSum, Sum, AnyNames;
    forall p
      ensures p in Sum(ks, sheets).parties <==> AnyNames(ks, sheets, p)
      ensures p in Sum(ks, sheets).parties ==> Sum(ks, sheets).parties[p] == FigureSum(ks, sheets, ScoreFor(p))
    {
      PartyOfSum(ks, sheets, p);
    }
  }
}
