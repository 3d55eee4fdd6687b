/** The arithmetic check of a result sheet, and what a roll-up of checked sheets is worth. */
module SheetChecks {
  import opened Wrappers
  import opened Sheets

  // ---------------------------------------------------------------- party scores

  ghost function PartyTotal(m: map<Party, int>): int
    decreases |m|
  {
    if m == map[] then 0
    else
      var p :| p in m;
      Fewer(m, p);
      m[p] + PartyTotal(m - {p})
  }

  lemma Fewer(m: map<Party, int>, p: Party)
    requires p in m
    ensures |m - {p}| < |m|
  {
    assert m.Keys == (m - {p}).Keys + {p};
  }

  lemma {:induction false} PartyTotalTakeOut(m: map<Party, int>, p: Party)
    requires p in m
    ensures PartyTotal(m) == m[p] + PartyTotal(m - {p})
    decreases |m|
  {
    var q :| q in m && PartyTotal(m) == m[q] + PartyTotal(m - {q});
    if q != p {
      Fewer(m, p);
      Fewer(m, q);
      PartyTotalTakeOut(m - {q}, p);
      PartyTotalTakeOut(m - {p}, q);
      assert m - {q} - {p} == m - {p} - {q};
    }
  }

  lemma TotalWithout(m: map<Party, int>, p: Party)
    ensures PartyTotal(m) == VotesOf(m, p) + PartyTotal(m - {p})
  {
    if p in m {
      PartyTotalTakeOut(m, p);
    } else {
      assert m - {p} == m;
    }
  }

  lemma MergeTakeOut(a: map<Party, int>, b: map<Party, int>, p: Party)
    ensures MergeParties(a, b) - {p} == MergeParties(a - {p}, b - {p})
    ensures VotesOf(MergeParties(a, b), p) == VotesOf(a, p) + VotesOf(b, p)
  {
  }

  lemma MergeNothing(b: map<Party, int>)
    ensures MergeParties(map[], b) == b
  {
  }

  /** The party sum of two merged maps is the sum of their party sums. */
  lemma {:induction false} PartyTotalOfMerge(a: map<Party, int>, b: map<Party, int>)
    ensures PartyTotal(MergeParties(a, b)) == PartyTotal(a) + PartyTotal(b)
    decreases |a|
  {
    if a == map[] {
      MergeNothing(b);
    } else {
      hide MergeParties, VotesOf;
      var p :| p in a;
      Fewer(a, p);
      PartyTotalOfMerge(a - {p}, b - {p});
      MergeTakeOut(a, b, p);
      TotalWithout(a, p);
      TotalWithout(b, p);
      TotalWithout(MergeParties(a, b), p);
    }
  }

  /** The scores that are numbers; a score typed as null does not take part. */
  function Numbers(m: map<Party, Option<int>>): map<Party, int> {
    map p | p in m && m[p].Some? :: m[p].value
  }

  /** The sum of the party scores, if there is any score at all. */
  ghost function PartySum(results: Option<map<Party, Option<int>>>): Option<int> {
    if results.None? || Numbers(results.value) == map[] then None
    else Some(PartyTotal(Numbers(results.value)))
  }

  method PartyVotesSum(results: Option<map<Party, Option<int>>>) returns (r: Option<int>)
    ensures r == PartySum(results)
  {
    if results.None? {
      return None;
    }
    var m := results.value;
    var sum, any, codes := 0, false, m.Keys;
    while codes != {}
      invariant codes <= m.Keys
      invariant sum + PartyTotal(Scored(m, codes)) == PartyTotal(Numbers(m))
      invariant any <==> exists p :: p in m.Keys - codes && m[p].Some?
      decreases codes
    {
      var code :| code in codes;
      if m[code].Some? {
        PartyTotalTakeOut(Scored(m, codes), code);
        sum, any := sum + m[code].value, true;
      }
      assert Scored(m, codes) - {code} == Scored(m, codes - {code});
      assert m[code].None? ==> Scored(m, codes) == Scored(m, codes - {code});
      codes := codes - {code};
    }
    AnyNumber(m);
    return if any then Some(sum) else None;
  }

  lemma AnyNumber(m: map<Party, Option<int>>)
    ensures Numbers(m) != map[] <==> exists p :: p in m && m[p].Some?
  {
    if p :| p in m && m[p].Some? {
      assert p in Numbers(m);
    } else {
      assert Numbers(m).Keys == {};
    }
  }

  ghost function Scored(m: map<Party, Option<int>>, codes: set<Party>): (r: map<Party, int>)
    ensures codes == m.Keys ==> r == Numbers(m)
  {
    map p | p in m && p in codes && m[p].Some? :: m[p].value
  }

  // ---------------------------------------------------------------- the five relations

  datatype Relation =
    | AccreditedWithinRegistered
    | PartiesMakeValidVotes
    | PartsMakeUsedBallots
    | UsedAndUnusedMakeIssued
    | AccreditedAreUsed

  /** A sum of figures of which at least one is known; the others count as zero. */
  function Parts(a: Option<int>, b: Option<int>, c: Option<int>): Option<int> {
    if a.Some? || b.Some? || c.Some? then Some(a.Or(0) + b.Or(0) + c.Or(0)) else None
  }

  /** The two sides a relation compares. */
  ghost function Left(r: Relation, s: Sheet): Option<int> {
    match r
    case AccreditedWithinRegistered | AccreditedAreUsed => s.accreditedVoters
    case PartiesMakeValidVotes => s.votesCast
    case PartsMakeUsedBallots => s.usedBallotPapers
    case UsedAndUnusedMakeIssued => s.ballotPapersIssued
  }

  ghost function Right(r: Relation, s: Sheet): Option<int> {
    match r
    case AccreditedWithinRegistered => s.registeredVoters
    case PartiesMakeValidVotes => PartySum(s.partyResults)
    case PartsMakeUsedBallots => Parts(s.spoiledBallotPapers, s.invalidVotes, s.votesCast)
    case UsedAndUnusedMakeIssued => Parts(s.usedBallotPapers, s.unusedBallotPapers, None)
    case AccreditedAreUsed => s.usedBallotPapers
  }

  /** A relation can only fail when both its sides are known. */
  ghost predicate Holds(r: Relation, s: Sheet) {
    var left, right := Left(r, s), Right(r, s);
    left.Some? && right.Some? ==>
      if r == AccreditedWithinRegistered then left.value <= right.value else left.value == right.value
  }

  ghost predicate HasAnyFigures(s: Sheet) {
    || s.registeredVoters.Some? || s.accreditedVoters.Some? || s.ballotPapersIssued.Some?
    || s.unusedBallotPapers.Some? || s.spoiledBallotPapers.Some? || s.invalidVotes.Some?
    || s.votesCast.Some? || s.usedBallotPapers.Some? || PartySum(s.partyResults).Some?
  }

  // ---------------------------------------------------------------- the check

  datatype Status = Match | Mismatch | Unreadable | Pending

  datatype Recommendation = Approve | Return | CheckPhoto

  datatype Engine = Arithmetic | Ocr

  datatype Field =
    | RegisteredVoters | AccreditedVoters | BallotPapersIssued | UnusedBallotPapers
    | SpoiledBallotPapers | InvalidVotes | VotesCast | UsedBallotPapers
    | PartyVotes(code: Party)

  /** What a message says, without its wording. */
  datatype Message =
    | Fails(relation: Relation, typed: int, expected: int)
    | PhotoReads(field: Field, typed: int, read: int)
    | PhotoPartiesTotal(typed: int, total: int)

  datatype Diff = Diff(field: Field, typed: int, expected: int, message: Message)

  datatype Flag =
    | FiguresIncomplete | OcrPending | Failed(relation: Relation) | OcrMismatch(field: Field) | OcrPartySumNeValid

  datatype Verification = Verification(
    status: Status,
    recommendation: Recommendation,
    engine: Engine,
    confidence: Option<real>,
    flags: seq<Flag>,
    diffs: seq<Diff>,
    rejectReason: Option<seq<Message>>,
    photoCount: nat,
    ocrError: Option<string>,
    ocrFields: Option<map<Field, int>>)

  function FieldOf(r: Relation): Field {
    match r
    case AccreditedWithinRegistered | AccreditedAreUsed => AccreditedVoters
    case PartiesMakeValidVotes => VotesCast
    case PartsMakeUsedBallots => UsedBallotPapers
    case UsedAndUnusedMakeIssued => BallotPapersIssued
  }

  function Complaint(r: Relation, typed: int, expected: int): Diff {
    Diff(FieldOf(r), typed, expected, Fails(r, typed, expected))
  }

  ghost function Complaints(r: Relation, s: Sheet): seq<Diff> {
    Compared(r, Left(r, s), Right(r, s))
  }

  ghost function AllComplaints(s: Sheet): seq<Diff> {
    Complaints(AccreditedWithinRegistered, s)
    + Complaints(PartiesMakeValidVotes, s)
    + Complaints(PartsMakeUsedBallots, s)
    + Complaints(UsedAndUnusedMakeIssued, s)
    + Complaints(AccreditedAreUsed, s)
  }

  function FlagOf(d: Diff): Flag
    requires d.message.Fails?
  {
    Failed(d.message.relation)
  }

  /** The reject reason suggested: the first two messages. */
  function Reason(diffs: seq<Diff>): Option<seq<Message>> {
    if diffs == [] then None
    else if |diffs| == 1 then Some([diffs[0].message])
    else Some([diffs[0].message, diffs[1].message])
  }

  predicate Flagged(diffs: seq<Diff>, flags: seq<Flag>) {
    |flags| == |diffs| && forall i | 0 <= i < |diffs| :: diffs[i].message.Fails? && flags[i] == FlagOf(diffs[i])
  }

  predicate Reports(v: Verification, diffs: seq<Diff>) {
    && v.diffs == diffs && Flagged(diffs, v.flags) && v.rejectReason == Reason(diffs)
    && v.status == (if diffs == [] then Match else Mismatch)
    && v.recommendation == (if diffs == [] then Approve else Return)
    && v.confidence == Some(1.0)
  }

  /** What the arithmetic check says of a sheet. */
  ghost predicate Checked(v: Verification, s: Sheet, photos: nat) {
    && v.engine == Arithmetic && v.photoCount == photos && v.ocrError == None && v.ocrFields == None
    && if HasAnyFigures(s) then Reports(v, AllComplaints(s))
       else
         && v.status == Pending && v.recommendation == CheckPhoto && v.confidence == None
         && v.flags == [FiguresIncomplete] && v.diffs == [] && v.rejectReason == None
  }

  method HasFigures(s: Sheet) returns (any: bool)
    ensures any == HasAnyFigures(s)
  {
    var partySum := PartyVotesSum(s.partyResults);
    any := s.registeredVoters.Some? || s.accreditedVoters.Some? || s.ballotPapersIssued.Some?
      || s.unusedBallotPapers.Some? || s.spoiledBallotPapers.Some? || s.invalidVotes.Some?
      || s.votesCast.Some? || s.usedBallotPapers.Some? || partySum.Some?;
  }

  function Compared(r: Relation, left: Option<int>, right: Option<int>): seq<Diff> {
    if left.Some? && right.Some?
      && (if r == AccreditedWithinRegistered then left.value > right.value else left.value != right.value)
    then [Complaint(r, left.value, right.value)] else []
  }

  /** Compare two figures, if both are there, and add a difference and its flag if they disagree. */
  method AddDiff(diffs: seq<Diff>, flags: seq<Flag>, relation: Relation, typed: Option<int>, expected: Option<int>)
    returns (newDiffs: seq<Diff>, newFlags: seq<Flag>)
    requires Flagged(diffs, flags)
    ensures newDiffs == diffs + Compared(relation, typed, expected)
    ensures Flagged(newDiffs, newFlags)
  {
    newDiffs, newFlags := diffs, flags;
    if typed.Some? && expected.Some? {
      var wrong := if relation == AccreditedWithinRegistered then typed.value > expected.value
        else typed.value != expected.value;
      if wrong {
        var message := Fails(relation, typed.value, expected.value);
        newDiffs := diffs + [Diff(FieldOf(relation), typed.value, expected.value, message)];
        newFlags := flags + [Failed(relation)];
      }
    }
  }

  /** The reject reason made from the first two messages. */
  method SuggestReason(diffs: seq<Diff>) returns (reason: Option<seq<Message>>)
    ensures reason == Reason(diffs)
  {
    if |diffs| == 0 {
      return None;
    }
    var first := if |diffs| < 2 then diffs else diffs[..2];
    var messages := seq(|first|, i requires 0 <= i < |first| => first[i].message);
    assert messages == Reason(diffs).value;
    return Some(messages);
  }

  method ArithmeticVerification(s: Sheet, photos: nat) returns (v: Verification)
    ensures Checked(v, s, photos)
  {
    hide PartySum, HasAnyFigures, Flagged, Reason, Complaint, Compared, AllComplaints;
    var partySum := PartyVotesSum(s.partyResults);
    var diffs: seq<Diff>, flags: seq<Flag> := [], [];
    assert Flagged(diffs, flags) by { NothingFlagged(); }
    var any := HasFigures(s);
    if !any {
      return Verification(Pending, CheckPhoto, Arithmetic, None, [FiguresIncomplete], [], None, photos, None, None);
    }
    var registered, accredited := s.registeredVoters, s.accreditedVoters;
    var issued, unused := s.ballotPapersIssued, s.unusedBallotPapers;
    var spoiled, rejected, valid, used := s.spoiledBallotPapers, s.invalidVotes, s.votesCast, s.usedBallotPapers;
    diffs, flags := AddDiff(diffs, flags, AccreditedWithinRegistered, accredited, registered);
    diffs, flags := AddDiff(diffs, flags, PartiesMakeValidVotes, valid, partySum);
    var usedFromParts := if spoiled.Some? || rejected.Some? || valid.Some?
      then Some(spoiled.Or(0) + rejected.Or(0) + valid.Or(0)) else None;
    diffs, flags := AddDiff(diffs, flags, PartsMakeUsedBallots, used, usedFromParts);
    var issuedFromParts := if used.Some? || unused.Some? then Some(used.Or(0) + unused.Or(0)) else None;
    diffs, flags := AddDiff(diffs, flags, UsedAndUnusedMakeIssued, issued, issuedFromParts);
    diffs, flags := AddDiff(diffs, flags, AccreditedAreUsed, accredited, used);
    JoinedComplaints(s, diffs, partySum, usedFromParts, issuedFromParts);
    var mismatch := |diffs| > 0;
    var reason := SuggestReason(diffs);
    v := Verification(
      if mismatch then Mismatch else Match,
      if mismatch then Return else Approve,
      Arithmetic, Some(1.0), flags, diffs, reason, photos, None, None);
  }

  lemma JoinedComplaints(s: Sheet, diffs: seq<Diff>, sum: Option<int>, used: Option<int>, issued: Option<int>)
    requires sum == PartySum(s.partyResults) && used == Parts(s.spoiledBallotPapers, s.invalidVotes, s.votesCast)
    requires issued == Parts(s.usedBallotPapers, s.unusedBallotPapers, None)
    requires diffs == [] + Compared(AccreditedWithinRegistered, s.accreditedVoters, s.registeredVoters)
      + Compared(PartiesMakeValidVotes, s.votesCast, sum) + Compared(PartsMakeUsedBallots, s.usedBallotPapers, used)
      + Compared(UsedAndUnusedMakeIssued, s.ballotPapersIssued, issued)
      + Compared(AccreditedAreUsed, s.accreditedVoters, s.usedBallotPapers)
    ensures diffs == AllComplaints(s)
  {
    hide Compared, PartySum, Parts;
  }

  lemma NothingFlagged()
    ensures Flagged([], [])
  {
  }

  /** The verdict of the arithmetic check, figure by figure. */
  lemma VerdictExactly(v: Verification, s: Sheet, photos: nat)
    requires Checked(v, s, photos)
    ensures v.status == Pending <==> !HasAnyFigures(s)
    ensures v.status == Match <==> HasAnyFigures(s) && forall r :: Holds(r, s)
    ensures v.status == Mismatch <==> exists r :: !Holds(r, s)
    ensures v.recommendation == Return <==> v.diffs != []
  {
    ComplaintsExactly(s);
  }

  lemma ComplaintsExactly(s: Sheet)
    ensures AllComplaints(s) == [] <==> forall r :: Holds(r, s)
    ensures AllComplaints(s) != [] ==> HasAnyFigures(s)
  {
    var n := r => |Complaints(r, s)|;
    assert |AllComplaints(s)| == n(AccreditedWithinRegistered) + n(PartiesMakeValidVotes) + n(PartsMakeUsedBallots)
      + n(UsedAndUnusedMakeIssued) + n(AccreditedAreUsed);
    forall r
      ensures n(r) == 0 <==> Holds(r, s)
    {
    }
    if AllComplaints(s) == [] {
      forall r
        ensures n(r) == 0
      {
        AnyRelation(r);
      }
    }
  }

  /** The five relations, figure by figure; each can only fail when both its sides are known. */
  ghost predicate Balances(s: Sheet) {
    && (s.accreditedVoters.Some? && s.registeredVoters.Some? ==> s.accreditedVoters.value <= s.registeredVoters.value)
    && (s.votesCast.Some? && PartySum(s.partyResults).Some? ==> s.votesCast == PartySum(s.partyResults))
    && (s.usedBallotPapers.Some? && (s.spoiledBallotPapers.Some? || s.invalidVotes.Some? || s.votesCast.Some?) ==>
          s.usedBallotPapers.value == s.spoiledBallotPapers.Or(0) + s.invalidVotes.Or(0) + s.votesCast.Or(0))
    && (s.ballotPapersIssued.Some? && (s.usedBallotPapers.Some? || s.unusedBallotPapers.Some?) ==>
          s.ballotPapersIssued.value == s.usedBallotPapers.Or(0) + s.unusedBallotPapers.Or(0))
    && (s.accreditedVoters.Some? && s.usedBallotPapers.Some? ==> s.accreditedVoters == s.usedBallotPapers)
  }

  lemma RelationsExactly(s: Sheet)
    ensures (forall r :: Holds(r, s)) <==> Balances(s)
  {
    hide PartySum;
    if forall r :: Holds(r, s) {
      assert Holds(AccreditedWithinRegistered, s) && Holds(PartiesMakeValidVotes, s);
      assert Holds(PartsMakeUsedBallots, s) && Holds(UsedAndUnusedMakeIssued, s) && Holds(AccreditedAreUsed, s);
    }
    if Balances(s) {
      forall r
        ensures Holds(r, s)
      {
        AnyRelation(r);
      }
    }
  }

  /** What a difference of the check says: the field, the figure typed in it, and what it should be. */
  ghost predicate SaysWhatFails(s: Sheet, d: Diff) {
    d.message.Fails? && d.message.typed == d.typed && d.message.expected == d.expected &&
    match d.message.relation
    case AccreditedWithinRegistered =>
      d.field == AccreditedVoters && s.accreditedVoters == Some(d.typed) && s.registeredVoters == Some(d.expected)
    case PartiesMakeValidVotes =>
      d.field == VotesCast && s.votesCast == Some(d.typed) && PartySum(s.partyResults) == Some(d.expected)
    case PartsMakeUsedBallots =>
      && d.field == UsedBallotPapers && s.usedBallotPapers == Some(d.typed)
      && d.expected == s.spoiledBallotPapers.Or(0) + s.invalidVotes.Or(0) + s.votesCast.Or(0)
    case UsedAndUnusedMakeIssued =>
      && d.field == BallotPapersIssued && s.ballotPapersIssued == Some(d.typed)
      && d.expected == s.usedBallotPapers.Or(0) + s.unusedBallotPapers.Or(0)
    case AccreditedAreUsed =>
      d.field == AccreditedVoters && s.accreditedVoters == Some(d.typed) && s.usedBallotPapers == Some(d.expected)
  }

  lemma ComplaintsSayWhatFails(s: Sheet, d: Diff)
    requires d in AllComplaints(s)
    ensures SaysWhatFails(s, d)
  {
    hide PartySum;
    var r :| d in Complaints(r, s) by {
      assert d in AllComplaints(s);
    }
  }

  lemma AnyRelation(r: Relation)
    ensures r in {
      AccreditedWithinRegistered, PartiesMakeValidVotes, PartsMakeUsedBallots,
      UsedAndUnusedMakeIssued, AccreditedAreUsed}
  {
  }

  // ---------------------------------------------------------------- roll-ups of checked sheets

  /** All figures are there, and at least one party score. */
  ghost predicate Complete(s: Sheet) {
    && s.registeredVoters.Some? && s.accreditedVoters.Some? && s.ballotPapersIssued.Some?
    && s.unusedBallotPapers.Some? && s.spoiledBallotPapers.Some? && s.votesCast.Some?
    && s.invalidVotes.Some? && s.usedBallotPapers.Some? && PartySum(s.partyResults).Some?
  }

  ghost predicate Matches(s: Sheet) {
    HasAnyFigures(s) && AllComplaints(s) == []
  }

  ghost predicate BallotsBalance(t: Totals) {
    && t.accreditedVoters <= t.registeredVoters
    && t.usedBallotPapers == t.spoiledBallotPapers + t.invalidVotes + t.votesCast
    && t.ballotPapersIssued == t.usedBallotPapers + t.unusedBallotPapers
    && t.accreditedVoters == t.usedBallotPapers
  }

  /** Totals that satisfy the five relations, with nothing missing. */
  ghost predicate Balanced(t: Totals) {
    BallotsBalance(t) && PartyTotal(t.parties) == t.votesCast
  }

  lemma BalancedPlus(a: Totals, b: Totals)
    requires Balanced(a) && Balanced(b)
    ensures Balanced(Plus(a, b))
  {
    PartyTotalOfMerge(a.parties, b.parties);
  }

  function Zeros(m: map<Party, Option<int>>): map<Party, int> {
    map p | p in m :: m[p].Or(0)
  }

  lemma ZerosTakeOut(m: map<Party, Option<int>>, p: Party)
    requires p in m
    ensures Zeros(m) - {p} == Zeros(m - {p}) && Numbers(m) - {p} == Numbers(m - {p})
    ensures VotesOf(Zeros(m), p) == VotesOf(Numbers(m), p)
    ensures |m - {p}| < |m|
  {
    assert m.Keys == (m - {p}).Keys + {p};
  }

  /** Scores typed as null count as zero, and zeros do not change the total. */
  lemma {:induction false} NullsCountNothing(m: map<Party, Option<int>>)
    ensures PartyTotal(Zeros(m)) == PartyTotal(Numbers(m))
    decreases |m|
  {
    if p :| p in m {
      hide Zeros, Numbers, VotesOf;
      ZerosTakeOut(m, p);
      NullsCountNothing(m - {p});
      TotalWithout(Zeros(m), p);
      TotalWithout(Numbers(m), p);
    } else {
      assert Zeros(m) == Numbers(m) == map[];
    }
  }

  lemma CompleteIsBalanced(s: Sheet)
    requires Complete(s) && Matches(s)
    ensures Balanced(Tally(s))
  {
    ComplaintsExactly(s);
    NullsCountNothing(s.partyResults.value);
    assert Tally(s).parties == Zeros(s.partyResults.value);
    assert Holds(AccreditedWithinRegistered, s) && Holds(PartiesMakeValidVotes, s);
    assert Holds(PartsMakeUsedBallots, s) && Holds(UsedAndUnusedMakeIssued, s) && Holds(AccreditedAreUsed, s);
  }

  /** A published roll-up passes exactly if its totals balance; without parties its votes are free. */
  lemma PublishedMatchesExactly(t: Totals)
    ensures Matches(Published(t))
      <==> BallotsBalance(t) && (t.parties == map[] || PartyTotal(t.parties) == t.votesCast)
  {
    var s := Published(t);
    ComplaintsExactly(s);
    assert Numbers(s.partyResults.value) == t.parties;
    if Matches(s) {
      assert Holds(AccreditedWithinRegistered, s) && Holds(PartiesMakeValidVotes, s);
      assert Holds(PartsMakeUsedBallots, s) && Holds(UsedAndUnusedMakeIssued, s) && Holds(AccreditedAreUsed, s);
    }
  }

  lemma {:induction false} SumIsBalanced<K(!new)>(ks: set<K>, sheets: map<K, Sheet>)
    requires ks <= sheets.Keys && forall k :: k in ks ==> Complete(sheets[k]) && Matches(sheets[k])
    ensures Balanced(Sum(ks, sheets))
    decreases ks
  {
    if k :| k in ks {
      SumIsBalanced(ks - {k}, sheets);
      CompleteIsBalanced(sheets[k]);
      BalancedPlus(Tally(sheets[k]), Sum(ks - {k}, sheets));
      SumTakeOut(ks, sheets, k);
    }
  }

  /** A roll-up of complete sheets that all pass the check passes it too. */
  lemma RollupOfMatchingSheetsMatches<K(!new)>(ks: set<K>, sheets: map<K, Sheet>)
    requires ks <= sheets.Keys && forall k :: k in ks ==> Complete(sheets[k]) && Matches(sheets[k])
    ensures Matches(Published(Sum(ks, sheets)))
  {
    SumIsBalanced(ks, sheets);
    PublishedMatchesExactly(Sum(ks, sheets));
  }

  /** Completeness is needed: this sheet passes because the register is not filled in, its roll-up fails. */
  lemma IncompleteSheetMayFailAbove()
    ensures
      var s := BLANK_SHEET.(accreditedVoters := Some(5));
      Matches(s) && !Matches(Published(Tally(s)))
  {
    var s := BLANK_SHEET.(accreditedVoters := Some(5));
    ComplaintsExactly(s);
    ComplaintsExactly(Published(Tally(s)));
    assert !Holds(AccreditedWithinRegistered, Published(Tally(s)));
  }
}
