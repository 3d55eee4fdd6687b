/**
 * The service object: each call checks, queries and updates the result table step by step, as the
 * program does, and is proved to leave the table that Workflow specifies.
 */
module CollationService {
  import opened Wrappers
  import opened Hierarchy
  import opened Sheets
  import opened Workflow
  import opened Runs
  import opened Effects
  import opened Invariants
  import opened BulkReturns
  import opened Conservation
  import opened Publication
  import opened Authority
  import opened RowEffects

  /** A call either leaves the specified table, or throws the specified error and leaves the table alone. */
  ghost predicate Outcome<T>(before: Table, after: Table, specified: Result<Table>, r: Result<T>) {
    match specified
    case Ok(t) => after == t && r.Ok?
    case Err(e) => after == before && r == Err(e)
  }

  /** Equal in the eight figures. */
  predicate SameNumbers(a: Totals, b: Totals) {
    a.(parties := map[]) == b.(parties := map[])
  }

  datatype BulkResult = BulkResult(returnedCount: nat, flaggedCount: nat, reason: string)

  class Service {
    const g: Register
    var rows: Table

    constructor (register: Register)
      ensures g == register && rows == map[]
    {
      g := register;
      rows := map[];
    }

    // -------------------------------------------------------------- roll-ups

    method SumFigures(children: set<Key>) returns (acc: Totals)
      requires children <= rows.Keys
      ensures SameNumbers(acc, Sum(children, SheetsOf(rows)))
    {
      acc := ZERO;
      var todo := children;
      while todo != {}
        invariant todo <= children
        invariant SameNumbers(acc, Sum(children - todo, SheetsOf(rows)))
        decreases todo
      {
        hide Sum, MergeParties;
        var k :| k in todo;
        var r := rows[k].sheet;
        acc := acc.(
          registeredVoters := acc.registeredVoters + r.registeredVoters.Or(0),
          accreditedVoters := acc.accreditedVoters + r.accreditedVoters.Or(0),
          ballotPapersIssued := acc.ballotPapersIssued + r.ballotPapersIssued.Or(0),
          unusedBallotPapers := acc.unusedBallotPapers + r.unusedBallotPapers.Or(0),
          spoiledBallotPapers := acc.spoiledBallotPapers + r.spoiledBallotPapers.Or(0),
          votesCast := acc.votesCast + r.votesCast.Or(0),
          invalidVotes := acc.invalidVotes + r.invalidVotes.Or(0),
          usedBallotPapers := acc.usedBallotPapers + r.usedBallotPapers.Or(0));
        OneMore(children, todo, k);
        todo := todo - {k};
      }
      assert children - todo == children;
    }

    lemma OneMore(children: set<Key>, todo: set<Key>, k: Key)
      requires children <= rows.Keys && todo <= children && k in todo
      ensures Sum(children - (todo - {k}), SheetsOf(rows))
           == Plus(Tally(rows[k].sheet), Sum(children - todo, SheetsOf(rows)))
    {
      assert children - (todo - {k}) - {k} == children - todo;
      SumTakeOut(children - (todo - {k}), SheetsOf(rows), k);
    }

    method AggregatePartyResults(children: set<Key>) returns (totals: map<Party, int>)
      requires children <= rows.Keys
      ensures totals == Sum(children, SheetsOf(rows)).parties
    {
      totals := map[];
      var todo := children;
      while todo != {}
        invariant todo <= children
        invariant totals == Sum(children - todo, SheetsOf(rows)).parties
        decreases todo
      {
        hide Sum, MergeParties;
        var k :| k in todo;
        if rows[k].sheet.partyResults.Some? {
          totals := AddParties(totals, rows[k].sheet.partyResults.value);
        }
        OneMore(children, todo, k);
        assert totals == MergeParties(Tally(rows[k].sheet).parties, Sum(children - todo, SheetsOf(rows)).parties);
        todo := todo - {k};
      }
      assert children - todo == children;
    }

    static method AddParties(before: map<Party, int>, partyResults: map<Party, Option<int>>)
      returns (totals: map<Party, int>)
      ensures totals == MergeParties(map p | p in partyResults :: partyResults[p].Or(0), before)
    {
      totals := before;
      var left := partyResults.Keys;
      while left != {}
        invariant left <= partyResults.Keys
        invariant totals.Keys == before.Keys + (partyResults.Keys - left)
        invariant forall p :: p in totals ==>
          totals[p] == VotesOf(before, p) + (if p in partyResults.Keys - left then partyResults[p].Or(0) else 0)
        decreases left
      {
        var party :| party in left;
        totals := totals[party := VotesOf(totals, party) + partyResults[party].Or(0)];
        left := left - {party};
      }
    }

    method RollupToParent(at: Key, clear: bool, keep: bool)
      modifies this`rows
      ensures rows == Rollup(g, old(rows), at, clear, keep)
      ensures RolledUp(at.level) ==> Shows(g, rows, at)
    {
      RollupShows(g, rows, at, clear, keep);
      hide Shows, RollupRow, Sum;
      var children := ChildKeys(g, rows, at);
      if children == {} && at !in rows {
        return;
      }
      var figures := SumFigures(children);
      var parties := AggregatePartyResults(children);
      var totals := figures.(parties := parties);
      assert totals == Sum(children, SheetsOf(rows));
      rows := rows[at := RollupRow(Find(rows, at), totals, clear, keep)];
    }

    static lemma RollupShows(g: Register, t: Table, at: Key, clear: bool, keep: bool)
      ensures RolledUp(at.level) ==> Shows(g, Rollup(g, t, at, clear, keep), at)
    {
      hide Rollup, Shows;
      if RolledUp(at.level) {
        RollupIsConsistent(g, t, at, clear, keep);
        ConsistentShows(g, Rollup(g, t, at, clear, keep), at);
      }
    }

    method PublishAncestryRollups(from: Key, clear: bool, keep: bool)
      requires g.Valid()
      modifies this`rows
      ensures rows == PublishAncestry(g, old(rows), from, clear, keep)
    {
      if from.level == PollingUnit || from.level == Ward {
        if from.scope !in (if from.level == PollingUnit then g.puWard else g.wardLga) {
          return;
        }
        var ward := if from.level == PollingUnit then g.puWard[from.scope] else from.scope;
        var lga := g.wardLga[ward];
        RollupToParent(Key(from.contest, Ward, ward), clear, keep);
        RollupToParent(Key(from.contest, Lga, lga), false, false);
        RollupToParent(Key(from.contest, State, g.lgaState[lga]), false, false);
      } else if from.level == Lga {
        RollupToParent(Key(from.contest, Lga, from.scope), clear, keep);
        if from.scope in g.lgaState {
          RollupToParent(Key(from.contest, State, g.lgaState[from.scope]), false, false);
        }
      }
    }

    // -------------------------------------------------------------- entry and submission

    /** One field of a request: what is left out stays. */
    static method Take<T(==)>(given: Patch<T>, was: T) returns (now: T)
      ensures Takes(given, was, now)
    {
      now := if given.Set? then given.value else was;
    }

    /** The figures of a request over those of a sheet. */
    static method EnterFigures(dto: Entry, was: Sheet) returns (now: Sheet)
      ensures TakesFigures(dto, was, now) && now == Entered(dto, was)
    {
      hide Takes;
      var registeredVoters := Take(dto.registeredVoters, was.registeredVoters);
      var accreditedVoters := Take(dto.accreditedVoters, was.accreditedVoters);
      var ballotPapersIssued := Take(dto.ballotPapersIssued, was.ballotPapersIssued);
      var unusedBallotPapers := Take(dto.unusedBallotPapers, was.unusedBallotPapers);
      var spoiledBallotPapers := Take(dto.spoiledBallotPapers, was.spoiledBallotPapers);
      var votesCast := Take(dto.votesCast, was.votesCast);
      var invalidVotes := Take(dto.invalidVotes, was.invalidVotes);
      var usedBallotPapers := Take(dto.usedBallotPapers, was.usedBallotPapers);
      now := Sheet(
        registeredVoters, accreditedVoters, ballotPapersIssued, unusedBallotPapers, spoiledBallotPapers,
        votesCast, invalidVotes, usedBallotPapers,
        if dto.partyResults.Set? then Some(dto.partyResults.value) else was.partyResults);
      TakenIsEntered(dto, was, now);
    }

    static lemma TakenIsEntered(dto: Entry, was: Sheet, now: Sheet)
      requires TakesFigures(dto, was, now)
      ensures now == Entered(dto, was)
    {
    }

    method UpsertResult(user: User, contest: Id, dto: Entry) returns (r: Result<Row>)
      modifies this`rows
      ensures Outcome(old(rows), rows, Save(old(rows), user, contest, dto), r)
      ensures r.Ok? ==>
        var at := Key(contest, user.Posting().value.level, user.Posting().value.scope);
        at in rows && r.value == rows[at] && IsSaved(dto, RowBefore(old(rows), at), r.value)
    {
      if user.Posting().None? {
        return Err(Forbidden);
      }
      var level := user.Posting().value.level;
      if level == Ward {
        return Err(Forbidden);
      }
      var at := Key(contest, level, user.Posting().value.scope);
      if at in rows && !Editable(rows[at].status) {
        return Err(BadRequest);
      }
      var existing := if at in rows then rows[at]
                      else Row(BLANK_SHEET, Draft, None, None, [], [], [], []);
      var photos := if dto.photos.Set? then dto.photos.value else existing.photos;
      var sheet := EnterFigures(dto, existing.sheet);
      rows := rows[at := existing.(sheet := sheet, photos := photos, status := Draft, rejectionReason := None)];
      return Ok(rows[at]);
    }

    method AttachEc8aPhoto(user: User, at: Key, url: string) returns (r: Result<Row>)
      modifies this`rows
      ensures Outcome(old(rows), rows, AttachPhoto(old(rows), user, at, url), r)
      ensures r.Ok? ==> r.value == rows[at]
    {
      if user.Posting().None? {
        return Err(Forbidden);
      }
      var error := OwnershipError(rows, user.Posting().value, at);
      if error.Some? {
        return Err(error.value);
      }
      if !Editable(rows[at].status) {
        return Err(BadRequest);
      }
      rows := rows[at := rows[at].(photos := rows[at].photos + [url])];
      return Ok(rows[at]);
    }

    method WriteActionLog(at: Key, entry: LogEntry)
      requires at in rows
      modifies this`rows
      ensures rows == old(rows)[at := old(rows)[at].(log := old(rows)[at].log + [entry])]
    {
      rows := rows[at := rows[at].(log := rows[at].log + [entry])];
    }

    method SubmitResult(user: User, at: Key) returns (r: Result<Row>)
      modifies this`rows
      ensures Outcome(old(rows), rows, Submit(old(rows), user, at), r)
      ensures r.Ok? ==> r.value.sheet == old(rows)[at].sheet && r.value.status == Submitted
    {
      if user.Posting().None? || user.Posting().value.level == Ward {
        return Err(Forbidden);
      }
      var error := OwnershipError(rows, user.Posting().value, at);
      if error.Some? {
        return Err(error.value);
      }
      var result := rows[at];
      if result.status == Approved || result.status == Submitted {
        return Err(BadRequest);
      }
      if at.level == PollingUnit && result.photos == [] {
        return Err(BadRequest);
      }
      rows := rows[at := result.(status := Submitted, rejectionReason := None)];
      r := Ok(rows[at]);
      WriteActionLog(at, LogEntry(SubmittedAction, user.sub, result.status, Submitted, None));
    }

    // -------------------------------------------------------------- approval and return

    method ApproveResult(user: User, at: Key, comment: Option<string>) returns (r: Result<Row>)
      requires g.Valid()
      modifies this`rows
      ensures Outcome(old(rows), rows, Approve(g, old(rows), user, at, comment), r)
      ensures r.Ok? ==> r.value.status == Approved && r.value.sheet == old(rows)[at].sheet
      ensures r.Ok? <==>
        && at in old(rows) && at.level == PollingUnit && old(rows)[at].status == Submitted
        && at.scope in g.puWard && Posted(user, Ward, g.puWard[at.scope])
    {
      ApprovalIsAccepted(g, rows, user, at, comment);
      if user.Posting().None? || user.Posting().value.level != Ward {
        return Err(Forbidden);
      }
      if at !in rows {
        return Err(NotFound);
      }
      var result := rows[at];
      if result.status != Submitted {
        return Err(BadRequest);
      }
      if at.level != PollingUnit || !g.IsChild(Ward, user.Posting().value.scope, at.scope) {
        return Err(Forbidden);
      }
      rows := rows[at := result.(
        status := Approved, approvalComment := comment, rejectionReason := None, flaggedPus := [])];
      r := Ok(rows[at]);
      WriteActionLog(at, LogEntry(ApprovedAction, user.sub, Submitted, Approved, comment));
      assert rows == old(rows)[at := ApprovedRow(result, user.sub, comment)];
      PublishAncestryRollups(at, true, false);
    }

    method AutoReturnChildResults(contest: Id, level: Level, ids: seq<Id>, actor: Id, reason: string)
      modifies this`rows
      ensures rows == ReturnRows(old(rows), OpenKeys(old(rows), contest, level, ids), actor, reason)
    {
      var children := OpenKeys(rows, contest, level, ids);
      var todo := children;
      while todo != {}
        invariant todo <= children
        invariant rows == ReturnRows(old(rows), children - todo, actor, reason)
        decreases todo
      {
        var child :| child in todo;
        var row := rows[child];
        rows := rows[child := row.(status := Rejected, rejectionReason := Some(reason), approvalComment := None)];
        WriteActionLog(child, LogEntry(RejectedAction, actor, row.status, Rejected, Some(reason)));
        todo := todo - {child};
      }
      assert children - todo == children;
    }

    method CheckReturn(user: User, at: Key) returns (error: Option<Error>)
      ensures error == ReturnError(g, rows, user, at)
    {
      if at !in rows {
        return Some(NotFound);
      }
      var fromStatus := rows[at].status;
      var isAdmin := user.IsAdmin();
      if !isAdmin && user.Posting().None? {
        return Some(Forbidden);
      }
      if fromStatus != Submitted && fromStatus != Approved {
        return Some(BadRequest);
      }
      var own := LevelForRole(user.role);
      if own == Some(Ward) && at.level == PollingUnit && fromStatus == Approved {
        if !WardIsReturned(g, rows, at.contest, at.scope) {
          return Some(BadRequest);
        }
      }
      if !isAdmin && !MayReturn(user.Posting().value.level, at.level) {
        return Some(Forbidden);
      }
      if !isAdmin && !InReviewScope(g, user.Posting().value, at) {
        return Some(Forbidden);
      }
      return None;
    }

    method MarkReturned(user: User, at: Key, reason: string, pus: seq<Id>, wards: seq<Id>) returns (r: Result<Row>)
      requires at in rows
      modifies this`rows
      ensures rows == Workflow.MarkReturned(old(rows), at, user.sub, reason, pus, wards)
      ensures r.Ok? && r.value.status == Rejected && r.value.rejectionReason == Some(reason)
      ensures r.value.sheet == old(rows)[at].sheet
    {
      var fromStatus := rows[at].status;
      var row := rows[at].(status := Rejected, rejectionReason := Some(reason), approvalComment := None);
      if pus != [] {
        row := row.(flaggedPus := pus);
      }
      if wards != [] {
        row := row.(flaggedWards := wards);
      }
      rows := rows[at := row];
      r := Ok(row);
      WriteActionLog(at, LogEntry(RejectedAction, user.sub, fromStatus, Rejected, Some(reason)));
      assert rows == old(rows)[at := WithFlags(ReturnedRow(old(rows)[at], user.sub, reason), pus, wards)];
      hide OpenKeys, ReturnRows, WithFlags, ReturnedRow;
      AutoReturnChildResults(at.contest, PollingUnit, pus, user.sub, reason);
      AutoReturnChildResults(at.contest, Ward, wards, user.sub, reason);
    }

    method RejectResult(user: User, at: Key, dto: ReturnRequest) returns (r: Result<Row>)
      requires g.Valid()
      modifies this`rows
      ensures Outcome(old(rows), rows, Return(g, old(rows), user, at, dto), r)
      ensures r.Ok? ==>
        && r.value.status == Rejected && r.value.rejectionReason == Some(dto.reason)
        && r.value.sheet == old(rows)[at].sheet
    {
      var error := CheckReturn(user, at);
      if error.Some? {
        return Err(error.value);
      }
      var pus := FlagsFor(g, at, AsksForPus(user, at), dto.affectedPus);
      if pus.Err? {
        return Err(pus.error);
      }
      var wards := FlagsFor(g, at, AsksForWards(user, at), dto.affectedWards);
      if wards.Err? {
        return Err(wards.error);
      }
      r := MarkReturned(user, at, dto.reason, pus.value, wards.value);
      PublishAncestryRollups(at, false, at.level != PollingUnit);
    }

    // -------------------------------------------------------------- resubmission and comments

    /** The row as it is after publication and before the step is logged. */
    ghost static predicate IsRepublished(g: Register, t: Table, at: Key, row: Row)
      requires g.Valid()
    {
      Find(PublishAncestry(g, t, at, true, false), at) == Some(row)
    }

    static lemma RowStaysThere(g: Register, t: Table, at: Key)
      requires g.Valid() && at in t
      ensures at in PublishAncestry(g, t, at, true, false)
    {
      PublishOnlyRolls(g, t, at, true, false);
    }

    method ResubmitWardToLga(user: User, contest: Id) returns (r: Result<Row>)
      requires g.Valid()
      modifies this`rows
      ensures Outcome(old(rows), rows, Resubmit(g, old(rows), user, contest, Ward, WARD_REPUBLISHED), r)
      ensures r.Ok? ==> IsRepublished(g, old(rows), Key(contest, Ward, user.Posting().value.scope), r.value)
    {
      r := Republish(user, contest, Ward, WARD_REPUBLISHED);
    }

    method ResubmitLgaToState(user: User, contest: Id) returns (r: Result<Row>)
      requires g.Valid()
      modifies this`rows
      ensures Outcome(old(rows), rows, Resubmit(g, old(rows), user, contest, Lga, LGA_REPUBLISHED), r)
      ensures r.Ok? ==> IsRepublished(g, old(rows), Key(contest, Lga, user.Posting().value.scope), r.value)
    {
      r := Republish(user, contest, Lga, LGA_REPUBLISHED);
    }

    method Republish(user: User, contest: Id, level: Level, comment: string) returns (r: Result<Row>)
      requires g.Valid()
      modifies this`rows
      ensures Outcome(old(rows), rows, Resubmit(g, old(rows), user, contest, level, comment), r)
      ensures r.Ok? ==> IsRepublished(g, old(rows), Key(contest, level, user.Posting().value.scope), r.value)
    {
      if user.Posting().None? || user.Posting().value.level != level {
        return Err(Forbidden);
      }
      var at := Key(contest, level, user.Posting().value.scope);
      if at !in rows || rows[at].status != Rejected {
        return Err(BadRequest);
      }
      r := Ok(rows[at]);
      RowStaysThere(g, rows, at);
      PublishAncestryRollups(at, true, false);
      if at in rows {
        r := Ok(rows[at]);
        WriteActionLog(at, LogEntry(ApprovedAction, user.sub, Rejected, rows[at].status, Some(comment)));
      }
    }

    method CommentResult(user: User, at: Key, comment: string) returns (r: Result<LogEntry>)
      modifies this`rows
      ensures Outcome(old(rows), rows, Comment(g, old(rows), user, at, comment), r)
      ensures r.Ok? ==> at in rows && rows[at].log != [] && r.value == rows[at].log[|rows[at].log| - 1]
    {
      var trimmed := Trim(comment);
      if |trimmed| < 3 {
        return Err(BadRequest);
      }
      if at !in rows {
        return Err(NotFound);
      }
      if !user.IsAdmin() {
        if user.Posting().None? {
          return Err(Forbidden);
        }
        var level := user.Posting().value.level;
        if level != Lga && level != State && level != National {
          return Err(Forbidden);
        }
        if !InReviewScope(g, user.Posting().value, at) {
          return Err(Forbidden);
        }
      }
      var status := rows[at].status;
      var entry := LogEntry(CommentedAction, user.sub, status, status, Some(trimmed));
      WriteActionLog(at, entry);
      return Ok(entry);
    }

    // -------------------------------------------------------------- bulk return

    /** The flagged units still to return when the bulk return starts. */
    ghost static function OpenFlagged(t: Table, contests: seq<Id>, ward: Id): nat
      requires forall c :: c in contests ==> Key(c, Ward, ward) in t
    {
      if contests == [] then 0
      else
        var n := |contests| - 1;
        OpenFlagged(t, contests[..n], ward)
        + |OpenKeys(t, contests[n], PollingUnit, t[Key(contests[n], Ward, ward)].flaggedPus)|
    }

    /** How many units are flagged on the ward in those contests, open or not. */
    ghost static function AllFlagged(t: Table, contests: seq<Id>, ward: Id): nat
      requires forall c :: c in contests ==> Key(c, Ward, ward) in t
    {
      if contests == [] then 0
      else
        var n := |contests| - 1;
        AllFlagged(t, contests[..n], ward) + |t[Key(contests[n], Ward, ward)].flaggedPus|
    }

    static predicate IsReturned(t: Table, at: Key) {
      at in t && t[at].status == Rejected
    }

    method ReturnedWards(contests: seq<Id>, ward: Id) returns (any: bool, flagged: seq<Id>)
      ensures flagged == FlaggedContests(rows, contests, ward)
      ensures any <==> exists c :: c in contests && IsReturned(rows, Key(c, Ward, ward))
    {
      any, flagged := false, [];
      for i := 0 to |contests|
        invariant flagged == FlaggedContests(rows, contests[..i], ward)
        invariant any <==> exists c :: c in contests[..i] && IsReturned(rows, Key(c, Ward, ward))
      {
        assert contests[..i + 1] == contests[..i] + [contests[i]];
        assert contests[..i + 1][..i] == contests[..i];
        var at := Key(contests[i], Ward, ward);
        if at in rows && rows[at].status == Rejected {
          any := true;
          if rows[at].flaggedPus != [] && contests[i] !in flagged {
            flagged := flagged + [contests[i]];
          }
        }
      }
      assert contests[..|contests|] == contests;
    }

    method ReturnLgaFlaggedPus(user: User, contests: seq<Id>, reason: string) returns (r: Result<BulkResult>)
      requires g.Valid() && AllEvidenced(g, rows) && WardsRegistered(g, rows)
      modifies this`rows
      ensures Outcome(old(rows), rows, BulkReturn(g, old(rows), user, contests, reason), r)
      ensures r.Ok? ==>
        var flagged := FlaggedContests(old(rows), contests, user.Posting().value.scope);
        && (forall c :: c in flagged ==> Key(c, Ward, user.Posting().value.scope) in old(rows))
        && r.value.returnedCount == OpenFlagged(old(rows), flagged, user.Posting().value.scope)
        && r.value.flaggedCount == AllFlagged(old(rows), flagged, user.Posting().value.scope)
        && flagged != []
        && r.value.reason
          == BulkReason(reason, old(rows)[Key(flagged[|flagged| - 1], Ward, user.Posting().value.scope)])
    {
      if user.Posting().None? || user.Posting().value.level != Ward {
        return Err(Forbidden);
      }
      var ward := user.Posting().value.scope;
      var any, flagged := ReturnedWards(contests, ward);
      FlaggedContestsAreReturned(rows, contests, ward);
      if !any {
        return Err(BadRequest);
      }
      if flagged == [] {
        return Err(BadRequest);
      }
      var result := ReturnContests(user, flagged, ward, reason);
      return Ok(result);
    }

    /** The loop over the contests, none of which comes up twice. */
    method ReturnContests(user: User, flagged: seq<Id>, ward: Id, reason: string) returns (result: BulkResult)
      requires g.Valid() && AllEvidenced(g, rows) && WardsRegistered(g, rows)
      requires user.Posting() == Some(Post(Ward, ward)) && flagged != [] && NoRepeats(flagged)
      requires forall c :: c in flagged ==> Key(c, Ward, ward) in rows && rows[Key(c, Ward, ward)].status == Rejected
      modifies this`rows
      ensures rows == BulkReturnAll(g, old(rows), old(rows), flagged, ward, user.sub, reason)
      ensures result.returnedCount == OpenFlagged(old(rows), flagged, ward)
      ensures result.flaggedCount == AllFlagged(old(rows), flagged, ward)
      ensures result.reason == BulkReason(reason, old(rows)[Key(flagged[|flagged| - 1], Ward, ward)])
    {
      hide BulkReturnIn, OpenKeys, AllEvidenced, WardsRegistered, BulkReason;
      var returned := rows;
      var returnedCount: nat, flaggedCount: nat := 0, 0;
      var used := if Trim(reason) != "" then Trim(reason) else BULK_REASON;
      for i := 0 to |flagged|
        invariant rows == BulkReturnAll(g, returned, returned, flagged[..i], ward, user.sub, reason)
        invariant returnedCount == OpenFlagged(returned, flagged[..i], ward)
        invariant flaggedCount == AllFlagged(returned, flagged[..i], ward)
        invariant i > 0 ==> used == BulkReason(reason, returned[Key(flagged[i - 1], Ward, ward)])
      {
        var at := Key(flagged[i], Ward, ward);
        var wardRow := returned[at];
        flaggedCount := flaggedCount + |wardRow.flaggedPus|;
        used := BulkReason(reason, wardRow);
        var n := ReturnOpenUnits(user, at, wardRow, reason, returned, flagged[..i]);
        returnedCount := returnedCount + n;
        assert flagged[..i + 1][..i] == flagged[..i];
      }
      assert flagged[..|flagged|] == flagged;
      result := BulkResult(returnedCount, flaggedCount, used);
    }

    /** Return the given units of a returned ward, each by a call of its own; none of the calls fails. */
    method ReturnUnits(user: User, at: Key, units: set<Key>, reason: string) returns (returnedCount: nat)
      requires g.Valid() && ReturnedWardAt(g, rows, at) && UnitsOf(g, rows, at, units)
      requires user.Posting() == Some(Post(Ward, at.scope))
      modifies this`rows
      ensures rows == ReturnedTogether(g, old(rows), at, units, user.sub, reason)
      ensures returnedCount == |units|
    {
      hide BulkReturns.Republish, ReturnRows, UnitsOf;
      var todo := units;
      returnedCount := 0;
      while todo != {}
        invariant todo <= units
        invariant rows == ReturnedTogether(g, old(rows), at, units - todo, user.sub, reason)
        invariant returnedCount + |todo| == |units|
        decreases todo
      {
        var unit :| unit in todo;
        UnitsOfSubset(g, old(rows), at, units, units - todo + {unit});
        ReturnUnit(user, at, unit, reason, old(rows), units - todo);
        assert units - (todo - {unit}) == (units - todo) + {unit};
        returnedCount := returnedCount + 1;
        todo := todo - {unit};
      }
      assert units - todo == units;
    }

    method ReturnUnit(user: User, at: Key, unit: Key, reason: string, ghost start: Table, ghost done: set<Key>)
      requires g.Valid() && ReturnedWardAt(g, start, at) && user.Posting() == Some(Post(Ward, at.scope))
      requires UnitsOf(g, start, at, done + {unit}) && unit !in done
      requires rows == ReturnedTogether(g, start, at, done, user.sub, reason)
      modifies this`rows
      ensures rows == ReturnedTogether(g, start, at, done + {unit}, user.sub, reason)
    {
      OneMoreReturn(g, start, user, at, done, unit, reason);
      var inner := RejectResult(user, unit, Plain(reason));
      assert inner.Ok?;
    }

    /** One contest of the bulk return. */
    method ReturnOpenUnits(user: User, at: Key, wardRow: Row, reason: string, ghost start: Table, ghost done: seq<Id>)
      returns (returnedCount: nat)
      requires g.Valid() && AllEvidenced(g, start) && WardsRegistered(g, start)
      requires user.Posting() == Some(Post(Ward, at.scope)) && at.level == Ward
      requires at in start && start[at] == wardRow && wardRow.status == Rejected && at.contest !in done
      requires forall c :: c in done ==> Key(c, Ward, at.scope) in start
      requires rows == BulkReturnAll(g, start, start, done, at.scope, user.sub, reason)
      modifies this`rows
      ensures rows == BulkReturnIn(g, old(rows), at, wardRow, user.sub, reason)
      ensures returnedCount == |OpenKeys(start, at.contest, PollingUnit, wardRow.flaggedPus)|
    {
      OtherContestsUntouched(g, start, done, at.scope, user, reason, at.contest);
      assert Find(rows, at) == Find(start, at);
      var results := OpenKeys(rows, at.contest, PollingUnit, wardRow.flaggedPus);
      SameOpenKeys(start, rows, at.contest, wardRow.flaggedPus);
      assert Evidenced(g, at, start[at]);
      OpenFlaggedUnits(g, rows, at, wardRow.flaggedPus);
      BulkIsTogether(g, rows, at, wardRow, user.sub, reason);
      returnedCount := ReturnUnits(user, at, results, BulkReason(reason, wardRow));
    }

    static lemma SameOpenKeys(t: Table, u: Table, contest: Id, ids: seq<Id>)
      requires forall k: Key :: k.contest == contest ==> Find(u, k) == Find(t, k)
      ensures OpenKeys(u, contest, PollingUnit, ids) == OpenKeys(t, contest, PollingUnit, ids)
    {
      forall k: Key | k.contest == contest
        ensures k in OpenKeys(u, contest, PollingUnit, ids) <==> k in OpenKeys(t, contest, PollingUnit, ids)
      {
        assert Find(u, k) == Find(t, k);
      }
    }
  }
}
