/**
 * What each accepted call leaves in the rows, field by field, and which calls move a row to APPROVED
 * or to REJECTED.
 */
module RowEffects {
  import opened Wrappers
  import opened Hierarchy
  import opened Sheets
  import opened Workflow
  import opened Runs
  import opened Effects
  import opened Invariants
  import opened BulkReturns
  import opened Publication
  import opened Authority

  /** Nothing but the row at `at` is different. */
  ghost predicate OnlyRow(t: Table, u: Table, at: Key) {
    u.Keys == t.Keys + {at} && forall k :: k in t && k != at ==> u[k] == t[k]
  }

  // ---------------------------------------------------------------- entry and submission

  /** A field that was given has the given value; one that was left out is as it was. */
  predicate Takes<T(==)>(given: Patch<T>, was: T, now: T) {
    (given.Set? ==> now == given.value) && (given.Keep? ==> now == was)
  }

  predicate TakesFigures(dto: Entry, was: Sheet, now: Sheet) {
    && Takes(dto.registeredVoters, was.registeredVoters, now.registeredVoters)
    && Takes(dto.accreditedVoters, was.accreditedVoters, now.accreditedVoters)
    && Takes(dto.ballotPapersIssued, was.ballotPapersIssued, now.ballotPapersIssued)
    && Takes(dto.unusedBallotPapers, was.unusedBallotPapers, now.unusedBallotPapers)
    && Takes(dto.spoiledBallotPapers, was.spoiledBallotPapers, now.spoiledBallotPapers)
    && Takes(dto.votesCast, was.votesCast, now.votesCast)
    && Takes(dto.invalidVotes, was.invalidVotes, now.invalidVotes)
    && Takes(dto.usedBallotPapers, was.usedBallotPapers, now.usedBallotPapers)
    && (dto.partyResults.Set? ==> now.partyResults == Some(dto.partyResults.value))
    && (dto.partyResults.Keep? ==> now.partyResults == was.partyResults)
  }

  /** The row before a save; a missing one is empty. */
  function RowBefore(t: Table, at: Key): Row {
    if at in t then t[at]
    else Row(Sheet(None, None, None, None, None, None, None, None, None), Draft, None, None, [], [], [], [])
  }

  /** What a save leaves: the given figures and photos over those that were there, in DRAFT. */
  predicate IsSaved(dto: Entry, was: Row, now: Row) {
    && TakesFigures(dto, was.sheet, now.sheet) && Takes(dto.photos, was.photos, now.photos)
    && now.status == Draft && now.rejectionReason == None
    && now.approvalComment == was.approvalComment && now.log == was.log
    && now.flaggedPus == was.flaggedPus && now.flaggedWards == was.flaggedWards
  }

  lemma SaveWrites(g: Register, t: Table, user: User, contest: Id, dto: Entry, level: Level, scope: Id)
    requires g.Valid() && Posted(user, level, scope) && Apply(g, t, SaveCall(user, contest, dto)).Ok?
    ensures
      var at, u := Key(contest, level, scope), Exec(g, t, SaveCall(user, contest, dto));
      OnlyRow(t, u, at) && IsSaved(dto, RowBefore(t, at), u[at])
  {
    PostingIsPosted(user, level, scope);
    var at := Key(contest, level, scope);
    EntryIsTaken(dto, RowBefore(t, at).sheet);
    hide TakesFigures, Entered;
  }

  lemma EntryIsTaken(dto: Entry, was: Sheet)
    ensures TakesFigures(dto, was, Entered(dto, was))
  {
  }

  lemma PhotoWrites(g: Register, t: Table, user: User, at: Key, url: string)
    requires g.Valid() && Apply(g, t, AttachCall(user, at, url)).Ok?
    ensures
      var u := Exec(g, t, AttachCall(user, at, url));
      && at in t && OnlyRow(t, u, at) && u[at].photos == t[at].photos + [url]
      && u[at] == t[at].(photos := u[at].photos)
  {
  }

  lemma SubmissionWrites(g: Register, t: Table, user: User, at: Key)
    requires g.Valid() && Apply(g, t, SubmitCall(user, at)).Ok?
    ensures
      var u := Exec(g, t, SubmitCall(user, at));
      && at in t && OnlyRow(t, u, at)
      && u[at].status == Submitted && u[at].rejectionReason == None
      && u[at].log == t[at].log + [LogEntry(SubmittedAction, user.sub, t[at].status, Submitted, None)]
      && u[at] == t[at].(status := Submitted, rejectionReason := None, log := u[at].log)
  {
  }

  lemma CommentWrites(g: Register, t: Table, user: User, at: Key, text: string)
    requires g.Valid() && Apply(g, t, CommentCall(user, at, text)).Ok?
    ensures
      var u := Exec(g, t, CommentCall(user, at, text));
      && at in t && OnlyRow(t, u, at) && u[at] == t[at].(log := u[at].log)
      && u[at].log == t[at].log + [LogEntry(CommentedAction, user.sub, t[at].status, t[at].status, Some(Trim(text)))]
  {
  }

  // ---------------------------------------------------------------- rows that are published

  /** All but the figures when nothing is cleared: REJECTED rows stay as returned, others are APPROVED. */
  predicate IsPublished(was: Option<Row>, now: Row) {
    match was
    case None => now == Row(now.sheet, Approved, None, None, [], [], [], [])
    case Some(row) =>
      if row.status == Rejected then now == row.(sheet := now.sheet)
      else
        now == row.(sheet := now.sheet, status := Approved, rejectionReason := None,
                    flaggedPus := [], flaggedWards := [])
  }

  /** All but the figures when a rejection is cleared. */
  predicate IsCleared(was: Option<Row>, now: Row) {
    match was
    case None => now == Row(now.sheet, Approved, None, None, [], [], [], [])
    case Some(row) =>
      now == row.(sheet := now.sheet, status := Approved, rejectionReason := None, approvalComment := None,
                  flaggedPus := [], flaggedWards := [])
  }

  /** What a publication makes of one place: nothing outside the chain, and no row disappears. */
  ghost predicate IsWritten(was: Option<Row>, now: Option<Row>, inChain: bool, cleared: bool) {
    && (!inChain ==> now == was)
    && (now.None? ==> was.None?)
    && (inChain && now.Some? ==> if cleared then IsCleared(was, now.value) else IsPublished(was, now.value))
  }

  lemma RollupIsWritten(g: Register, t: Table, at: Key, clear: bool, keep: bool)
    requires keep ==> !clear && at in t && t[at].status == Rejected
    ensures IsWritten(Find(t, at), Find(Rollup(g, t, at, clear, keep), at), true, clear)
  {
    hide ChildKeys, Sum;
  }

  lemma WardPublicationWrites(g: Register, t: Table, contest: Id, ward: Id, clear: bool, keep: bool, k: Key)
    requires g.Valid() && ward in g.wardLga
    requires keep ==> !clear && Key(contest, Ward, ward) in t && t[Key(contest, Ward, ward)].status == Rejected
    ensures
      var u := PublishWard(g, t, contest, ward, clear, keep);
      IsWritten(Find(t, k), Find(u, k), k in WardChain(g, contest, ward), clear && k == Key(contest, Ward, ward))
  {
    hide Rollup, IsWritten;
    var lga := g.wardLga[ward];
    var w, l, s := Key(contest, Ward, ward), Key(contest, Lga, lga), Key(contest, State, g.lgaState[lga]);
    var t1 := Rollup(g, t, w, clear, keep);
    var t2 := Rollup(g, t1, l, false, false);
    forall u, at, c, p | at != k
      ensures Find(Rollup(g, u, at, c, p), k) == Find(u, k)
    {
      RollupElsewhere(g, u, at, c, p, k);
    }
    RollupIsWritten(g, t, w, clear, keep);
    RollupIsWritten(g, t1, l, false, false);
    RollupIsWritten(g, t2, s, false, false);
    NothingWritten(Find(t, k), false);
  }

  lemma NothingWritten(was: Option<Row>, cleared: bool)
    ensures IsWritten(was, was, false, cleared)
  {
  }

  lemma LgaPublicationWrites(g: Register, t: Table, from: Key, clear: bool, keep: bool, k: Key)
    requires g.Valid() && from.level == Lga
    requires keep ==> !clear && from in t && t[from].status == Rejected
    ensures
      var u := PublishLga(g, t, from.contest, from.scope, clear, keep);
      IsWritten(Find(t, k), Find(u, k), k in Chain(g, from), clear && k == from)
  {
    hide Rollup, IsWritten;
    var t1 := Rollup(g, t, from, clear, keep);
    forall u, at, c, p | at != k
      ensures Find(Rollup(g, u, at, c, p), k) == Find(u, k)
    {
      RollupElsewhere(g, u, at, c, p, k);
    }
    RollupIsWritten(g, t, from, clear, keep);
    if from.scope in g.lgaState {
      RollupIsWritten(g, t1, Key(from.contest, State, g.lgaState[from.scope]), false, false);
    }
    NothingWritten(Find(t, k), false);
  }

  /** What a publication does to the rows, apart from the figures. */
  lemma PublicationWrites(g: Register, t: Table, from: Key, clear: bool, keep: bool, k: Key)
    requires g.Valid()
    requires keep ==> !clear && from.level != PollingUnit && from in t && t[from].status == Rejected
    ensures
      var u := PublishAncestry(g, t, from, clear, keep);
      IsWritten(Find(t, k), Find(u, k), k in Chain(g, from), clear && k == First(g, from))
  {
    hide PublishWard, PublishLga, IsWritten;
    NothingWritten(Find(t, k), clear && k == First(g, from));
    match from.level
    case PollingUnit =>
      if from.scope in g.puWard {
        WardPublicationWrites(g, t, from.contest, g.puWard[from.scope], clear, keep, k);
      }
    case Ward =>
      if from.scope in g.wardLga {
        WardPublicationWrites(g, t, from.contest, from.scope, clear, keep, k);
      }
    case Lga => LgaPublicationWrites(g, t, from, clear, keep, k);
    case State =>
    case National =>
  }

  // ---------------------------------------------------------------- approval

  /** The unit is approved and logged; the rows above are published, and its ward is cleared. */
  lemma ApprovalWrites(g: Register, t: Table, user: User, at: Key, note: Option<string>, k: Key)
    requires g.Valid() && Apply(g, t, ApproveCall(user, at, note)).Ok?
    ensures
      var u := Exec(g, t, ApproveCall(user, at, note));
      && at in t && at in u && at.scope in g.puWard
      && u[at].status == Approved && u[at].rejectionReason == None && u[at].approvalComment == note
      && u[at].flaggedPus == []
      && u[at].log == t[at].log + [LogEntry(ApprovedAction, user.sub, Submitted, Approved, note)]
      && u[at].sheet == t[at].sheet && u[at].photos == t[at].photos && u[at].flaggedWards == t[at].flaggedWards
      && (k != at ==>
            IsWritten(Find(t, k), Find(u, k), k in Chain(g, at), k == Key(at.contest, Ward, g.puWard[at.scope])))
  {
    hide PublishAncestry, IsWritten, Chain;
    ApprovalIsAccepted(g, t, user, at, note);
    var before := t[at := ApprovedRow(t[at], user.sub, note)];
    PublicationWrites(g, before, at, true, false, k);
    UnitsAreInNoChain(g, at, at);
    OutsideTheChain(g, before, at, true, false, at);
    assert Find(PublishAncestry(g, before, at, true, false), at) == Some(before[at]);
  }

  lemma UnitsAreInNoChain(g: Register, from: Key, k: Key)
    requires g.Valid() && k.level in {PollingUnit, National}
    ensures k !in Chain(g, from)
  {
  }

  /** So it is the officer of its own ward who makes a SUBMITTED unit APPROVED, and no other call does. */
  lemma OnlyOwnWardApproves(g: Register, t: Table, c: Command, k: Key)
    requires g.Valid() && k.level == PollingUnit
    requires k in Exec(g, t, c) && Exec(g, t, c)[k].status == Approved
    requires k in t ==> t[k].status != Approved
    ensures c.ApproveCall? && c.at == k && Apply(g, t, c).Ok?
    ensures k in t && t[k].status == Submitted && k.scope in g.puWard && Posted(c.user, Ward, g.puWard[k.scope])
  {
    if c.ApproveCall? && c.at == k {
      ApprovalIsAccepted(g, t, c.user, c.at, c.note);
    } else {
      OthersApproveNothing(g, t, c, k);
    }
  }

  lemma OthersApproveNothing(g: Register, t: Table, c: Command, k: Key)
    requires g.Valid() && k.level == PollingUnit && !(c.ApproveCall? && c.at == k)
    requires k in t ==> t[k].status != Approved
    ensures k in Exec(g, t, c) ==> Exec(g, t, c)[k].status != Approved
  {
    assert forall was: Option<Row>, row: Row ::
      RowOp(g, c, k, was, row) && (was.Some? ==> was.value.status != Approved) ==> row.status != Approved;
    var related: RowRelation := (j: Key, was: Option<Row>, row: Row) =>
      j == k && (was.Some? ==> was.value.status != Approved) ==> row.status != Approved;
    hide RowOp;
    CallRelated(g, t, c, related);
    var u := Exec(g, t, c);
    if k in u {
      assert related(k, Find(t, k), u[k]);
    }
  }

  /** Call `i` of the run is the accepted approval of the unit by the officer of its ward. */
  ghost predicate ApprovedAt(g: Register, cs: seq<Command>, i: nat, k: Key)
    requires g.Valid() && i < |cs|
  {
    && cs[i].ApproveCall? && cs[i].at == k && Accepted(g, cs, i)
    && k.scope in g.puWard && Posted(cs[i].user, Ward, g.puWard[k.scope])
    && var t := Run(g, map[], cs[..i]); k in t && t[k].status == Submitted
  }

  /** In every run a unit that is APPROVED at the end was approved by the officer of its own ward. */
  lemma {:induction false} EveryApprovalIsByOwnWard(g: Register, cs: seq<Command>, k: Key) returns (i: nat)
    requires g.Valid() && k.level == PollingUnit
    requires k in Run(g, map[], cs) && Run(g, map[], cs)[k].status == Approved
    ensures i < |cs| && ApprovedAt(g, cs, i, k)
    decreases |cs|
  {
    var n := |cs| - 1;
    var before := Run(g, map[], cs[..n]);
    if k in before && before[k].status == Approved {
      i := EveryApprovalIsByOwnWard(g, cs[..n], k);
      AcceptedBefore(g, cs, n, i);
      assert cs[..n][..i] == cs[..i];
    } else {
      i := n;
      OnlyOwnWardApproves(g, before, cs[n], k);
    }
  }
}
