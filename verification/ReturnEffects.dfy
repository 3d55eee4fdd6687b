/** What returns leave in the rows, and which calls, by whom, move a row to REJECTED. */
module ReturnEffects {
  import opened Wrappers
  import opened Hierarchy
  import opened Sheets
  import opened Workflow
  import opened Runs
  import opened Effects
  import opened Invariants
  import opened BulkReturns
  import opened Publication
  import opened Authority
  import opened RowEffects

  /** The return flags the row at `k`: a unit of the returned ward, or a ward of the returned LGA. */
  ghost predicate Flags(at: Key, request: ReturnRequest, k: Key) {
    k.contest == at.contest && k.scope != "" &&
    (|| (at.level == Ward && k.level == PollingUnit && IsGiven(request.affectedPus, k.scope))
     || (at.level == Lga && k.level == Ward && IsGiven(request.affectedWards, k.scope)))
  }

  /** The row as it is after it was returned for correction. */
  predicate IsReturned(was: Row, now: Row, actor: Id, reason: string) {
    && now.status == Rejected && now.rejectionReason == Some(reason) && now.approvalComment == None
    && now.log == was.log + [LogEntry(RejectedAction, actor, was.status, Rejected, Some(reason))]
    && now.photos == was.photos
  }

  /** Flags that are given replace those that were there, each once; without any they stay. */
  ghost predicate TakesFlags(given: seq<Id>, was: seq<Id>, now: seq<Id>) {
    if exists id :: id != "" && IsGiven(given, id)
    then NoRepeats(now) && forall id :: id in now <==> id != "" && IsGiven(given, id)
    else now == was
  }

  /** The rows that are marked before anything is published. */
  ghost predicate IsMarked(t: Table, m: Table, actor: Id, at: Key, request: ReturnRequest, k: Key)
    requires at in t && at in m && k in t && k in m
  {
    if k == at then
      && IsReturned(t[at], m[at], actor, request.reason) && m[at].sheet == t[at].sheet
      && (if at.level == Ward then TakesFlags(request.affectedPus, t[at].flaggedPus, m[at].flaggedPus)
          else m[at].flaggedPus == t[at].flaggedPus)
      && (if at.level == Lga then TakesFlags(request.affectedWards, t[at].flaggedWards, m[at].flaggedWards)
          else m[at].flaggedWards == t[at].flaggedWards)
    else if Flags(at, request, k) && t[k].status in {Submitted, Approved} then
      && IsReturned(t[k], m[k], actor, request.reason) && m[k].sheet == t[k].sheet
      && m[k].flaggedPus == t[k].flaggedPus && m[k].flaggedWards == t[k].flaggedWards
    else m[k] == t[k]
  }

  /** The flags a return of this row sets. */
  ghost function PusOf(g: Register, user: User, at: Key, request: ReturnRequest): seq<Id> {
    if FlagsFor(g, at, AsksForPus(user, at), request.affectedPus).Ok?
    then FlagsFor(g, at, AsksForPus(user, at), request.affectedPus).value else []
  }

  ghost function WardsOf(g: Register, user: User, at: Key, request: ReturnRequest): seq<Id> {
    if FlagsFor(g, at, AsksForWards(user, at), request.affectedWards).Ok?
    then FlagsFor(g, at, AsksForWards(user, at), request.affectedWards).value else []
  }

  ghost function Marked(g: Register, t: Table, user: User, at: Key, request: ReturnRequest): Table
    requires at in t
  {
    Workflow.MarkReturned(
      t, at, user.sub, request.reason, PusOf(g, user, at, request), WardsOf(g, user, at, request))
  }

  lemma ReturnPublishes(g: Register, t: Table, user: User, at: Key, request: ReturnRequest)
    requires g.Valid() && Apply(g, t, ReturnCall(user, at, request)).Ok?
    ensures at in t && t[at].status in {Submitted, Approved}
    ensures at.level == Ward ==> AsksForPus(user, at)
    ensures at.level == Lga ==> AsksForWards(user, at)
    ensures
      Exec(g, t, ReturnCall(user, at, request))
      == PublishAncestry(g, Marked(g, t, user, at, request), at, false, at.level != PollingUnit)
  {
    hide PublishAncestry, Workflow.MarkReturned, CleanIds;
  }

  lemma GivenIdsAreKept(g: Register, user: User, at: Key, request: ReturnRequest)
    requires FlagsFor(g, at, AsksForPus(user, at), request.affectedPus).Ok?
    requires FlagsFor(g, at, AsksForWards(user, at), request.affectedWards).Ok?
    requires at.level == Ward ==> AsksForPus(user, at)
    requires at.level == Lga ==> AsksForWards(user, at)
    ensures NoRepeats(PusOf(g, user, at, request)) && NoRepeats(WardsOf(g, user, at, request))
    ensures forall id :: id in PusOf(g, user, at, request) <==>
      at.level == Ward && id != "" && IsGiven(request.affectedPus, id)
    ensures forall id :: id in WardsOf(g, user, at, request) <==>
      at.level == Lga && id != "" && IsGiven(request.affectedWards, id)
  {
    hide CleanIds, IsGiven;
    CleanIdsExactly(request.affectedPus);
    CleanIdsExactly(request.affectedWards);
    NothingGiven();
  }

  lemma AcceptedFlags(g: Register, t: Table, user: User, at: Key, request: ReturnRequest)
    requires g.Valid() && Apply(g, t, ReturnCall(user, at, request)).Ok?
    ensures FlagsFor(g, at, AsksForPus(user, at), request.affectedPus).Ok?
    ensures FlagsFor(g, at, AsksForWards(user, at), request.affectedWards).Ok?
  {
    hide PublishAncestry, Workflow.MarkReturned, CleanIds;
  }

  lemma MarkedExactly(
      t: Table, at: Key, actor: Id, request: ReturnRequest, pus: seq<Id>, wards: seq<Id>, k: Key)
    requires at in t && t[at].status in {Submitted, Approved} && k in t && NoRepeats(pus) && NoRepeats(wards)
    requires forall id :: id in pus <==> at.level == Ward && id != "" && IsGiven(request.affectedPus, id)
    requires forall id :: id in wards <==> at.level == Lga && id != "" && IsGiven(request.affectedWards, id)
    ensures
      var m := Workflow.MarkReturned(t, at, actor, request.reason, pus, wards);
      m.Keys == t.Keys && IsMarked(t, m, actor, at, request, k)
  {
    hide IsGiven;
    if pus != [] {
      assert pus[0] in pus;
    }
    if wards != [] {
      assert wards[0] in wards;
    }
  }

  lemma ReturnMarks(g: Register, t: Table, user: User, at: Key, request: ReturnRequest, k: Key)
    requires g.Valid() && Apply(g, t, ReturnCall(user, at, request)).Ok? && k in t
    ensures at in t
    ensures
      var m := Marked(g, t, user, at, request);
      m.Keys == t.Keys && IsMarked(t, m, user.sub, at, request, k)
  {
    hide FlagsFor, IsMarked, Workflow.MarkReturned, Exec, Apply;
    ReturnPublishes(g, t, user, at, request);
    AcceptedFlags(g, t, user, at, request);
    GivenIdsAreKept(g, user, at, request);
    MarkedExactly(
      t, at, user.sub, request, PusOf(g, user, at, request), WardsOf(g, user, at, request), k);
  }

  /** The row keeps the figures unless it is one of those published from. */
  lemma MarkedRowStays(g: Register, m: Table, from: Key, keep: bool, k: Key)
    requires g.Valid() && k in m && m[k].status == Rejected
    requires keep ==> from.level != PollingUnit && from in m && m[from].status == Rejected
    ensures
      var u := PublishAncestry(g, m, from, false, keep);
      && k in u && u[k] == m[k].(sheet := u[k].sheet)
      && (k !in Chain(g, from) ==> u[k] == m[k])
  {
    hide PublishAncestry, Chain;
    PublicationWrites(g, m, from, false, keep, k);
  }

  /**
   * A return: the row and its flagged rows that are SUBMITTED or APPROVED become REJECTED with the
   * reason, the row takes the flags, and the rows above are published, nothing being cleared.
   */
  lemma ReturnWrites(g: Register, t: Table, user: User, at: Key, request: ReturnRequest, k: Key)
    requires g.Valid() && Apply(g, t, ReturnCall(user, at, request)).Ok?
    ensures
      var u := Exec(g, t, ReturnCall(user, at, request));
      && at in t && at in u && IsMarked(t, u[at := u[at].(sheet := t[at].sheet)], user.sub, at, request, at)
      && (k != at && k in t && Flags(at, request, k) && t[k].status in {Submitted, Approved} ==>
            k in u && IsMarked(t, u, user.sub, at, request, k))
      && (k != at && !(k in t && Flags(at, request, k) && t[k].status in {Submitted, Approved}) ==>
            IsWritten(Find(t, k), Find(u, k), k in Chain(g, at), false))
  {
    hide PublishAncestry, Chain, Exec, Apply, FlagsFor, Marked, IsWritten, IsGiven;
    ReturnPublishes(g, t, user, at, request);
    ReturnMarks(g, t, user, at, request, at);
    var m := Marked(g, t, user, at, request);
    MarkedRowStays(g, m, at, at.level != PollingUnit, at);
    if k in t {
      ReturnMarks(g, t, user, at, request, k);
      if k != at && Flags(at, request, k) && t[k].status in {Submitted, Approved} {
        FlaggedAreInNoChain(g, at, request, k);
        MarkedRowStays(g, m, at, at.level != PollingUnit, k);
      }
    }
    PublicationWrites(g, m, at, false, at.level != PollingUnit, k);
  }

  lemma FlaggedAreInNoChain(g: Register, at: Key, request: ReturnRequest, k: Key)
    requires g.Valid() && Flags(at, request, k)
    ensures k !in Chain(g, at)
  {
  }

  // ---------------------------------------------------------------- bulk returns

  /** The reason a bulk return gives: the one given, else the one the ward was returned with, else a fixed one. */
  predicate IsBulkReason(given: string, ward: Row, reason: string) {
    if Trim(given) != "" then reason == Trim(given)
    else if ward.rejectionReason.Some? && ward.rejectionReason.value != "" then reason == ward.rejectionReason.value
    else reason == "Returned by ward after LGA flagged this unit for correction"
  }

  /** The unit is flagged on its ward's returned row and can still be returned. */
  predicate IsOpenFlagged(t: Table, contests: seq<Id>, ward: Id, k: Key) {
    && k in t && k.level == PollingUnit && k.contest in contests && t[k].status in {Submitted, Approved}
    && WardOpen(t, k.contest, ward) && k.scope in t[Key(k.contest, Ward, ward)].flaggedPus
  }

  lemma OneBulkReturnWrites(g: Register, t: Table, at: Key, row: Row, actor: Id, given: string, k: Key)
    requires g.Valid() && at.level == Ward && k.level == PollingUnit
    ensures
      var u := BulkReturnIn(g, t, at, row, actor, given);
      if k in t && k.contest == at.contest && k.scope in row.flaggedPus && t[k].status in {Submitted, Approved}
      then
        && k in u && IsReturned(t[k], u[k], actor, BulkReason(given, row))
        && u[k] == t[k].(status := u[k].status, rejectionReason := u[k].rejectionReason,
                         approvalComment := u[k].approvalComment, log := u[k].log)
      else Find(u, k) == Find(t, k)
  {
    hide PublishAncestry;
    var ks := OpenKeys(t, at.contest, PollingUnit, row.flaggedPus);
    assert k in ks <==>
      k in t && k.contest == at.contest && k.scope in row.flaggedPus && t[k].status in {Submitted, Approved};
    if ks != {} {
      PublishKeepsUnits(g, ReturnRows(t, ks, actor, BulkReason(given, row)), at, false, false);
      var u := BulkReturnIn(g, t, at, row, actor, given);
      assert Find(u, k) == Find(ReturnRows(t, ks, actor, BulkReason(given, row)), k);
    }
  }

  lemma {:induction false} BulkReturnsWrite(
      g: Register, t: Table, contests: seq<Id>, ward: Id, user: User, given: string, k: Key)
    requires g.Valid() && NoRepeats(contests) && k.level == PollingUnit
    requires forall c :: c in contests ==> Key(c, Ward, ward) in t && t[Key(c, Ward, ward)].status == Rejected
    ensures
      var u := BulkReturnAll(g, t, t, contests, ward, user.sub, given);
      if IsOpenFlagged(t, contests, ward, k)
      then
        && k in u && IsReturned(t[k], u[k], user.sub, BulkReason(given, t[Key(k.contest, Ward, ward)]))
        && u[k] == t[k].(status := u[k].status, rejectionReason := u[k].rejectionReason,
                         approvalComment := u[k].approvalComment, log := u[k].log)
      else Find(u, k) == Find(t, k)
    decreases |contests|
  {
    if contests == [] {
    } else {
      hide BulkReturnIn, BulkReason, IsReturned;
      var n := |contests| - 1;
      var before := BulkReturnAll(g, t, t, contests[..n], ward, user.sub, given);
      var at := Key(contests[n], Ward, ward);
      BulkReturnsWrite(g, t, contests[..n], ward, user, given, k);
      OneBulkReturnWrites(g, before, at, t[at], user.sub, given, k);
      assert contests[n] !in contests[..n];
      assert k.contest in contests <==> k.contest in contests[..n] || k.contest == contests[n];
    }
  }

  /** A bulk return makes exactly the open flagged units of the officer's ward REJECTED. */
  lemma BulkReturnWrites(g: Register, t: Table, user: User, contests: seq<Id>, given: string, k: Key)
    requires g.Valid() && Apply(g, t, BulkReturnCall(user, contests, given)).Ok? && k.level == PollingUnit
    ensures ActsAt(user, Ward)
    ensures
      var u := Exec(g, t, BulkReturnCall(user, contests, given));
      if IsOpenFlagged(t, contests, user.scope.value, k)
      then
        && k in u && u[k].sheet == t[k].sheet
        && exists reason :: IsBulkReason(given, t[Key(k.contest, Ward, user.scope.value)], reason)
             && IsReturned(t[k], u[k], user.sub, reason)
      else Find(u, k) == Find(t, k)
  {
    BulkReturnIsAccepted(g, t, user, contests, given);
    var ward := user.scope.value;
    PostingIsPosted(user, Ward, ward);
    FlaggedContestsAreReturned(t, contests, ward);
    FlaggedContestsExactly(t, contests, ward);
    hide BulkReturnAll, FlaggedContests, Trim, IsReturned;
    BulkReturnsWrite(g, t, FlaggedContests(t, contests, ward), ward, user, given, k);
    if IsOpenFlagged(t, contests, ward, k) {
      assert FlaggedWard(t, k.contest, ward);
      assert IsBulkReason(given, t[Key(k.contest, Ward, ward)], BulkReason(given, t[Key(k.contest, Ward, ward)]));
    }
  }

  // ---------------------------------------------------------------- resubmission

  /** A resubmitted row: the rejection is gone, the figures are published anew, and the step is logged. */
  predicate IsResubmitted(was: Row, now: Row, actor: Id, comment: string) {
    now == was.(sheet := now.sheet, status := Approved, rejectionReason := None, approvalComment := None,
                flaggedPus := [], flaggedWards := [],
                log := was.log + [LogEntry(ApprovedAction, actor, Rejected, Approved, Some(comment))])
  }

  lemma RepublicationWrites(
      g: Register, t: Table, user: User, contest: Id, level: Level, comment: string, k: Key)
    requires g.Valid() && level in {Ward, Lga} && Resubmit(g, t, user, contest, level, comment).Ok?
    ensures
      var at, u := Key(contest, level, user.scope.Or("")), Resubmit(g, t, user, contest, level, comment).value;
      && at in t && at in u
      && (at in Chain(g, at) ==> IsResubmitted(t[at], u[at], user.sub, comment))
      && (k != at ==> IsWritten(Find(t, k), Find(u, k), k in Chain(g, at), false))
  {
    hide PublishAncestry, Chain;
    var at := Key(contest, level, user.scope.Or(""));
    PublicationWrites(g, t, at, true, false, at);
    PublicationWrites(g, t, at, true, false, k);
    PublishOnlyRolls(g, t, at, true, false);
  }

  lemma WardResubmissionWrites(g: Register, t: Table, user: User, contest: Id, k: Key)
    requires g.Valid() && Apply(g, t, ResubmitWardCall(user, contest)).Ok?
    ensures
      var at, u := Key(contest, Ward, user.scope.Or("")), Exec(g, t, ResubmitWardCall(user, contest));
      && at in t && at in u
      && (at.scope in g.wardLga ==>
            IsResubmitted(t[at], u[at], user.sub, "Republished ward totals after correction"))
      && (k != at ==> IsWritten(Find(t, k), Find(u, k), k in Chain(g, at), false))
  {
    hide PublishAncestry, IsWritten, IsResubmitted, Resubmit;
    RepublicationWrites(g, t, user, contest, Ward, WARD_REPUBLISHED, k);
  }

  lemma LgaResubmissionWrites(g: Register, t: Table, user: User, contest: Id, k: Key)
    requires g.Valid() && Apply(g, t, ResubmitLgaCall(user, contest)).Ok?
    ensures
      var at, u := Key(contest, Lga, user.scope.Or("")), Exec(g, t, ResubmitLgaCall(user, contest));
      && at in t && at in u
      && IsResubmitted(t[at], u[at], user.sub, "Republished LGA totals after correction")
      && (k != at ==> IsWritten(Find(t, k), Find(u, k), k in Chain(g, at), false))
  {
    hide PublishAncestry, IsWritten, IsResubmitted, Resubmit;
    RepublicationWrites(g, t, user, contest, Lga, LGA_REPUBLISHED, k);
  }

  // ---------------------------------------------------------------- into REJECTED

  /** The call returns the row, and its user may: as the row returned, as one it flags, or in bulk. */
  ghost predicate Returns(g: Register, t: Table, c: Command, k: Key)
    requires g.Valid()
  {
    k in t && t[k].status in {Submitted, Approved} &&
    match c
    case ReturnCall(user, at, request) =>
      && at in t && t[at].status in {Submitted, Approved} && MayReturnRow(g, t, user, at)
      && FlagsAreBelow(g, at, request) && (k == at || Flags(at, request, k))
    case BulkReturnCall(user, contests, _) => ActsAt(user, Ward) && IsOpenFlagged(t, contests, user.scope.value, k)
    case _ => false
  }

  lemma OthersRejectNothing(g: Register, t: Table, c: Command, k: Key)
    requires g.Valid() && !c.ReturnCall? && (c.BulkReturnCall? ==> k.level != PollingUnit)
    requires k in t ==> t[k].status != Rejected
    ensures k in Exec(g, t, c) ==> Exec(g, t, c)[k].status != Rejected
  {
    assert forall was: Option<Row>, row: Row ::
      RowOp(g, c, k, was, row) && (was.Some? ==> was.value.status != Rejected) ==> row.status != Rejected;
    var related: RowRelation := (j: Key, was: Option<Row>, row: Row) =>
      j == k && (was.Some? ==> was.value.status != Rejected) ==> row.status != Rejected;
    hide RowOp;
    CallRelated(g, t, c, related);
    var u := Exec(g, t, c);
    if k in u {
      assert related(k, Find(t, k), u[k]);
    }
  }

  lemma ReturnRejectsExactly(g: Register, t: Table, user: User, at: Key, request: ReturnRequest, k: Key)
    requires g.Valid() && (k in t ==> t[k].status != Rejected)
    requires Apply(g, t, ReturnCall(user, at, request)).Ok?
    ensures
      var c := ReturnCall(user, at, request);
      (k in Exec(g, t, c) && Exec(g, t, c)[k].status == Rejected) <==> Returns(g, t, c, k)
  {
    hide PublishAncestry, Chain, FlagsFor, IsGiven, MayReturnRow, FlagsAreBelow, Exec, Apply, TakesFlags;
    ReturnWrites(g, t, user, at, request, k);
    ReturnIsAccepted(g, t, user, at, request);
  }

  /** A row that was not REJECTED is so after a call exactly if the call is accepted and returns it. */
  lemma RejectedExactly(g: Register, t: Table, c: Command, k: Key)
    requires g.Valid() && (k in t ==> t[k].status != Rejected)
    ensures (k in Exec(g, t, c) && Exec(g, t, c)[k].status == Rejected) <==> Apply(g, t, c).Ok? && Returns(g, t, c, k)
  {
    hide MayReturnRow, FlagsAreBelow, Flags;
    if !Apply(g, t, c).Ok? {
    } else if c.ReturnCall? {
      ReturnRejectsExactly(g, t, c.user, c.at, c.request, k);
    } else if c.BulkReturnCall? && k.level == PollingUnit {
      BulkReturnWrites(g, t, c.user, c.contests, c.reason, k);
    } else {
      OthersRejectNothing(g, t, c, k);
    }
  }

  /** In every run a row that is REJECTED at the end was returned by a call of someone who may return it. */
  lemma {:induction false} EveryReturnIsAuthorized(g: Register, cs: seq<Command>, k: Key) returns (i: nat)
    requires g.Valid() && k in Run(g, map[], cs) && Run(g, map[], cs)[k].status == Rejected
    ensures i < |cs| && Accepted(g, cs, i) && Returns(g, Run(g, map[], cs[..i]), cs[i], k)
    decreases |cs|
  {
    hide Returns;
    var n := |cs| - 1;
    var before := Run(g, map[], cs[..n]);
    if k in before && before[k].status == Rejected {
      i := EveryReturnIsAuthorized(g, cs[..n], k);
      AcceptedBefore(g, cs, n, i);
      assert cs[..n][..i] == cs[..i];
    } else {
      i := n;
      RejectedExactly(g, before, cs[n], k);
    }
  }
}
