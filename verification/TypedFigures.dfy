/**
 * Figures typed over a row in DRAFT go nowhere until the row is submitted: two tables that differ in
 * them alone stay alike through any run in which no submission of the row is accepted.
 */
module TypedFigures {
  import opened Wrappers
  import opened Hierarchy
  import opened Sheets
  import opened Workflow
  import opened Runs

  /** The tables are the same but for the figures of the row at `k`, which may differ while it is in DRAFT. */
  ghost predicate AgreeBut(t: Table, u: Table, k: Key) {
    && t.Keys == u.Keys
    && (forall j :: j in t && j != k ==> u[j] == t[j])
    && (k in t ==> u[k] == t[k].(sheet := u[k].sheet) && (t[k].status != Draft ==> u[k] == t[k]))
  }

  lemma RewriteAgrees(t: Table, u: Table, k: Key, at: Key, row: Row, other: Row)
    requires AgreeBut(t, u, k)
    requires if at == k && row.status == Draft then other == row.(sheet := other.sheet) else other == row
    ensures AgreeBut(t[at := row], u[at := other], k)
  {
  }

  lemma SameChildren(g: Register, t: Table, u: Table, at: Key, k: Key)
    requires AgreeBut(t, u, k)
    ensures ChildKeys(g, u, at) == ChildKeys(g, t, at)
    ensures Sum(ChildKeys(g, u, at), SheetsOf(u)) == Sum(ChildKeys(g, t, at), SheetsOf(t))
  {
    var children := ChildKeys(g, t, at);
    assert forall j :: j in t ==> u[j].status == t[j].status;
    assert children == ChildKeys(g, u, at);
    NotDraft(g, t, at);
    hide ChildKeys, Sum;
    assert forall j :: j in children ==> t[j].sheet == u[j].sheet;
    SumCongruent(children, SheetsOf(t), SheetsOf(u));
  }

  lemma NotDraft(g: Register, t: Table, at: Key)
    ensures ChildKeys(g, t, at) <= t.Keys && forall j :: j in ChildKeys(g, t, at) ==> t[j].status != Draft
  {
  }

  lemma SameRolledRow(t: Table, u: Table, at: Key, totals: Totals, clear: bool, keep: bool, k: Key)
    requires AgreeBut(t, u, k)
    ensures RollupRow(Find(u, at), totals, clear, keep) == RollupRow(Find(t, at), totals, clear, keep)
  {
  }

  lemma RollupAgrees(g: Register, t: Table, u: Table, at: Key, clear: bool, keep: bool, k: Key)
    requires AgreeBut(t, u, k)
    ensures AgreeBut(Rollup(g, t, at, clear, keep), Rollup(g, u, at, clear, keep), k)
  {
    hide ChildKeys, Sum, RollupRow;
    SameChildren(g, t, u, at, k);
    NotDraft(g, t, at);
    NotDraft(g, u, at);
    var totals := Sum(ChildKeys(g, t, at), SheetsOf(t));
    var row := RollupRow(Find(t, at), totals, clear, keep);
    SameRolledRow(t, u, at, totals, clear, keep, k);
    RewriteAgrees(t, u, k, at, row, row);
    hide AgreeBut;
    SameKeys(t, u, k);
  }

  lemma SameKeys(t: Table, u: Table, k: Key)
    requires AgreeBut(t, u, k)
    ensures t.Keys == u.Keys
  {
  }

  lemma PublicationAgrees(g: Register, t: Table, u: Table, from: Key, clear: bool, keep: bool, k: Key)
    requires g.Valid() && AgreeBut(t, u, k)
    ensures AgreeBut(PublishAncestry(g, t, from, clear, keep), PublishAncestry(g, u, from, clear, keep), k)
  {
    hide Rollup, AgreeBut;
    forall x, y, at, c, p | AgreeBut(x, y, k)
      ensures AgreeBut(Rollup(g, x, at, c, p), Rollup(g, y, at, c, p), k)
    {
      RollupAgrees(g, x, y, at, c, p, k);
    }
  }

  lemma ReturningAgrees(t: Table, u: Table, contest: Id, level: Level, ids: seq<Id>, actor: Id, reason: string, k: Key)
    requires AgreeBut(t, u, k)
    ensures OpenKeys(u, contest, level, ids) == OpenKeys(t, contest, level, ids)
    ensures AgreeBut(
      ReturnRows(t, OpenKeys(t, contest, level, ids), actor, reason),
      ReturnRows(u, OpenKeys(u, contest, level, ids), actor, reason), k)
  {
    assert forall j :: j in t ==> u[j].status == t[j].status;
  }

  lemma MarkingAgrees(t: Table, u: Table, at: Key, actor: Id, reason: string, pus: seq<Id>, wards: seq<Id>, k: Key)
    requires AgreeBut(t, u, k) && at in t && Returnable(t[at].status)
    ensures AgreeBut(
      Workflow.MarkReturned(t, at, actor, reason, pus, wards),
      Workflow.MarkReturned(u, at, actor, reason, pus, wards), k)
  {
    hide OpenKeys, ReturnRows;
    assert u[at] == t[at];
    var row := WithFlags(ReturnedRow(t[at], actor, reason), pus, wards);
    var t1, u1 := t[at := row], u[at := row];
    RewriteAgrees(t, u, k, at, row, row);
    hide AgreeBut;
    ReturningAgrees(t1, u1, at.contest, PollingUnit, pus, actor, reason, k);
    var t2 := ReturnRows(t1, OpenKeys(t1, at.contest, PollingUnit, pus), actor, reason);
    var u2 := ReturnRows(u1, OpenKeys(u1, at.contest, PollingUnit, pus), actor, reason);
    ReturningAgrees(t2, u2, at.contest, Ward, wards, actor, reason, k);
  }

  /** The results of a call on both tables: the same error, or tables that agree again. */
  ghost predicate Alike(r: Result<Table>, s: Result<Table>, k: Key) {
    if r.Ok? then s.Ok? && AgreeBut(r.value, s.value, k) else s == r
  }

  lemma ReturnIsAlike(g: Register, t: Table, u: Table, user: User, at: Key, request: ReturnRequest, k: Key)
    requires g.Valid() && AgreeBut(t, u, k)
    ensures Alike(Return(g, t, user, at, request), Return(g, u, user, at, request), k)
  {
    assert ReturnError(g, u, user, at) == ReturnError(g, t, user, at);
    hide PublishAncestry, Workflow.MarkReturned, AgreeBut;
    if Return(g, t, user, at, request).Ok? {
      var pus := FlagsFor(g, at, AsksForPus(user, at), request.affectedPus).value;
      var wards := FlagsFor(g, at, AsksForWards(user, at), request.affectedWards).value;
      MarkingAgrees(t, u, at, user.sub, request.reason, pus, wards, k);
      PublicationAgrees(g,
        Workflow.MarkReturned(t, at, user.sub, request.reason, pus, wards),
        Workflow.MarkReturned(u, at, user.sub, request.reason, pus, wards), at, false, at.level != PollingUnit, k);
    }
  }

  lemma ApproveIsAlike(g: Register, t: Table, u: Table, user: User, at: Key, note: Option<string>, k: Key)
    requires g.Valid() && AgreeBut(t, u, k)
    ensures Alike(Approve(g, t, user, at, note), Approve(g, u, user, at, note), k)
  {
    hide PublishAncestry;
    if Approve(g, t, user, at, note).Ok? {
      var row := ApprovedRow(t[at], user.sub, note);
      assert u[at] == t[at];
      RewriteAgrees(t, u, k, at, row, row);
      PublicationAgrees(g, t[at := row], u[at := row], at, true, false, k);
    }
  }

  lemma ResubmitIsAlike(
      g: Register, t: Table, u: Table, user: User, contest: Id, level: Level, comment: string, k: Key)
    requires g.Valid() && AgreeBut(t, u, k)
    ensures Alike(Resubmit(g, t, user, contest, level, comment), Resubmit(g, u, user, contest, level, comment), k)
  {
    hide PublishAncestry;
    if Resubmit(g, t, user, contest, level, comment).Ok? {
      var at := Key(contest, level, user.Posting().value.scope);
      PublicationAgrees(g, t, u, at, true, false, k);
      var t1, u1 := PublishAncestry(g, t, at, true, false), PublishAncestry(g, u, at, true, false);
      if at in t1 {
        RewriteAgrees(t1, u1, k, at,
          RepublishedRow(t1[at], user.sub, comment), RepublishedRow(u1[at], user.sub, comment));
      }
    }
  }

  lemma {:induction false} BulkAgrees(
      g: Register, t: Table, u: Table, start: Table, other: Table, contests: seq<Id>, ward: Id, actor: Id,
      reason: string, k: Key)
    requires g.Valid() && AgreeBut(t, u, k)
    requires forall c :: c in contests ==> Key(c, Ward, ward) in start && Key(c, Ward, ward) in other
    requires forall c :: c in contests ==> other[Key(c, Ward, ward)] == start[Key(c, Ward, ward)]
    ensures AgreeBut(
      BulkReturnAll(g, t, start, contests, ward, actor, reason),
      BulkReturnAll(g, u, other, contests, ward, actor, reason), k)
    decreases |contests|
  {
    if contests == [] {
    } else {
      hide AgreeBut, BulkReturnIn;
      var n := |contests| - 1;
      BulkAgrees(g, t, u, start, other, contests[..n], ward, actor, reason, k);
      var at := Key(contests[n], Ward, ward);
      OneBulkAgrees(g,
        BulkReturnAll(g, t, start, contests[..n], ward, actor, reason),
        BulkReturnAll(g, u, other, contests[..n], ward, actor, reason), at, start[at], actor, reason, k);
    }
  }

  lemma OneBulkAgrees(g: Register, t: Table, u: Table, at: Key, row: Row, actor: Id, reason: string, k: Key)
    requires g.Valid() && AgreeBut(t, u, k) && at.level == Ward
    ensures AgreeBut(BulkReturnIn(g, t, at, row, actor, reason), BulkReturnIn(g, u, at, row, actor, reason), k)
  {
    hide PublishAncestry, AgreeBut, OpenKeys, ReturnRows;
    var used := BulkReason(reason, row);
    ReturningAgrees(t, u, at.contest, PollingUnit, row.flaggedPus, actor, used, k);
    var ks := OpenKeys(t, at.contest, PollingUnit, row.flaggedPus);
    PublicationAgrees(g, ReturnRows(t, ks, actor, used), ReturnRows(u, ks, actor, used), at, false, false, k);
  }

  lemma {:induction false} SameFlagged(t: Table, u: Table, contests: seq<Id>, ward: Id, k: Key)
    requires AgreeBut(t, u, k)
    ensures FlaggedContests(u, contests, ward) == FlaggedContests(t, contests, ward)
    decreases |contests|
  {
    if contests == [] {
    } else {
      SameFlagged(t, u, contests[..|contests| - 1], ward, k);
    }
  }

  lemma BulkIsAlike(g: Register, t: Table, u: Table, user: User, contests: seq<Id>, reason: string, k: Key)
    requires g.Valid() && AgreeBut(t, u, k)
    ensures Alike(BulkReturn(g, t, user, contests, reason), BulkReturn(g, u, user, contests, reason), k)
  {
    hide BulkReturnAll;
    if BulkReturn(g, t, user, contests, reason).Ok? || BulkReturn(g, u, user, contests, reason).Ok? {
      var ward := user.Posting().value.scope;
      var flagged := FlaggedContests(t, contests, ward);
      SameFlagged(t, u, contests, ward, k);
      FlaggedContestsAreReturned(t, contests, ward);
      BulkAgrees(g, t, u, t, u, flagged, ward, user.sub, reason, k);
    } else if user.Posting().Some? {
      SameFlagged(t, u, contests, user.Posting().value.scope, k);
    }
  }

  lemma SaveIsAlike(t: Table, u: Table, user: User, contest: Id, dto: Entry, k: Key)
    requires AgreeBut(t, u, k)
    ensures Alike(Save(t, user, contest, dto), Save(u, user, contest, dto), k)
  {
    if Save(t, user, contest, dto).Ok? {
      var at := Key(contest, user.Posting().value.level, user.Posting().value.scope);
      RewriteAgrees(t, u, k, at, SavedRow(Find(t, at), dto), SavedRow(Find(u, at), dto));
    }
  }

  lemma EditIsAlike(g: Register, t: Table, u: Table, c: Command, k: Key)
    requires g.Valid() && AgreeBut(t, u, k)
    requires c.AttachCall? || c.CommentCall? || (c.SubmitCall? && c.at != k)
    ensures Alike(Apply(g, t, c), Apply(g, u, c), k)
  {
    if Apply(g, t, c).Ok? {
      RewriteAgrees(t, u, k, c.at, Exec(g, t, c)[c.at], Exec(g, u, c)[c.at]);
    }
  }

  /** One call on both tables. */
  lemma CallIsAlike(g: Register, t: Table, u: Table, c: Command, k: Key)
    requires g.Valid() && AgreeBut(t, u, k)
    requires c.SubmitCall? && c.at == k ==> !Apply(g, t, c).Ok?
    ensures AgreeBut(Exec(g, t, c), Exec(g, u, c), k)
  {
    hide AgreeBut;
    match c
    case SaveCall(user, contest, dto) => SaveIsAlike(t, u, user, contest, dto, k);
    case ApproveCall(user, at, note) => ApproveIsAlike(g, t, u, user, at, note, k);
    case ReturnCall(user, at, request) => ReturnIsAlike(g, t, u, user, at, request, k);
    case ResubmitWardCall(user, contest) => ResubmitIsAlike(g, t, u, user, contest, Ward, WARD_REPUBLISHED, k);
    case ResubmitLgaCall(user, contest) => ResubmitIsAlike(g, t, u, user, contest, Lga, LGA_REPUBLISHED, k);
    case BulkReturnCall(user, contests, reason) => BulkIsAlike(g, t, u, user, contests, reason, k);
    case SubmitCall(user, at) =>
      if at == k {
        SameRefusal(t, u, user, at);
      } else {
        EditIsAlike(g, t, u, c, k);
      }
    case _ => EditIsAlike(g, t, u, c, k);
  }

  lemma SameRefusal(t: Table, u: Table, user: User, at: Key)
    requires AgreeBut(t, u, at) && !Submit(t, user, at).Ok?
    ensures !Submit(u, user, at).Ok?
  {
  }

  /** No submission of the row at `k` is accepted in the run. */
  ghost predicate NotSubmitted(g: Register, t: Table, cs: seq<Command>, k: Key)
    requires g.Valid()
  {
    forall i :: 0 <= i < |cs| && cs[i].SubmitCall? && cs[i].at == k ==> !Apply(g, Run(g, t, cs[..i]), cs[i]).Ok?
  }

  /** Whatever is typed over a row in DRAFT shows nowhere else as long as the row is not submitted. */
  lemma {:induction false} TypedFiguresStayOut(g: Register, t: Table, u: Table, cs: seq<Command>, k: Key)
    requires g.Valid() && AgreeBut(t, u, k) && NotSubmitted(g, t, cs, k)
    ensures AgreeBut(Run(g, t, cs), Run(g, u, cs), k)
    decreases |cs|
  {
    if cs == [] {
    } else {
      hide AgreeBut;
      var n := |cs| - 1;
      forall i | 0 <= i <= n
        ensures cs[..n][..i] == cs[..i]
      {
      }
      TypedFiguresStayOut(g, t, u, cs[..n], k);
      CallIsAlike(g, Run(g, t, cs[..n]), Run(g, u, cs[..n]), cs[n], k);
    }
  }
}
