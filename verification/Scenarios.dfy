/**
 * Two runs from the empty table that reach what the documentation rules out: a ward APPROVED over a
 * unit that is REJECTED, and flags on a row that is not REJECTED.  Both work in every register.
 */
module Scenarios {
  import opened Wrappers
  import opened Hierarchy
  import opened Sheets
  import opened Workflow
  import opened Runs
  import opened Effects
  import opened Invariants
  import opened Transitions

  /** A polling unit of a register, in a contest; its id and its ward's carry no blanks. */
  datatype Place = Place(g: Register, contest: Id, unit: Id) {
    ghost predicate Valid() {
      g.Valid() && unit in g.puWard && Plain(unit) && Plain(g.puWard[unit])
    }

    function WardId(): Id requires unit in g.puWard { g.puWard[unit] }

    ghost function LgaId(): Id requires Valid() { g.wardLga[WardId()] }

    ghost function StateId(): Id requires Valid() { g.lgaState[LgaId()] }

    ghost function Unit(): Key { Key(contest, PollingUnit, unit) }

    ghost function WardKey(): Key requires Valid() { Key(contest, Ward, WardId()) }

    ghost function LgaKey(): Key requires Valid() { Key(contest, Lga, LgaId()) }

    ghost function Agent(): User { User("agent", PollingAgent, Some(unit)) }

    ghost function WardOfficer(): User requires Valid() { User("ward officer", WardRaOfficer, Some(WardId())) }

    ghost function LgaOfficer(): User requires Valid() { User("LGA officer", LgaCollationOfficer, Some(LgaId())) }

    ghost function StateOfficer(): User
      requires Valid()
    {
      User("state officer", StateCollationOfficer, Some(StateId()))
    }
  }

  predicate Plain(id: Id) {
    id != "" && Trim(id) == id
  }

  lemma CleanOne(id: Id)
    requires Plain(id)
    ensures CleanIds([id]) == [id]
  {
    assert [id][..0] == [];
    assert CleanIds([]) == [];
  }

  lemma RunOneMore(g: Register, cs: seq<Command>, c: Command)
    requires g.Valid()
    ensures Run(g, map[], cs + [c]) == Exec(g, Run(g, map[], cs), c)
  {
    assert (cs + [c])[..|cs|] == cs;
  }

  // ---------------------------------------------------------------- up to the approval of the unit

  const NO_FIGURES := Entry(Keep, Keep, Keep, Keep, Keep, Keep, Keep, Keep, Keep, Keep)

  ghost function EntryCalls(p: Place): seq<Command> {
    [SaveCall(p.Agent(), p.contest, NO_FIGURES)] + [AttachCall(p.Agent(), p.Unit(), "photo")]
    + [SubmitCall(p.Agent(), p.Unit())]
  }

  lemma UnitIsSubmitted(p: Place)
    requires p.Valid()
    ensures
      var t := Run(p.g, map[], EntryCalls(p));
      p.Unit() in t && t[p.Unit()].status == Submitted && t.Keys == {p.Unit()}
  {
    var c0, c1 := SaveCall(p.Agent(), p.contest, NO_FIGURES), AttachCall(p.Agent(), p.Unit(), "photo");
    var c2 := SubmitCall(p.Agent(), p.Unit());
    assert [] + [c0] == [c0];
    RunOneMore(p.g, [], c0);
    RunOneMore(p.g, [c0], c1);
    RunOneMore(p.g, [c0] + [c1], c2);
    assert Run(p.g, map[], []) == map[];
  }

  /** The unit, its ward and its LGA are there and APPROVED. */
  ghost predicate AllApproved(p: Place, t: Table)
    requires p.Valid()
  {
    && p.Unit() in t && t[p.Unit()].status == Approved
    && p.WardKey() in t && t[p.WardKey()].status == Approved
    && p.LgaKey() in t && t[p.LgaKey()].status == Approved
  }

  lemma PublishedFirst(p: Place, t: Table)
    requires p.Valid() && p.Unit() in t && t[p.Unit()].status == Approved
    requires p.WardKey() !in t && p.LgaKey() !in t
    ensures AllApproved(p, PublishWard(p.g, t, p.contest, p.WardId(), true, false))
  {
    var t1 := Rollup(p.g, t, p.WardKey(), true, false);
    assert p.Unit() in ChildKeys(p.g, t, p.WardKey());
    var t2 := Rollup(p.g, t1, p.LgaKey(), false, false);
    assert p.WardKey() in ChildKeys(p.g, t1, p.LgaKey());
  }

  ghost function ApprovalCalls(p: Place): seq<Command>
    requires p.Valid()
  {
    EntryCalls(p) + [ApproveCall(p.WardOfficer(), p.Unit(), None)]
  }

  lemma ApprovalIsAccepted(p: Place, t: Table)
    requires p.Valid() && p.Unit() in t && t[p.Unit()].status == Submitted
    ensures Exec(p.g, t, ApproveCall(p.WardOfficer(), p.Unit(), None))
      == PublishWard(
        p.g, t[p.Unit() := ApprovedRow(t[p.Unit()], "ward officer", None)], p.contest, p.WardId(), true, false)
  {
    hide PublishWard;
  }

  lemma UnitIsApproved(p: Place)
    requires p.Valid()
    ensures AllApproved(p, Run(p.g, map[], ApprovalCalls(p)))
  {
    hide PublishWard, Exec, AllApproved, Run;
    var t := Run(p.g, map[], EntryCalls(p));
    UnitIsSubmitted(p);
    RunOneMore(p.g, EntryCalls(p), ApproveCall(p.WardOfficer(), p.Unit(), None));
    ApprovalIsAccepted(p, t);
    PublishedFirst(p, t[p.Unit() := ApprovedRow(t[p.Unit()], "ward officer", None)]);
  }

  /** A returned ward or LGA is republished as it was returned. */
  lemma StaysReturned(g: Register, t: Table, at: Key)
    requires g.Valid() && at in t && at.level in {Ward, Lga} && t[at].status == Rejected
    ensures
      var u := PublishAncestry(g, t, at, false, true);
      && at in u && u[at].status == Rejected
      && u[at].flaggedPus == t[at].flaggedPus && u[at].flaggedWards == t[at].flaggedWards
  {
    PublishOnlyRolls(g, t, at, false, true);
    hide PublishAncestry;
    assert at in PublishAncestry(g, t, at, false, true);
  }

  // ---------------------------------------------------------------- the ward goes up again over an open unit

  ghost function WardReturn(p: Place): Command
    requires p.Valid()
  {
    ReturnCall(p.LgaOfficer(), p.WardKey(), ReturnRequest("check this unit", [p.unit], []))
  }

  ghost function MarkedWard(p: Place, t: Table): Table
    requires p.Valid() && AllApproved(p, t)
  {
    Workflow.MarkReturned(t, p.WardKey(), "LGA officer", "check this unit", [p.unit], [])
  }

  lemma WardReturnIsAccepted(p: Place, t: Table)
    requires p.Valid() && AllApproved(p, t)
    ensures Exec(p.g, t, WardReturn(p)) == PublishAncestry(p.g, MarkedWard(p, t), p.WardKey(), false, true)
  {
    hide PublishAncestry, Workflow.MarkReturned, Trim, CleanIds;
    CleanOne(p.unit);
    assert FlagsFor(p.g, p.WardKey(), true, [p.unit]) == Ok([p.unit]);
  }

  lemma WardIsMarked(p: Place, t: Table)
    requires p.Valid() && AllApproved(p, t)
    ensures
      var u := MarkedWard(p, t);
      && p.WardKey() in u && u[p.WardKey()].status == Rejected
      && p.Unit() in u && u[p.Unit()].status == Rejected
  {
    assert [p.unit][0] == p.unit;
  }

  /** The LGA returns the ward with the unit flagged: both are REJECTED then. */
  lemma WardIsReturned(p: Place, t: Table)
    requires p.Valid() && AllApproved(p, t)
    ensures
      var u := Exec(p.g, t, WardReturn(p));
      && p.WardKey() in u && u[p.WardKey()].status == Rejected
      && p.Unit() in u && u[p.Unit()].status == Rejected
  {
    WardReturnIsAccepted(p, t);
    WardIsMarked(p, t);
    StaysReturned(p.g, MarkedWard(p, t), p.WardKey());
    UnitStays(p.g, MarkedWard(p, t), p.WardKey(), false, true, p.Unit());
    hide Exec, MarkedWard, PublishAncestry, AllApproved;
  }

  lemma UnitStays(g: Register, t: Table, from: Key, clear: bool, keep: bool, k: Key)
    requires g.Valid() && k.level == PollingUnit && k in t
    ensures k in PublishAncestry(g, t, from, clear, keep) && PublishAncestry(g, t, from, clear, keep)[k] == t[k]
  {
    PublishKeepsUnits(g, t, from, clear, keep);
    hide PublishAncestry;
    assert Find(PublishAncestry(g, t, from, clear, keep), k) == Find(t, k);
  }

  ghost function ReapprovalCalls(p: Place): seq<Command>
    requires p.Valid()
  {
    ApprovalCalls(p) + [WardReturn(p)] + [ResubmitWardCall(p.WardOfficer(), p.contest)]
  }

  /** After the ward officer's resubmission the ward is APPROVED and the flagged unit still REJECTED. */
  lemma WardIsApprovedOverRejectedUnit(p: Place)
    requires p.Valid()
    ensures
      var t := Run(p.g, map[], ReapprovalCalls(p));
      && p.WardKey() in t && t[p.WardKey()].status == Approved
      && p.Unit() in t && t[p.Unit()].status == Rejected
      && !AllUnitsApproved(p.g, t, p.WardKey())
  {
    hide Run, Exec, AllApproved, AllUnitsApproved;
    var before := Run(p.g, map[], ApprovalCalls(p));
    var returned := Exec(p.g, before, WardReturn(p));
    UnitIsApproved(p);
    WardIsReturned(p, before);
    RunOneMore(p.g, ApprovalCalls(p), WardReturn(p));
    RunOneMore(p.g, ApprovalCalls(p) + [WardReturn(p)], ResubmitWardCall(p.WardOfficer(), p.contest));
    ResubmissionKeepsUnit(p, returned);
  }

  lemma ResubmissionKeepsUnit(p: Place, t: Table)
    requires p.Valid() && p.WardKey() in t && t[p.WardKey()].status == Rejected
    requires p.Unit() in t && t[p.Unit()].status == Rejected
    ensures
      var u := Exec(p.g, t, ResubmitWardCall(p.WardOfficer(), p.contest));
      && p.WardKey() in u && u[p.WardKey()].status == Approved
      && p.Unit() in u && u[p.Unit()].status == Rejected
      && !AllUnitsApproved(p.g, u, p.WardKey())
  {
    WardResubmissionChecksNoUnits(p.g, t, p.WardOfficer(), p.contest);
    UnitStays(p.g, t, p.WardKey(), true, false, p.Unit());
    hide PublishAncestry;
    var u := Exec(p.g, t, ResubmitWardCall(p.WardOfficer(), p.contest));
    assert p.Unit() in u && u[p.Unit()] == t[p.Unit()];
  }

  // ---------------------------------------------------------------- flags on a row that is not REJECTED

  ghost function LgaReturn(p: Place): Command
    requires p.Valid()
  {
    ReturnCall(p.StateOfficer(), p.LgaKey(), ReturnRequest("check this ward", [], [p.WardId()]))
  }

  ghost function MarkedLga(p: Place, t: Table): Table
    requires p.Valid() && AllApproved(p, t)
  {
    Workflow.MarkReturned(t, p.LgaKey(), "state officer", "check this ward", [], [p.WardId()])
  }

  lemma LgaReturnIsAccepted(p: Place, t: Table)
    requires p.Valid() && AllApproved(p, t)
    ensures Exec(p.g, t, LgaReturn(p)) == PublishAncestry(p.g, MarkedLga(p, t), p.LgaKey(), false, true)
  {
    hide PublishAncestry, Workflow.MarkReturned, Trim, CleanIds;
    CleanOne(p.WardId());
    assert FlagsFor(p.g, p.LgaKey(), true, [p.WardId()]) == Ok([p.WardId()]);
  }

  lemma LgaIsMarked(p: Place, t: Table)
    requires p.Valid() && AllApproved(p, t)
    ensures
      var u := MarkedLga(p, t);
      p.LgaKey() in u && u[p.LgaKey()].status == Rejected && u[p.LgaKey()].flaggedWards == [p.WardId()]
  {
  }

  /** The state returns the LGA with the ward flagged. */
  lemma LgaIsReturned(p: Place, t: Table)
    requires p.Valid() && AllApproved(p, t)
    ensures
      var u := Exec(p.g, t, LgaReturn(p));
      p.LgaKey() in u && u[p.LgaKey()].status == Rejected && u[p.LgaKey()].flaggedWards == [p.WardId()]
  {
    LgaReturnIsAccepted(p, t);
    LgaIsMarked(p, t);
    StaysReturned(p.g, MarkedLga(p, t), p.LgaKey());
    hide Exec, MarkedLga, PublishAncestry, AllApproved;
  }

  ghost function LgaSubmissionCalls(p: Place): seq<Command>
    requires p.Valid()
  {
    ApprovalCalls(p) + [LgaReturn(p)] + [SubmitCall(p.LgaOfficer(), p.LgaKey())]
  }

  lemma NotBookkept(g: Register, t: Table, k: Key)
    requires k in t && t[k].status != Rejected && t[k].flaggedWards != []
    ensures !AllBookkept(g, t)
  {
    assert !Bookkept(g, k, t[k]);
  }

  /** After the LGA officer submits the returned row it is SUBMITTED, without reason, and still flagged. */
  lemma FlagsOutliveTheReturn(p: Place)
    requires p.Valid()
    ensures
      var t := Run(p.g, map[], LgaSubmissionCalls(p));
      && p.LgaKey() in t && t[p.LgaKey()].status == Submitted
      && t[p.LgaKey()].rejectionReason == None && t[p.LgaKey()].flaggedWards == [p.WardId()]
      && !AllBookkept(p.g, t)
  {
    hide Run, AllApproved, AllBookkept;
    var before := Run(p.g, map[], ApprovalCalls(p));
    UnitIsApproved(p);
    LgaIsReturned(p, before);
    RunOneMore(p.g, ApprovalCalls(p), LgaReturn(p));
    RunOneMore(p.g, ApprovalCalls(p) + [LgaReturn(p)], SubmitCall(p.LgaOfficer(), p.LgaKey()));
    NotBookkept(p.g, Run(p.g, map[], LgaSubmissionCalls(p)), p.LgaKey());
  }
}
