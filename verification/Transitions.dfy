/** How polling-unit figures are held still, and how a returned row gets out of REJECTED. */
module Transitions {
  import opened Wrappers
  import opened Hierarchy
  import opened Sheets
  import opened Workflow
  import opened Runs
  import opened Effects
  import opened Invariants

  // ---------------------------------------------------------------- polling-unit figures

  predicate SameFigures(a: Row, b: Row) {
    a.sheet == b.sheet && a.photos == b.photos
  }

  /** A save or photo upload by the officer of the polling unit itself. */
  predicate EditsPu(c: Command, k: Key) {
    && (c.SaveCall? || c.AttachCall?)
    && c.user.Posting() == Some(Post(PollingUnit, k.scope))
    && (c.SaveCall? ==> c.contest == k.contest)
    && (c.AttachCall? ==> c.at == k)
  }

  /** A polling unit's figures and photos change only by its own officer, in DRAFT or REJECTED. */
  lemma FiguresChangeOnlyWhileEditable(g: Register, t: Table, c: Command, k: Key)
    requires g.Valid() && k.level == PollingUnit && k in t
    ensures k in Exec(g, t, c)
    ensures !SameFigures(Exec(g, t, c)[k], t[k]) ==> Editable(t[k].status) && EditsPu(c, k)
  {
    if !c.SaveCall? && !c.AttachCall? {
      var related: RowRelation := (j: Key, was: Option<Row>, row: Row) =>
        j.level == PollingUnit ==> was.Some? && SameFigures(was.value, row);
      CallRelated(g, t, c, related);
      assert related(k, Find(t, k), Exec(g, t, c)[k]);
    }
  }

  /** The row is held through a run: after no call of it is the row open for editing. */
  ghost predicate Held(g: Register, t: Table, cs: seq<Command>, k: Key)
    requires g.Valid()
  {
    forall i :: 0 <= i <= |cs| ==> var u := Run(g, t, cs[..i]); k in u && !Editable(u[k].status)
  }

  lemma {:induction false} HeldFiguresStay(g: Register, t: Table, cs: seq<Command>, k: Key)
    requires g.Valid() && k.level == PollingUnit && Held(g, t, cs, k)
    ensures k in t && k in Run(g, t, cs) && SameFigures(Run(g, t, cs)[k], t[k])
    decreases |cs|
  {
    assert cs[..0] == [];
    assert k in Run(g, t, cs[..0]);
    if cs == [] {
    } else {
      var n := |cs| - 1;
      forall i | 0 <= i <= n
        ensures cs[..n][..i] == cs[..i]
      {
      }
      HeldFiguresStay(g, t, cs[..n], k);
      var u := Run(g, t, cs[..n]);
      assert k in u && !Editable(u[k].status);
      FiguresChangeOnlyWhileEditable(g, u, cs[n], k);
    }
  }

  /** From its submission on, until it is returned, a polling unit's figures are those submitted. */
  lemma SubmittedFiguresStay(g: Register, before: Table, user: User, k: Key, cs: seq<Command>)
    requires g.Valid() && k.level == PollingUnit && Submit(before, user, k).Ok?
    requires Held(g, Submit(before, user, k).value, cs, k)
    ensures k in before && k in Run(g, Submit(before, user, k).value, cs)
    ensures SameFigures(Run(g, Submit(before, user, k).value, cs)[k], before[k])
  {
    HeldFiguresStay(g, Submit(before, user, k).value, cs, k);
  }

  /** The row is there and no longer open for editing. */
  predicate Closed(t: Table, k: Key) {
    k in t && !Editable(t[k].status)
  }

  /** Every other call leaves an open or missing polling-unit row open or missing. */
  lemma OthersKeepOpen(g: Register, t: Table, c: Command, k: Key)
    requires g.Valid() && k.level == PollingUnit && !Closed(t, k) && !(c.SubmitCall? && c.at == k)
    ensures !Closed(Exec(g, t, c), k)
  {
    assert forall was: Option<Row>, row: Row ::
      RowOp(g, c, k, was, row) && (was.None? || Editable(was.value.status)) ==> Editable(row.status);
    var related: RowRelation := (j: Key, was: Option<Row>, row: Row) =>
      j == k && (was.None? || Editable(was.value.status)) ==> Editable(row.status);
    hide RowOp;
    CallRelated(g, t, c, related);
    var u := Exec(g, t, c);
    if k in u {
      assert related(k, Find(t, k), u[k]);
    }
  }

  /** So nothing closes it but its own accepted submission, which keeps its figures. */
  lemma OnlySubmissionCloses(g: Register, t: Table, c: Command, k: Key)
    requires g.Valid() && k.level == PollingUnit && !Closed(t, k) && Closed(Exec(g, t, c), k)
    ensures c.SubmitCall? && c.at == k && Apply(g, t, c).Ok? && k in t
    ensures SameFigures(Exec(g, t, c)[k], t[k])
  {
    if !(c.SubmitCall? && c.at == k) {
      OthersKeepOpen(g, t, c, k);
    }
  }

  /** Call `i` of the run is an accepted submission of the row, with the figures of `row`. */
  ghost predicate SubmittedAs(g: Register, cs: seq<Command>, i: nat, k: Key, row: Row)
    requires g.Valid() && i < |cs|
  {
    var t := Run(g, map[], cs[..i]);
    cs[i].SubmitCall? && cs[i].at == k && Accepted(g, cs, i) && k in t && SameFigures(row, t[k])
  }

  /**
   * In every run a polling unit that is SUBMITTED or APPROVED at the end was submitted at some call of
   * the run, with just the figures and photos it shows at the end.
   */
  lemma {:induction false} ApprovedFiguresAreSubmitted(g: Register, cs: seq<Command>, k: Key) returns (i: nat)
    requires g.Valid() && k.level == PollingUnit && Closed(Run(g, map[], cs), k)
    ensures i < |cs| && SubmittedAs(g, cs, i, k, Run(g, map[], cs)[k])
    decreases |cs|
  {
    var n := |cs| - 1;
    var before := Run(g, map[], cs[..n]);
    if Closed(before, k) {
      i := ApprovedFiguresAreSubmitted(g, cs[..n], k);
      FiguresChangeOnlyWhileEditable(g, before, cs[n], k);
      AcceptedBefore(g, cs, n, i);
      assert cs[..n][..i] == cs[..i];
    } else {
      i := n;
      OnlySubmissionCloses(g, before, cs[n], k);
    }
  }

  // ---------------------------------------------------------------- out of REJECTED

  /** The call is an approval of a polling unit of the ward, or the ward's own resubmission. */
  predicate ClearsWard(g: Register, c: Command, k: Key) {
    || (c.ApproveCall? && c.at.contest == k.contest && g.IsChild(Ward, k.scope, c.at.scope))
    || (c.ResubmitWardCall? && c.contest == k.contest && c.user.Posting() == Some(Post(Ward, k.scope)))
  }

  predicate ClearsLga(c: Command, k: Key) {
    c.ResubmitLgaCall? && c.contest == k.contest && c.user.Posting() == Some(Post(Lga, k.scope))
  }

  lemma StaysRejected(g: Register, t: Table, c: Command, k: Key)
    requires g.Valid() && k in t && t[k].status == Rejected
    requires forall was: Option<Row>, row: Row ::
      RowOp(g, c, k, was, row) && was.Some? && was.value.status == Rejected ==> row.status == Rejected
    ensures k in Exec(g, t, c) && Exec(g, t, c)[k].status == Rejected
  {
    var related: RowRelation := (j: Key, was: Option<Row>, row: Row) =>
      j == k && was.Some? && was.value.status == Rejected ==> row.status == Rejected;
    CallRelated(g, t, c, related);
    assert related(k, Find(t, k), Exec(g, t, c)[k]);
  }

  lemma PublishWardClears(g: Register, t: Table, contest: Id, ward: Id)
    requires g.Valid() && ward in g.wardLga && Key(contest, Ward, ward) in t
    ensures var u := PublishWard(g, t, contest, ward, true, false);
      Key(contest, Ward, ward) in u && u[Key(contest, Ward, ward)].status == Approved
      && u[Key(contest, Ward, ward)].flaggedPus == []
  {
  }

  /**
   * A returned ward becomes APPROVED by an accepted polling-unit approval in it or by its own
   * accepted resubmission, and stays REJECTED through every other call.
   */
  lemma ReturnedWard(g: Register, t: Table, c: Command, k: Key)
    requires g.Valid() && k in t && k.level == Ward && t[k].status == Rejected
    requires k.scope in g.wardLga
    ensures k in Exec(g, t, c)
    ensures Exec(g, t, c)[k].status == if Apply(g, t, c).Ok? && ClearsWard(g, c, k) then Approved else Rejected
  {
    if !Apply(g, t, c).Ok? {
    } else if ClearsWard(g, c, k) {
      match c
      case ApproveCall(user, at, note) =>
        PublishWardClears(g, t[at := ApprovedRow(t[at], user.sub, note)], k.contest, k.scope);
      case ResubmitWardCall(user, contest) => PublishWardClears(g, t, k.contest, k.scope);
    } else {
      StaysRejected(g, t, c, k);
    }
  }

  /** The polling units of the ward that have a row are approved. */
  ghost predicate AllUnitsApproved(g: Register, t: Table, ward: Key) {
    forall k: Key ::
      k.contest == ward.contest && k.level == PollingUnit && g.IsChild(Ward, ward.scope, k.scope) && k in t ==>
        t[k].status == Approved
  }

  /**
   * The resubmission of a returned ward is accepted whatever the state of its polling units: the ward
   * becomes APPROVED, and its units are all approved afterwards exactly if they were before.
   */
  lemma WardResubmissionChecksNoUnits(g: Register, t: Table, user: User, contest: Id)
    requires g.Valid() && user.Posting().Some? && user.Posting().value.level == Ward
    requires
      var at := Key(contest, Ward, user.Posting().value.scope);
      at in t && t[at].status == Rejected && at.scope in g.wardLga
    ensures
      var at := Key(contest, Ward, user.Posting().value.scope);
      var r := Resubmit(g, t, user, contest, Ward, WARD_REPUBLISHED);
      && r.Ok? && at in r.value && r.value[at].status == Approved && r.value[at].flaggedPus == []
      && (AllUnitsApproved(g, r.value, at) <==> AllUnitsApproved(g, t, at))
  {
    var at := Key(contest, Ward, user.Posting().value.scope);
    var u := Resubmit(g, t, user, contest, Ward, WARD_REPUBLISHED).value;
    PublishWardClears(g, t, contest, at.scope);
    PublishKeepsUnits(g, t, at, true, false);
    hide Resubmit;
    assert forall k: Key :: k.level == PollingUnit && k in t ==> Find(t, k) == Find(u, k);
    assert forall k: Key :: k.level == PollingUnit && k in u ==> Find(t, k) == Find(u, k);
  }

  /** The row's own officer types over the roll-up. */
  predicate Overtypes(c: Command, k: Key) {
    c.SaveCall? && c.contest == k.contest && c.user.Posting() == Some(Post(k.level, k.scope))
  }

  predicate Submits(c: Command, k: Key) {
    c.SubmitCall? && c.at == k
  }

  /**
   * A returned LGA becomes APPROVED by its own accepted resubmission; only its own officer's accepted
   * save or submission moves it elsewhere, and every other call leaves it REJECTED.
   */
  lemma ReturnedLga(g: Register, t: Table, c: Command, k: Key)
    requires g.Valid() && k in t && k.level == Lga && t[k].status == Rejected
    ensures k in Exec(g, t, c)
    ensures Exec(g, t, c)[k].status ==
      if !Apply(g, t, c).Ok? then Rejected
      else if ClearsLga(c, k) then Approved
      else if Overtypes(c, k) then Draft
      else if Submits(c, k) then Submitted
      else Rejected
  {
    if Apply(g, t, c).Ok? && !ClearsLga(c, k) && !Overtypes(c, k) && !Submits(c, k) {
      StaysRejected(g, t, c, k);
    }
  }

  /** A returned state stays REJECTED whatever is called below it; only its own officer can move it. */
  lemma ReturnedState(g: Register, t: Table, c: Command, k: Key)
    requires g.Valid() && k in t && k.level == State && t[k].status == Rejected
    ensures k in Exec(g, t, c)
    ensures Exec(g, t, c)[k].status ==
      if !Apply(g, t, c).Ok? then Rejected
      else if Overtypes(c, k) then Draft
      else if Submits(c, k) then Submitted
      else Rejected
  {
    if Apply(g, t, c).Ok? && !Overtypes(c, k) && !Submits(c, k) {
      StaysRejected(g, t, c, k);
    }
  }

  // ---------------------------------------------------------------- contests do not meet

  /** A call changes rows of its own contest only. */
  lemma ContestsDoNotMeet(g: Register, t: Table, c: Command, k: Key)
    requires g.Valid() && !Concerns(c, k.contest)
    ensures Find(Exec(g, t, c), k) == Find(t, k)
  {
    var related: RowRelation := (j: Key, was: Option<Row>, row: Row) => j.contest == k.contest ==> was == Some(row);
    CallRelated(g, t, c, related);
    assert k in Exec(g, t, c) ==> related(k, Find(t, k), Exec(g, t, c)[k]);
  }
}
