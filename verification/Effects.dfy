/**
 * What a service call can do to a single row.  Every call is a chain of the row operations listed
 * in RowOp, so a relation that is reflexive, transitive and holds of each operation holds between
 * a row before and after any call.
 */
module Effects {
  import opened Wrappers
  import opened Hierarchy
  import opened Sheets
  import opened Workflow
  import opened Runs

  predicate RolledUp(level: Level) {
    level == Ward || level == Lga || level == State
  }

  /** `row` is what some roll-up writes over `was`. */
  predicate Rolled(was: Option<Row>, row: Row, clear: bool, keep: bool) {
    row == RollupRow(was, Tally(row.sheet), clear, keep)
  }

  lemma RollupRowIsRolled(was: Option<Row>, totals: Totals, clear: bool, keep: bool)
    ensures Rolled(was, RollupRow(was, totals, clear, keep), clear, keep)
  {
    TallyOfPublished(totals);
  }

  /** The first row a publication rolls up. */
  function First(g: Register, from: Key): Key {
    if from.level == PollingUnit && from.scope in g.puWard
    then Key(from.contest, Ward, g.puWard[from.scope])
    else from
  }

  ghost predicate SameRow(t: Table, u: Table, k: Key) {
    k in t && k in u && u[k] == t[k]
  }

  /** A roll-up of the row at `k`; the wards that roll-ups stand for are registered. */
  predicate IsRoll(g: Register, k: Key, was: Option<Row>, row: Row, clear: bool, keep: bool) {
    RolledUp(k.level) && (k.level == Ward ==> k.scope in g.wardLga) && Rolled(was, row, clear, keep)
  }

  /** A publication keeps every row, and rewrites only rolled-up rows of its contest, as roll-ups do. */
  ghost predicate OnlyRolls(g: Register, t: Table, u: Table, contest: Id, first: Key, clear: bool, keep: bool) {
    && t.Keys <= u.Keys
    && forall k :: k in u ==>
         || SameRow(t, u, k)
         || (k.contest == contest && IsRoll(g, k, Find(t, k), u[k], clear && k == first, keep && k == first))
  }

  /** `u` is `t` with at most the row at `at` rolled up. */
  ghost predicate RollsAt(t: Table, u: Table, at: Key, clear: bool, keep: bool) {
    u == t || (at in u && u == t[at := u[at]] && Rolled(Find(t, at), u[at], clear, keep))
  }

  lemma RollupRollsAt(g: Register, t: Table, at: Key, clear: bool, keep: bool)
    ensures RollsAt(t, Rollup(g, t, at, clear, keep), at, clear, keep)
  {
    var totals := Sum(ChildKeys(g, t, at), SheetsOf(t));
    RollupRowIsRolled(Find(t, at), totals, clear, keep);
  }

  lemma OneRoll(g: Register, t: Table, u: Table, at: Key, clear: bool, keep: bool)
    requires RolledUp(at.level) && (at.level == Ward ==> at.scope in g.wardLga) && RollsAt(t, u, at, clear, keep)
    ensures OnlyRolls(g, t, u, at.contest, at, clear, keep)
  {
  }

  lemma OneMoreRoll(g: Register, t: Table, u: Table, v: Table, contest: Id, first: Key, clear: bool, keep: bool,
      at: Key)
    requires OnlyRolls(g, t, u, contest, first, clear, keep) && RollsAt(u, v, at, false, false)
    requires at.level in {Lga, State} && at.contest == contest && at != first && Find(u, at) == Find(t, at)
    ensures OnlyRolls(g, t, v, contest, first, clear, keep)
  {
  }

  lemma PublishWardOnlyRolls(g: Register, t: Table, contest: Id, ward: Id, clear: bool, keep: bool)
    requires g.Valid() && ward in g.wardLga
    ensures
      OnlyRolls(g, t, PublishWard(g, t, contest, ward, clear, keep), contest, Key(contest, Ward, ward), clear, keep)
  {
    hide OnlyRolls, RollsAt;
    var lga := g.wardLga[ward];
    var w, l, s := Key(contest, Ward, ward), Key(contest, Lga, lga), Key(contest, State, g.lgaState[lga]);
    var t1 := Rollup(g, t, w, clear, keep);
    var t2 := Rollup(g, t1, l, false, false);
    RollupRollsAt(g, t, w, clear, keep);
    RollupRollsAt(g, t1, l, false, false);
    RollupRollsAt(g, t2, s, false, false);
    OneRoll(g, t, t1, w, clear, keep);
    OneMoreRoll(g, t, t1, t2, contest, w, clear, keep, l);
    OneMoreRoll(g, t, t2, Rollup(g, t2, s, false, false), contest, w, clear, keep, s);
  }

  lemma PublishLgaOnlyRolls(g: Register, t: Table, contest: Id, lga: Id, clear: bool, keep: bool)
    ensures OnlyRolls(g, t, PublishLga(g, t, contest, lga, clear, keep), contest, Key(contest, Lga, lga), clear, keep)
  {
    var l := Key(contest, Lga, lga);
    var t1 := Rollup(g, t, l, clear, keep);
    RollupRollsAt(g, t, l, clear, keep);
    OneRoll(g, t, t1, l, clear, keep);
    if lga in g.lgaState {
      var s := Key(contest, State, g.lgaState[lga]);
      RollupRollsAt(g, t1, s, false, false);
      OneMoreRoll(g, t, t1, Rollup(g, t1, s, false, false), contest, l, clear, keep, s);
    }
  }

  lemma PublishOnlyRolls(g: Register, t: Table, from: Key, clear: bool, keep: bool)
    requires g.Valid()
    ensures OnlyRolls(g, t, PublishAncestry(g, t, from, clear, keep), from.contest, First(g, from), clear, keep)
  {
    hide PublishWard, PublishLga;
    match from.level {
      case PollingUnit =>
        if from.scope in g.puWard {
          PublishWardOnlyRolls(g, t, from.contest, g.puWard[from.scope], clear, keep);
        }
      case Ward =>
        if from.scope in g.wardLga {
          PublishWardOnlyRolls(g, t, from.contest, from.scope, clear, keep);
        }
      case Lga => PublishLgaOnlyRolls(g, t, from.contest, from.scope, clear, keep);
      case State =>
      case National =>
    }
  }

  /** Publication leaves the polling-unit rows as they are. */
  lemma PublishKeepsUnits(g: Register, t: Table, from: Key, clear: bool, keep: bool)
    requires g.Valid()
    ensures var u := PublishAncestry(g, t, from, clear, keep);
      forall k: Key :: k.level == PollingUnit ==> Find(u, k) == Find(t, k)
  {
    PublishOnlyRolls(g, t, from, clear, keep);
  }

  // ---------------------------------------------------------------- row operations of each call

  ghost predicate SaveOp(user: User, contest: Id, dto: Entry, k: Key, was: Option<Row>, row: Row) {
    && user.Posting().Some? && user.Posting().value.level != Ward
    && k == Key(contest, user.Posting().value.level, user.Posting().value.scope)
    && (was.Some? ==> Editable(was.value.status))
    && row == SavedRow(was, dto)
  }

  ghost predicate SubmitOp(user: User, at: Key, k: Key, was: Option<Row>, row: Row) {
    && user.Posting() == Some(Post(at.level, at.scope)) && at.level != Ward
    && k == at && was.Some? && Editable(was.value.status)
    && (k.level == PollingUnit ==> was.value.photos != [])
    && row == SubmittedRow(was.value, user.sub)
  }

  ghost predicate ApproveOp(g: Register, user: User, at: Key, note: Option<string>, k: Key, was: Option<Row>,
      row: Row) {
    at.level == PollingUnit &&
    (|| (k == at && was.Some? && was.value.status == Submitted && row == ApprovedRow(was.value, user.sub, note))
     || IsRoll(g, k, was, row, k == First(g, at), false))
  }

  ghost predicate FlagsLieIn(g: Register, k: Key, pus: seq<Id>, wards: seq<Id>) {
    && (pus != [] ==> k.level == Ward && forall id :: id in pus ==> g.IsChild(Ward, k.scope, id))
    && (wards != [] ==> k.level == Lga && forall id :: id in wards ==> g.IsChild(Lga, k.scope, id))
  }

  ghost predicate ReturnOp(g: Register, user: User, at: Key, request: ReturnRequest, k: Key, was: Option<Row>,
      row: Row) {
    || (k == at && was.Some? && Returnable(was.value.status)
        && exists pus, wards :: FlagsLieIn(g, k, pus, wards)
             && row == WithFlags(ReturnedRow(was.value, user.sub, request.reason), pus, wards))
    || (k.contest == at.contest && g.IsChild(at.level, at.scope, k.scope) && Some(k.level) == Subordinate(at.level)
        && was.Some? && Returnable(was.value.status)
        && row == ReturnedRow(was.value, user.sub, request.reason))
    || IsRoll(g, k, was, row, false, k == at && was.Some? && was.value.status == Rejected)
  }

  ghost predicate ResubmitOp(g: Register, user: User, contest: Id, level: Level, comment: string, k: Key,
      was: Option<Row>, row: Row) {
    user.Posting().Some? && user.Posting().value.level == level &&
    var at := Key(contest, level, user.Posting().value.scope);
    || IsRoll(g, k, was, row, k == at, false)
    || (k == at && was.Some? && row == RepublishedRow(was.value, user.sub, comment))
  }

  ghost predicate BulkReturnOp(g: Register, user: User, k: Key, was: Option<Row>, row: Row) {
    || (k.level == PollingUnit && was.Some? && Returnable(was.value.status)
        && exists reason :: row == ReturnedRow(was.value, user.sub, reason))
    || IsRoll(g, k, was, row, false, false)
  }

  ghost predicate RowOp(g: Register, c: Command, k: Key, was: Option<Row>, row: Row) {
    Concerns(c, k.contest) &&
    match c
    case SaveCall(user, contest, dto) => SaveOp(user, contest, dto, k, was, row)
    case AttachCall(user, at, url) =>
      k == at && was.Some? && Editable(was.value.status) && row == was.value.(photos := was.value.photos + [url])
    case SubmitCall(user, at) => SubmitOp(user, at, k, was, row)
    case ApproveCall(user, at, note) => ApproveOp(g, user, at, note, k, was, row)
    case ReturnCall(user, at, request) => ReturnOp(g, user, at, request, k, was, row)
    case ResubmitWardCall(user, contest) => ResubmitOp(g, user, contest, Ward, WARD_REPUBLISHED, k, was, row)
    case ResubmitLgaCall(user, contest) => ResubmitOp(g, user, contest, Lga, LGA_REPUBLISHED, k, was, row)
    case BulkReturnCall(user, contests, reason) => BulkReturnOp(g, user, k, was, row)
    case CommentCall(user, at, text) =>
      k == at && was.Some? && row == CommentedRow(was.value, user.sub, Trim(text))
  }

  type RowRelation = (Key, Option<Row>, Row) -> bool

  ghost predicate Chains(related: RowRelation) {
    && (forall k: Key, row: Row :: related(k, Some(row), row))
    && (forall k: Key, was: Option<Row>, mid: Row, row: Row ::
          related(k, was, mid) && related(k, Some(mid), row) ==> related(k, was, row))
  }

  ghost predicate AllRelated(t: Table, u: Table, related: RowRelation) {
    t.Keys <= u.Keys && forall k :: k in u ==> related(k, Find(t, k), u[k])
  }

  lemma ChainTables(t: Table, u: Table, v: Table, related: RowRelation)
    requires Chains(related) && AllRelated(t, u, related) && AllRelated(u, v, related)
    ensures AllRelated(t, v, related)
  {
  }

  /** A row is rolled up by a publication from `from`. */
  ghost predicate RollsFrom(g: Register, from: Key, clear: bool, keep: bool, k: Key, was: Option<Row>, row: Row) {
    var kept := keep && k == from && was.Some? && was.value.status == Rejected;
    IsRoll(g, k, was, row, clear && k == First(g, from), kept)
  }

  lemma PublishRelated(g: Register, t: Table, from: Key, clear: bool, keep: bool, related: RowRelation)
    requires g.Valid() && Chains(related)
    requires keep ==> from.level != PollingUnit && from in t && t[from].status == Rejected
    requires forall k: Key, was: Option<Row>, row: Row ::
      k.contest == from.contest && RollsFrom(g, from, clear, keep, k, was, row) ==> related(k, was, row)
    ensures AllRelated(t, PublishAncestry(g, t, from, clear, keep), related)
  {
    PublishOnlyRolls(g, t, from, clear, keep);
  }

  lemma ReturnRelated(g: Register, t: Table, user: User, at: Key, request: ReturnRequest, related: RowRelation)
    requires g.Valid() && Chains(related) && Return(g, t, user, at, request).Ok?
    requires forall k: Key, was: Option<Row>, row: Row ::
      k.contest == at.contest && ReturnOp(g, user, at, request, k, was, row) ==> related(k, was, row)
    ensures AllRelated(t, Return(g, t, user, at, request).value, related)
  {
    hide PublishAncestry, AllRelated, Chains;
    var pus := FlagsFor(g, at, AsksForPus(user, at), request.affectedPus).value;
    var wards := FlagsFor(g, at, AsksForWards(user, at), request.affectedWards).value;
    var u := MarkReturned(t, at, user.sub, request.reason, pus, wards);
    MarkRelated(g, t, user, at, request, pus, wards, related);
    PublishRelated(g, u, at, false, at.level != PollingUnit, related);
    ChainTables(t, u, PublishAncestry(g, u, at, false, at.level != PollingUnit), related);
  }

  lemma MarkRelated(g: Register, t: Table, user: User, at: Key, request: ReturnRequest,
                    pus: seq<Id>, wards: seq<Id>, related: RowRelation)
    requires Chains(related) && at in t && Returnable(t[at].status) && FlagsLieIn(g, at, pus, wards)
    requires forall k: Key, was: Option<Row>, row: Row ::
      k.contest == at.contest && ReturnOp(g, user, at, request, k, was, row) ==> related(k, was, row)
    ensures AllRelated(t, MarkReturned(t, at, user.sub, request.reason, pus, wards), related)
  {
    var u := MarkReturned(t, at, user.sub, request.reason, pus, wards);
    forall k | k in u
      ensures related(k, Find(t, k), u[k])
    {
      if k == at {
        assert u[k] == WithFlags(ReturnedRow(t[at], user.sub, request.reason), pus, wards);
      } else if u[k] != t[k] {
        assert ReturnOp(g, user, at, request, k, Some(t[k]), u[k]);
      }
    }
  }

  lemma {:induction false} BulkRelated(g: Register, t: Table, start: Table, contests: seq<Id>, ward: Id,
                                       user: User, all: seq<Id>, reason: string, related: RowRelation)
    requires g.Valid() && Chains(related)
    requires forall c :: c in contests ==> Key(c, Ward, ward) in start && c in all
    requires forall k: Key, was: Option<Row>, row: Row ::
      k.contest in all && BulkReturnOp(g, user, k, was, row) ==> related(k, was, row)
    ensures AllRelated(t, BulkReturnAll(g, t, start, contests, ward, user.sub, reason), related)
    decreases |contests|
  {
    if contests == [] {
    } else {
      var n := |contests| - 1;
      var before := BulkReturnAll(g, t, start, contests[..n], ward, user.sub, reason);
      BulkRelated(g, t, start, contests[..n], ward, user, all, reason, related);
      var at := Key(contests[n], Ward, ward);
      BulkInRelated(g, before, at, start[at], user, all, reason, related);
      ChainTables(t, before, BulkReturnIn(g, before, at, start[at], user.sub, reason), related);
    }
  }

  lemma BulkInRelated(g: Register, t: Table, at: Key, row: Row, user: User, all: seq<Id>, reason: string,
                      related: RowRelation)
    requires g.Valid() && Chains(related) && at.level == Ward && at.contest in all
    requires forall k: Key, was: Option<Row>, row: Row ::
      k.contest in all && BulkReturnOp(g, user, k, was, row) ==> related(k, was, row)
    ensures AllRelated(t, BulkReturnIn(g, t, at, row, user.sub, reason), related)
  {
    var ks := OpenKeys(t, at.contest, PollingUnit, row.flaggedPus);
    if ks != {} {
      var u := ReturnRows(t, ks, user.sub, BulkReason(reason, row));
      assert AllRelated(t, u, related);
      PublishRelated(g, u, at, false, false, related);
      ChainTables(t, u, PublishAncestry(g, u, at, false, false), related);
    }
  }

  lemma ApproveRelated(g: Register, t: Table, user: User, at: Key, note: Option<string>, related: RowRelation)
    requires g.Valid() && Chains(related) && Approve(g, t, user, at, note).Ok?
    requires forall k: Key, was: Option<Row>, row: Row ::
      k.contest == at.contest && ApproveOp(g, user, at, note, k, was, row) ==> related(k, was, row)
    ensures AllRelated(t, Approve(g, t, user, at, note).value, related)
  {
    hide PublishAncestry;
    var u := t[at := ApprovedRow(t[at], user.sub, note)];
    assert AllRelated(t, u, related);
    PublishRelated(g, u, at, true, false, related);
    ChainTables(t, u, PublishAncestry(g, u, at, true, false), related);
  }

  lemma ResubmitRelated(g: Register, t: Table, user: User, contest: Id, level: Level, comment: string,
      related: RowRelation)
    requires g.Valid() && Chains(related) && Resubmit(g, t, user, contest, level, comment).Ok? && level != PollingUnit
    requires forall k: Key, was: Option<Row>, row: Row ::
      k.contest == contest && ResubmitOp(g, user, contest, level, comment, k, was, row) ==> related(k, was, row)
    ensures AllRelated(t, Resubmit(g, t, user, contest, level, comment).value, related)
  {
    hide PublishAncestry, AllRelated, Chains;
    var at := Key(contest, level, user.Posting().value.scope);
    var u := PublishAncestry(g, t, at, true, false);
    PublishRelated(g, t, at, true, false, related);
    if at in u {
      var v := u[at := RepublishedRow(u[at], user.sub, comment)];
      OneRowRelated(u, at, v[at], related);
      ChainTables(t, u, v, related);
    }
  }

  /** Rewriting one row by a related one. */
  lemma OneRowRelated(t: Table, at: Key, row: Row, related: RowRelation)
    requires Chains(related) && at in t && related(at, Some(t[at]), row)
    ensures AllRelated(t, t[at := row], related)
  {
  }

  /** The principle: what every row operation of a call keeps, the call keeps. */
  lemma CallRelated(g: Register, t: Table, c: Command, related: RowRelation)
    requires g.Valid() && Chains(related)
    requires forall k: Key, was: Option<Row>, row: Row :: RowOp(g, c, k, was, row) ==> related(k, was, row)
    ensures AllRelated(t, Exec(g, t, c), related)
  {
    if Apply(g, t, c).Ok? {
      match c
      case SaveCall(user, contest, dto) =>
      case AttachCall(user, at, url) =>
      case SubmitCall(user, at) =>
      case ApproveCall(user, at, note) => ApproveRelated(g, t, user, at, note, related);
      case ReturnCall(user, at, request) => ReturnRelated(g, t, user, at, request, related);
      case ResubmitWardCall(user, contest) => ResubmitRelated(g, t, user, contest, Ward, WARD_REPUBLISHED, related);
      case ResubmitLgaCall(user, contest) => ResubmitRelated(g, t, user, contest, Lga, LGA_REPUBLISHED, related);
      case BulkReturnCall(user, contests, reason) =>
        var ward := user.Posting().value.scope;
        FlaggedContestsAreReturned(t, contests, ward);
        BulkRelated(g, t, t, FlaggedContests(t, contests, ward), ward, user, contests, reason, related);
      case CommentCall(user, at, text) =>
    }
  }
}
