/**
 * What a publication writes, in every table: whatever was typed over a roll-up before, the rows it
 * writes show the sums of the rows below them that count, and a DRAFT above ward level never counts.
 */
module Publication {
  import opened Wrappers
  import opened Hierarchy
  import opened Sheets
  import opened Workflow
  import opened Runs
  import opened Effects
  import opened Invariants
  import opened BulkReturns
  import opened Conservation

  /** The row at `k`, in this status, is one of those that the row at `at` adds up. */
  predicate Contributes(g: Register, at: Key, k: Key, status: Status) {
    k.contest == at.contest &&
    match at.level
    case Ward => k.level == PollingUnit && k.scope in g.puWard && g.puWard[k.scope] == at.scope && status == Approved
    case Lga =>
      && k.level == Ward && k.scope in g.wardLga && g.wardLga[k.scope] == at.scope
      && status in {Submitted, Approved, Rejected}
    case State =>
      && k.level == Lga && k.scope in g.lgaState && g.lgaState[k.scope] == at.scope
      && status in {Submitted, Approved, Rejected}
    case PollingUnit | National => false
  }

  function Contributors(g: Register, t: Table, at: Key): set<Key> {
    set k | k in t && Contributes(g, at, k, t[k].status)
  }

  /** The row at `at` shows, figure by figure, what its contributors add up to; without any there is none. */
  ghost predicate Shows(g: Register, t: Table, at: Key) {
    && (at in t ==> ShowsTotals(t[at].sheet, Contributors(g, t, at), SheetsOf(t)))
    && (at !in t ==> Contributors(g, t, at) == {})
  }

  lemma ContributorsAreChildren(g: Register, t: Table, at: Key)
    requires RolledUp(at.level)
    ensures Contributors(g, t, at) == ChildKeys(g, t, at)
  {
  }

  lemma ConsistentShows(g: Register, t: Table, at: Key)
    requires RolledUp(at.level) && ConsistentAt(g, t, at)
    ensures Shows(g, t, at)
  {
    hide ShowsTotals, Contributors, Sum;
    ContributorsAreChildren(g, t, at);
    PublishedShowsTotals(ChildKeys(g, t, at), SheetsOf(t));
  }

  // ---------------------------------------------------------------- the rows a publication writes

  /** The ward, LGA and state above a changed row, from its own level on. */
  function Chain(g: Register, from: Key): set<Key>
    requires g.Valid()
  {
    match from.level
    case PollingUnit => if from.scope in g.puWard then WardChain(g, from.contest, g.puWard[from.scope]) else {}
    case Ward => if from.scope in g.wardLga then WardChain(g, from.contest, from.scope) else {}
    case Lga =>
      {from} + if from.scope in g.lgaState then {Key(from.contest, State, g.lgaState[from.scope])} else {}
    case State | National => {}
  }

  function WardChain(g: Register, contest: Id, ward: Id): set<Key>
    requires g.Valid() && ward in g.wardLga
  {
    var lga := g.wardLga[ward];
    {Key(contest, Ward, ward), Key(contest, Lga, lga), Key(contest, State, g.lgaState[lga])}
  }

  lemma RollupIsConsistent(g: Register, t: Table, at: Key, clear: bool, keep: bool)
    requires RolledUp(at.level)
    ensures ConsistentAt(g, Rollup(g, t, at, clear, keep), at)
  {
    var u := Rollup(g, t, at, clear, keep);
    NotBelowItself(g, at);
    assert forall k: Key :: k != at ==> Find(u, k) == Find(t, k);
    assert SameBelow(g, t, u, at);
    hide SameBelow, Candidate;
    SameBelowSameSum(g, t, u, at);
    hide ChildKeys, Sum;
  }

  lemma NotBelowItself(g: Register, at: Key)
    ensures !Candidate(g, at, at)
  {
  }

  lemma RollupKeepsAt(g: Register, t: Table, at: Key, clear: bool, keep: bool, k: Key)
    requires ConsistentAt(g, t, k) && k != at && !Candidate(g, k, at)
    ensures ConsistentAt(g, Rollup(g, t, at, clear, keep), k)
  {
    Frame(g, t, Rollup(g, t, at, clear, keep), k);
  }

  lemma WardPublishes(g: Register, t: Table, contest: Id, ward: Id, clear: bool, keep: bool, k: Key)
    requires g.Valid() && ward in g.wardLga && k in WardChain(g, contest, ward)
    ensures ConsistentAt(g, PublishWard(g, t, contest, ward, clear, keep), k)
  {
    hide Rollup, ConsistentAt;
    var lga := g.wardLga[ward];
    var w, l, s := Key(contest, Ward, ward), Key(contest, Lga, lga), Key(contest, State, g.lgaState[lga]);
    var t1 := Rollup(g, t, w, clear, keep);
    var t2 := Rollup(g, t1, l, false, false);
    RollupIsConsistent(g, t, w, clear, keep);
    RollupKeepsAt(g, t1, l, false, false, w);
    RollupKeepsAt(g, t2, s, false, false, w);
    RollupIsConsistent(g, t1, l, false, false);
    RollupKeepsAt(g, t2, s, false, false, l);
    RollupIsConsistent(g, t2, s, false, false);
  }

  lemma LgaPublishes(g: Register, t: Table, from: Key, clear: bool, keep: bool, k: Key)
    requires g.Valid() && from.level == Lga && k in Chain(g, from)
    ensures ConsistentAt(g, PublishLga(g, t, from.contest, from.scope, clear, keep), k)
  {
    hide Rollup, ConsistentAt;
    var t1 := Rollup(g, t, from, clear, keep);
    RollupIsConsistent(g, t, from, clear, keep);
    if from.scope in g.lgaState {
      var s := Key(from.contest, State, g.lgaState[from.scope]);
      RollupKeepsAt(g, t1, s, false, false, from);
      RollupIsConsistent(g, t1, s, false, false);
    }
  }

  lemma ChainIsConsistent(g: Register, t: Table, from: Key, clear: bool, keep: bool, k: Key)
    requires g.Valid() && k in Chain(g, from)
    ensures RolledUp(k.level) && ConsistentAt(g, PublishAncestry(g, t, from, clear, keep), k)
  {
    hide PublishWard, PublishLga, ConsistentAt;
    match from.level
    case PollingUnit => WardPublishes(g, t, from.contest, g.puWard[from.scope], clear, keep, k);
    case Ward => WardPublishes(g, t, from.contest, from.scope, clear, keep, k);
    case Lga => LgaPublishes(g, t, from, clear, keep, k);
  }

  lemma RollupElsewhere(g: Register, t: Table, at: Key, clear: bool, keep: bool, k: Key)
    requires k != at
    ensures Find(Rollup(g, t, at, clear, keep), k) == Find(t, k)
  {
  }

  /** No row outside the chain is touched. */
  lemma OutsideTheChain(g: Register, t: Table, from: Key, clear: bool, keep: bool, k: Key)
    requires g.Valid() && k !in Chain(g, from)
    ensures Find(PublishAncestry(g, t, from, clear, keep), k) == Find(t, k)
  {
    hide Rollup;
    forall u, at, c, p | at != k
      ensures Find(Rollup(g, u, at, c, p), k) == Find(u, k)
    {
      RollupElsewhere(g, u, at, c, p, k);
    }
  }

  /** Every row of the chain shows what is below it, whatever the table was before. */
  lemma PublicationShows(g: Register, t: Table, from: Key, clear: bool, keep: bool, k: Key)
    requires g.Valid() && k in Chain(g, from)
    ensures Shows(g, PublishAncestry(g, t, from, clear, keep), k)
  {
    hide PublishAncestry, ConsistentAt, Shows, Chain;
    ChainIsConsistent(g, t, from, clear, keep, k);
    ConsistentShows(g, PublishAncestry(g, t, from, clear, keep), k);
  }

  // ---------------------------------------------------------------- call by call

  predicate Publishes(c: Command) {
    c.ApproveCall? || c.ReturnCall? || c.ResubmitWardCall? || c.ResubmitLgaCall?
  }

  /** The row a call publishes from. */
  function PublishedFrom(c: Command): Key
    requires Publishes(c)
  {
    match c
    case ApproveCall(_, at, _) => at
    case ReturnCall(_, at, _) => at
    case ResubmitWardCall(user, contest) => Key(contest, Ward, user.scope.Or(""))
    case ResubmitLgaCall(user, contest) => Key(contest, Lga, user.scope.Or(""))
  }

  /** The table just before the call publishes, and what it writes afterwards. */
  lemma CallPublishes(g: Register, t: Table, c: Command) returns (before: Table, clear: bool, keep: bool)
    requires g.Valid() && Publishes(c) && Apply(g, t, c).Ok?
    ensures before.Keys == t.Keys && forall k :: k in t ==> before[k].sheet == t[k].sheet
    ensures
      var u, from := PublishAncestry(g, before, PublishedFrom(c), clear, keep), PublishedFrom(c);
      || Exec(g, t, c) == u
      || (from in u && exists row: Row ::
            row.sheet == u[from].sheet && row.status == u[from].status && Exec(g, t, c) == u[from := row])
  {
    hide PublishAncestry, Workflow.MarkReturned;
    match c
    case ApproveCall(user, at, note) =>
      before, clear, keep := t[at := ApprovedRow(t[at], user.sub, note)], true, false;
    case ReturnCall(user, at, request) =>
      var pus := FlagsFor(g, at, AsksForPus(user, at), request.affectedPus).value;
      var wards := FlagsFor(g, at, AsksForWards(user, at), request.affectedWards).value;
      before, clear, keep :=
        Workflow.MarkReturned(t, at, user.sub, request.reason, pus, wards), false, at.level != PollingUnit;
      MarkingReturns(t, at, user.sub, request.reason, pus, wards);
    case ResubmitWardCall(user, contest) =>
      before, clear, keep := t, true, false;
      Resubmitted(g, t, user, contest, Ward, WARD_REPUBLISHED);
    case ResubmitLgaCall(user, contest) =>
      before, clear, keep := t, true, false;
      Resubmitted(g, t, user, contest, Lga, LGA_REPUBLISHED);
  }

  lemma Resubmitted(g: Register, t: Table, user: User, contest: Id, level: Level, comment: string)
    requires g.Valid() && Resubmit(g, t, user, contest, level, comment).Ok?
    ensures
      var from := Key(contest, level, user.scope.Or(""));
      var u := PublishAncestry(g, t, from, true, false);
      || Resubmit(g, t, user, contest, level, comment).value == u
      || (from in u && exists row: Row ::
            && row.sheet == u[from].sheet && row.status == u[from].status
            && Resubmit(g, t, user, contest, level, comment).value == u[from := row])
  {
    hide PublishAncestry;
    var from := Key(contest, level, user.scope.Or(""));
    var u := PublishAncestry(g, t, from, true, false);
    if from in u {
      var row := RepublishedRow(u[from], user.sub, comment);
      assert Resubmit(g, t, user, contest, level, comment).value == u[from := row];
    }
  }

  lemma RelabelledIsConsistent(g: Register, u: Table, from: Key, row: Row, k: Key)
    requires from in u && row.sheet == u[from].sheet && row.status == u[from].status && ConsistentAt(g, u, k)
    ensures ConsistentAt(g, u[from := row], k)
  {
    Frame(g, u, u[from := row], k);
  }

  /** Each ward, LGA and state above the row of an accepted call shows afterwards what is below it. */
  lemma CallShows(g: Register, t: Table, c: Command, k: Key)
    requires g.Valid() && Publishes(c) && Apply(g, t, c).Ok? && k in Chain(g, PublishedFrom(c))
    ensures RolledUp(k.level) && ConsistentAt(g, Exec(g, t, c), k) && Shows(g, Exec(g, t, c), k)
  {
    hide PublishAncestry, ConsistentAt, Shows, Chain, Exec, Apply;
    var before, clear, keep := CallPublishes(g, t, c);
    var from := PublishedFrom(c);
    var u := PublishAncestry(g, before, from, clear, keep);
    ChainIsConsistent(g, before, from, clear, keep, k);
    if Exec(g, t, c) != u {
      var row: Row :| row.sheet == u[from].sheet && row.status == u[from].status && Exec(g, t, c) == u[from := row];
      RelabelledIsConsistent(g, u, from, row, k);
    }
    ConsistentShows(g, Exec(g, t, c), k);
  }

  /** The row at `k` is new, or shows other figures than before. */
  predicate Written(t: Table, u: Table, k: Key) {
    k in u && (k !in t || u[k].sheet != t[k].sheet)
  }

  lemma OnlyTheChainIsWritten(g: Register, t: Table, c: Command, k: Key)
    requires g.Valid() && Publishes(c) && Apply(g, t, c).Ok? && Written(t, Exec(g, t, c), k)
    ensures k in Chain(g, PublishedFrom(c))
  {
    hide PublishAncestry, Chain, Exec, Apply;
    var before, clear, keep := CallPublishes(g, t, c);
    if k !in Chain(g, PublishedFrom(c)) {
      OutsideTheChain(g, before, PublishedFrom(c), clear, keep, k);
    }
  }

  lemma EditsWriteNoRollup(g: Register, t: Table, c: Command, k: Key)
    requires g.Valid() && (c.AttachCall? || c.SubmitCall? || c.CommentCall?)
    ensures !Written(t, Exec(g, t, c), k)
  {
  }

  lemma OneBulkReturnShows(g: Register, t: Table, at: Key, row: Row, actor: Id, reason: string, k: Key)
    requires g.Valid() && at.level == Ward && RolledUp(k.level)
    ensures
      var u := BulkReturnIn(g, t, at, row, actor, reason);
      && (!Written(t, u, k) || ConsistentAt(g, u, k))
      && (k.contest != at.contest ==> forall j: Key :: j.contest == k.contest ==> Find(u, j) == Find(t, j))
  {
    hide PublishAncestry, ConsistentAt, Chain;
    var ks := OpenKeys(t, at.contest, PollingUnit, row.flaggedPus);
    if ks != {} {
      var before := ReturnRows(t, ks, actor, BulkReason(reason, row));
      if k in Chain(g, at) {
        ChainIsConsistent(g, before, at, false, false, k);
      } else {
        OutsideTheChain(g, before, at, false, false, k);
      }
      PublishOnlyRolls(g, before, at, false, false);
    }
  }

  lemma SameContestIsConsistent(g: Register, t: Table, u: Table, k: Key)
    requires ConsistentAt(g, t, k) && forall j: Key :: j.contest == k.contest ==> Find(u, j) == Find(t, j)
    ensures ConsistentAt(g, u, k)
  {
    Frame(g, t, u, k);
  }

  lemma {:induction false} BulkReturnShows(
      g: Register, t: Table, contests: seq<Id>, ward: Id, user: User, reason: string, k: Key)
    requires g.Valid() && NoRepeats(contests) && RolledUp(k.level)
    requires forall c :: c in contests ==> Key(c, Ward, ward) in t
    ensures
      var u := BulkReturnAll(g, t, t, contests, ward, user.sub, reason);
      !Written(t, u, k) || ConsistentAt(g, u, k)
    decreases |contests|
  {
    if contests == [] {
    } else {
      hide ConsistentAt, BulkReturnIn;
      var n := |contests| - 1;
      var before := BulkReturnAll(g, t, t, contests[..n], ward, user.sub, reason);
      var at := Key(contests[n], Ward, ward);
      BulkReturnShows(g, t, contests[..n], ward, user, reason, k);
      OneBulkReturnShows(g, before, at, t[at], user.sub, reason, k);
      if k.contest == contests[n] {
        assert contests[n] !in contests[..n];
        OtherContestsUntouched(g, t, contests[..n], ward, user, reason, contests[n]);
        assert Find(before, k) == Find(t, k);
      } else {
        var u := BulkReturnIn(g, before, at, t[at], user.sub, reason);
        assert Find(u, k) == Find(before, k);
        if ConsistentAt(g, before, k) {
          SameContestIsConsistent(g, before, u, k);
        }
      }
    }
  }

  /**
   * In every table: a ward, LGA or state row whose figures a call writes, unless its officer types
   * them, shows afterwards what the rows below it that count add up to.
   */
  lemma WrittenRowsShow(g: Register, t: Table, c: Command, k: Key)
    requires g.Valid() && !c.SaveCall? && RolledUp(k.level) && Written(t, Exec(g, t, c), k)
    ensures Shows(g, Exec(g, t, c), k)
  {
    hide Shows, ConsistentAt;
    if Publishes(c) {
      OnlyTheChainIsWritten(g, t, c, k);
      CallShows(g, t, c, k);
    } else if c.BulkReturnCall? {
      var ward := c.user.Posting().value.scope;
      FlaggedContestsAreReturned(t, c.contests, ward);
      BulkReturnShows(g, t, FlaggedContests(t, c.contests, ward), ward, c.user, c.reason, k);
      ConsistentShows(g, Exec(g, t, c), k);
    } else {
      EditsWriteNoRollup(g, t, c, k);
    }
  }
}
