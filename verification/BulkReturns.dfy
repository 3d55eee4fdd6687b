/**
 * Returning a ward's flagged polling units one by one, each with its own republication, comes to
 * returning them all and republishing once: no inner call fails and the order does not matter.
 */
module BulkReturns {
  import opened Wrappers
  import opened Hierarchy
  import opened Sheets
  import opened Workflow
  import opened Effects
  import opened Invariants
  import opened Conservation
  import opened Runs

  lemma RollTwice(was: Option<Row>, first: Totals, second: Totals)
    ensures RollupRow(Some(RollupRow(was, first, false, false)), second, false, false)
         == RollupRow(was, second, false, false)
  {
  }

  lemma RollStatus(was: Option<Row>, totals: Totals)
    ensures RollupRow(was, totals, false, false).status ==
      if was.Some? && was.value.status == Rejected then Rejected else Approved
  {
  }

  /** `y` differs from `x` at most at `at`, where it may hold a roll-up of what `x` holds. */
  ghost predicate RolledOver(x: Table, y: Table, at: Key) {
    Find(y, at) == Find(x, at) || (at in y && Rolled(Find(x, at), y[at], false, false))
  }

  ghost predicate SameBut(x: Table, y: Table, ks: set<Key>) {
    forall k :: k !in ks ==> Find(x, k) == Find(y, k)
  }

  function RollOver(was: Option<Row>, totals: Totals): Row {
    RollupRow(was, totals, false, false)
  }

  lemma SameRollupRow(x: Table, y: Table, at: Key, totals: Totals)
    requires RolledOver(x, y, at)
    ensures RollOver(Find(y, at), totals) == RollOver(Find(x, at), totals)
  {
    if Find(y, at) != Find(x, at) {
      RollTwice(Find(x, at), Tally(y[at].sheet), totals);
    }
  }

  lemma RollupWrites(g: Register, x: Table, at: Key, totals: Totals)
    requires at in x || ChildKeys(g, x, at) != {}
    requires totals == Sum(ChildKeys(g, x, at), SheetsOf(x))
    ensures Rollup(g, x, at, false, false) == x[at := RollOver(Find(x, at), totals)]
  {
  }

  /** The same row is written over both tables; it is no draft, and REJECTED if it was. */
  lemma SameRollup(g: Register, x: Table, y: Table, at: Key) returns (row: Row)
    requires SameBelow(g, x, y, at) && RolledOver(x, y, at)
    requires at in x || ChildKeys(g, x, at) != {}
    ensures Rollup(g, x, at, false, false) == x[at := row] && Rollup(g, y, at, false, false) == y[at := row]
    ensures row.status != Draft && (at in x && x[at].status == Rejected ==> row.status == Rejected)
  {
    SameBelowSameSum(g, x, y, at);
    var totals := Sum(ChildKeys(g, x, at), SheetsOf(x));
    RollupWrites(g, x, at, totals);
    RollupWrites(g, y, at, totals);
    SameRollupRow(x, y, at, totals);
    RollStatus(Find(x, at), totals);
    row := RollOver(Find(x, at), totals);
  }

  lemma BelowIsSame(g: Register, x: Table, y: Table, at: Key, above: set<Key>)
    requires SameBut(x, y, {at} + above) && forall k :: k in above ==> !Candidate(g, at, k)
    ensures SameBelow(g, x, y, at)
  {
    forall k: Key | Candidate(g, at, k)
      ensures Counted(x, at, k) <==> Counted(y, at, k)
      ensures Counted(x, at, k) ==> x[k].sheet == y[k].sheet
    {
      assert Find(x, k) == Find(y, k);
    }
  }

  /** A ward that stays REJECTED, and the two rows above it. */
  ghost predicate ReturnedWardAt(g: Register, t: Table, at: Key) {
    at.level == Ward && at.scope in g.wardLga && at in t && t[at].status == Rejected
  }

  function LgaKey(g: Register, at: Key): Key
    requires at.scope in g.wardLga
  {
    Key(at.contest, Lga, g.wardLga[at.scope])
  }

  function StateKey(g: Register, at: Key): Key
    requires g.Valid() && at.scope in g.wardLga
  {
    Key(at.contest, State, g.lgaState[g.wardLga[at.scope]])
  }

  ghost function Republish(g: Register, t: Table, at: Key): Table
    requires g.Valid() && at.scope in g.wardLga
  {
    PublishWard(g, t, at.contest, at.scope, false, false)
  }

  /** Republishing overwrites whatever an earlier republication left. */
  lemma RepublishAbsorbs(g: Register, x: Table, y: Table, at: Key)
    requires g.Valid() && ReturnedWardAt(g, x, at)
    requires SameBut(x, y, {at, LgaKey(g, at), StateKey(g, at)})
    requires RolledOver(x, y, at) && RolledOver(x, y, LgaKey(g, at)) && RolledOver(x, y, StateKey(g, at))
    ensures Republish(g, y, at) == Republish(g, x, at)
  {
    var l, s := LgaKey(g, at), StateKey(g, at);
    BelowIsSame(g, x, y, at, {l, s});
    var ward := SameRollup(g, x, y, at);
    OtherRows(x, y, at, ward, {l, s});
    RepublishAbsorbsAbove(g, x[at := ward], y[at := ward], at);
  }

  lemma OtherRows(x: Table, y: Table, at: Key, row: Row, above: set<Key>)
    requires SameBut(x, y, {at} + above) && at !in above
    ensures SameBut(x[at := row], y[at := row], above)
    ensures forall k: Key :: k in above && RolledOver(x, y, k) ==> RolledOver(x[at := row], y[at := row], k)
    ensures above == {} ==> x[at := row] == y[at := row]
  {
    forall k | k !in above
      ensures Find(x[at := row], k) == Find(y[at := row], k)
    {
      assert k != at ==> Find(x, k) == Find(y, k);
    }
    forall k | k in above
      ensures Find(x[at := row], k) == Find(x, k) && Find(y[at := row], k) == Find(y, k)
    {
    }
    if above == {} {
      assert SameBut(x[at := row], y[at := row], above);
      SameTable(x[at := row], y[at := row]);
    }
  }

  lemma RepublishAbsorbsAbove(g: Register, x: Table, y: Table, at: Key)
    requires g.Valid() && ReturnedWardAt(g, x, at)
    requires SameBut(x, y, {LgaKey(g, at), StateKey(g, at)})
    requires RolledOver(x, y, LgaKey(g, at)) && RolledOver(x, y, StateKey(g, at))
    ensures Rollup(g, Rollup(g, x, LgaKey(g, at), false, false), StateKey(g, at), false, false)
         == Rollup(g, Rollup(g, y, LgaKey(g, at), false, false), StateKey(g, at), false, false)
  {
    hide Rollup, SameBelow;
    var l, s := LgaKey(g, at), StateKey(g, at);
    assert at in ChildKeys(g, x, l);
    BelowIsSame(g, x, y, l, {s});
    var lga := SameRollup(g, x, y, l);
    OtherRows(x, y, l, lga, {s});
    RepublishAbsorbsState(g, x[l := lga], y[l := lga], l, s);
  }

  lemma RepublishAbsorbsState(g: Register, x: Table, y: Table, l: Key, s: Key)
    requires l in x && x[l].status != Draft && s.level == State && Candidate(g, s, l)
    requires SameBut(x, y, {s}) && RolledOver(x, y, s)
    ensures Rollup(g, x, s, false, false) == Rollup(g, y, s, false, false)
  {
    assert l in ChildKeys(g, x, s);
    BelowIsSame(g, x, y, s, {});
    var row := SameRollup(g, x, y, s);
    OtherRows(x, y, s, row, {});
  }

  lemma SameTable(x: Table, y: Table)
    requires SameBut(x, y, {})
    ensures x == y
  {
    forall k
      ensures k in x <==> k in y
    {
      assert Find(x, k) == Find(y, k);
    }
    forall k | k in x
      ensures x[k] == y[k]
    {
      assert Find(x, k) == Find(y, k);
    }
  }

  // ---------------------------------------------------------------- one unit after the other

  /** What the ward officer sends for each flagged unit: a reason and no flags. */
  function Plain(reason: string): ReturnRequest {
    ReturnRequest(reason, [], [])
  }

  /** The table with the given units returned, republished once; as it was if there are none. */
  ghost function ReturnedTogether(g: Register, t: Table, at: Key, ks: set<Key>, actor: Id, reason: string): Table
    requires g.Valid() && at.scope in g.wardLga
  {
    if ks == {} then t else Republish(g, ReturnRows(t, ks, actor, reason), at)
  }

  predicate UnitsOf(g: Register, t: Table, at: Key, ks: set<Key>) {
    forall k | k in ks ::
      k in t && k.contest == at.contest && k.level == PollingUnit && g.IsChild(Ward, at.scope, k.scope)
      && Returnable(t[k].status)
  }

  lemma UnitsOfSubset(g: Register, t: Table, at: Key, ks: set<Key>, some: set<Key>)
    requires UnitsOf(g, t, at, ks) && some <= ks
    ensures UnitsOf(g, t, at, some)
  {
  }

  /** Republication leaves polling-unit rows alone and the returned ward REJECTED with its flags. */
  lemma RepublishKeeps(g: Register, t: Table, at: Key)
    requires g.Valid() && ReturnedWardAt(g, t, at)
    ensures var u := Republish(g, t, at);
      && (forall k: Key :: k.level == PollingUnit ==> Find(u, k) == Find(t, k))
      && at in u && u[at].status == Rejected && u[at].flaggedPus == t[at].flaggedPus
      && RolledOver(t, u, at) && RolledOver(t, u, LgaKey(g, at)) && RolledOver(t, u, StateKey(g, at))
      && SameBut(t, u, {at, LgaKey(g, at), StateKey(g, at)})
  {
    PublishWardOnlyRolls(g, t, at.contest, at.scope, false, false);
  }

  /** The officer of a returned ward may return any of its open units, and this is what it does. */
  lemma OfficerReturnsUnit(g: Register, t: Table, user: User, at: Key, k: Key, reason: string)
    requires g.Valid() && ReturnedWardAt(g, t, at) && user.Posting() == Some(Post(Ward, at.scope))
    requires UnitsOf(g, t, at, {k})
    ensures Return(g, t, user, k, Plain(reason)) == Ok(Republish(g, ReturnRows(t, {k}, user.sub, reason), at))
  {
    assert WardIsReturned(g, t, k.contest, k.scope);
    MarkOneUnit(t, k, user.sub, reason);
  }

  lemma MarkOneUnit(t: Table, k: Key, actor: Id, reason: string)
    requires k in t && k.level == PollingUnit
    ensures MarkReturned(t, k, actor, reason, [], []) == ReturnRows(t, {k}, actor, reason)
  {
    var row := ReturnedRow(t[k], actor, reason);
    assert WithFlags(row, [], []) == row;
    var t1 := t[k := row];
    assert OpenKeys(t1, k.contest, PollingUnit, []) == {} && OpenKeys(t1, k.contest, Ward, []) == {};
    assert ReturnRows(t1, {}, actor, reason) == t1;
    assert ReturnRows(t, {k}, actor, reason) == t1;
  }

  /** Returning one more unit of a table in which some were returned together. */
  lemma OneMoreReturn(g: Register, t: Table, user: User, at: Key, done: set<Key>, k: Key, reason: string)
    requires g.Valid() && ReturnedWardAt(g, t, at) && user.Posting() == Some(Post(Ward, at.scope))
    requires UnitsOf(g, t, at, done + {k}) && k !in done
    ensures Return(g, ReturnedTogether(g, t, at, done, user.sub, reason), user, k, Plain(reason))
         == Ok(ReturnedTogether(g, t, at, done + {k}, user.sub, reason))
  {
    var actor := user.sub;
    if done == {} {
      assert done + {k} == {k};
      OfficerReturnsUnit(g, t, user, at, k, reason);
    } else {
      var a := ReturnRows(t, done, actor, reason);
      RepublishKeeps(g, a, at);
      assert Find(Republish(g, a, at), k) == Find(a, k) == Find(t, k);
      OfficerReturnsUnit(g, Republish(g, a, at), user, at, k, reason);
      RepublishedOnce(g, a, at, k, actor, reason);
      ReturnInTwoSteps(t, done, k, actor, reason);
    }
  }

  lemma ReturnInTwoSteps(t: Table, done: set<Key>, k: Key, actor: Id, reason: string)
    requires k !in done
    ensures ReturnRows(ReturnRows(t, done, actor, reason), {k}, actor, reason)
      == ReturnRows(t, done + {k}, actor, reason)
  {
  }

  /** Republish, return a unit, republish: the first republication leaves no trace. */
  lemma RepublishedOnce(g: Register, a: Table, at: Key, k: Key, actor: Id, reason: string)
    requires g.Valid() && ReturnedWardAt(g, a, at) && k.level == PollingUnit
    ensures Republish(g, ReturnRows(Republish(g, a, at), {k}, actor, reason), at)
         == Republish(g, ReturnRows(a, {k}, actor, reason), at)
  {
    var u := Republish(g, a, at);
    RepublishKeeps(g, a, at);
    ReturnedOver(g, a, u, at, k, actor, reason);
    RepublishAbsorbs(g, ReturnRows(a, {k}, actor, reason), ReturnRows(u, {k}, actor, reason), at);
  }

  lemma ReturnedOver(g: Register, a: Table, u: Table, at: Key, k: Key, actor: Id, reason: string)
    requires g.Valid() && at.scope in g.wardLga && k.level == PollingUnit && at.level == Ward
    requires SameBut(a, u, {at, LgaKey(g, at), StateKey(g, at)})
    requires RolledOver(a, u, at) && RolledOver(a, u, LgaKey(g, at)) && RolledOver(a, u, StateKey(g, at))
    ensures
      var x, y := ReturnRows(a, {k}, actor, reason), ReturnRows(u, {k}, actor, reason);
      && SameBut(x, y, {at, LgaKey(g, at), StateKey(g, at)})
      && RolledOver(x, y, at) && RolledOver(x, y, LgaKey(g, at)) && RolledOver(x, y, StateKey(g, at))
  {
    var x, y := ReturnRows(a, {k}, actor, reason), ReturnRows(u, {k}, actor, reason);
    forall j: Key
      ensures j != k ==> Find(x, j) == Find(a, j) && Find(y, j) == Find(u, j)
      ensures Find(a, j) == Find(u, j) ==> Find(x, j) == Find(y, j)
    {
    }
  }

  /** The calls of the loop, one unit after the other; the first error ends it. */
  ghost function ReturnEach(g: Register, t: Table, user: User, order: seq<Key>, reason: string): Result<Table>
    requires g.Valid()
  {
    if order == [] then Ok(t)
    else
      var before := ReturnEach(g, t, user, order[..|order| - 1], reason);
      if before.Err? then before
      else Return(g, before.value, user, order[|order| - 1], Plain(reason))
  }

  function KeysOf(order: seq<Key>): set<Key> {
    set k | k in order
  }

  lemma KeysOfSnoc(order: seq<Key>, k: Key)
    ensures KeysOf(order + [k]) == KeysOf(order) + {k}
  {
  }

  /** No call of the loop fails, and in any order the units end up returned together. */
  lemma {:induction false} BulkReturnNeverFailsMidway(
      g: Register, t: Table, user: User, at: Key, order: seq<Key>, reason: string)
    requires g.Valid() && ReturnedWardAt(g, t, at) && user.Posting() == Some(Post(Ward, at.scope))
    requires UnitsOf(g, t, at, KeysOf(order)) && NoRepeats(order)
    ensures ReturnEach(g, t, user, order, reason)
         == Ok(ReturnedTogether(g, t, at, KeysOf(order), user.sub, reason))
  {
    if order != [] {
      var n := |order| - 1;
      KeysOfSnoc(order[..n], order[n]);
      assert order == order[..n] + [order[n]];
      BulkReturnNeverFailsMidway(g, t, user, at, order[..n], reason);
      OneMoreReturn(g, t, user, at, KeysOf(order[..n]), order[n], reason);
    } else {
      assert KeysOf(order) == {};
    }
  }

  /** The flagged units that are open are units the ward's officer may return. */
  lemma OpenFlaggedUnits(g: Register, t: Table, at: Key, flagged: seq<Id>)
    requires forall id :: id in flagged ==> g.IsChild(Ward, at.scope, id)
    ensures UnitsOf(g, t, at, OpenKeys(t, at.contest, PollingUnit, flagged))
  {
  }

  lemma BulkIsTogether(g: Register, t: Table, at: Key, row: Row, actor: Id, reason: string)
    requires g.Valid() && at.level == Ward && at.scope in g.wardLga
    ensures BulkReturnIn(g, t, at, row, actor, reason) ==
      ReturnedTogether(g, t, at, OpenKeys(t, at.contest, PollingUnit, row.flaggedPus), actor, BulkReason(reason, row))
  {
  }

  // ---------------------------------------------------------------- what the bulk return achieves

  /** No flagged unit of the contest is left SUBMITTED or APPROVED. */
  ghost predicate Settled(u: Table, contest: Id, flagged: seq<Id>) {
    OpenKeys(u, contest, PollingUnit, flagged) == {}
  }

  lemma ReturnedTogetherSettles(g: Register, t: Table, at: Key, row: Row, actor: Id, reason: string)
    requires g.Valid() && at.level == Ward
    ensures var u := BulkReturnIn(g, t, at, row, actor, reason);
      && Settled(u, at.contest, row.flaggedPus)
      && forall c, ids :: Settled(t, c, ids) ==> Settled(u, c, ids)
  {
    var ks := OpenKeys(t, at.contest, PollingUnit, row.flaggedPus);
    var a := ReturnRows(t, ks, actor, BulkReason(reason, row));
    var u := BulkReturnIn(g, t, at, row, actor, reason);
    PublishKeepsUnits(g, a, at, false, false);
    forall k: Key | k.level == PollingUnit && k in u && Returnable(u[k].status)
      ensures k in t && k !in ks && Returnable(t[k].status)
    {
      assert ks != {} ==> Find(u, k) == Find(a, k);
    }
    forall c, ids | Settled(t, c, ids)
      ensures Settled(u, c, ids)
    {
      assert forall k :: k in OpenKeys(u, c, PollingUnit, ids) ==> k in OpenKeys(t, c, PollingUnit, ids);
    }
  }

  lemma {:induction false} AllSettled(
      g: Register, t: Table, start: Table, contests: seq<Id>, ward: Id, actor: Id, reason: string)
    requires g.Valid() && forall c :: c in contests ==> Key(c, Ward, ward) in start
    ensures var u := BulkReturnAll(g, t, start, contests, ward, actor, reason);
      forall c :: c in contests ==> Settled(u, c, start[Key(c, Ward, ward)].flaggedPus)
  {
    if contests == [] {
    } else {
      var n := |contests| - 1;
      AllSettled(g, t, start, contests[..n], ward, actor, reason);
      var at := Key(contests[n], Ward, ward);
      var before := BulkReturnAll(g, t, start, contests[..n], ward, actor, reason);
      ReturnedTogetherSettles(g, before, at, start[at], actor, reason);
      forall c | c in contests
        ensures
          Settled(BulkReturnAll(g, t, start, contests, ward, actor, reason), c, start[Key(c, Ward, ward)].flaggedPus)
      {
        assert c != contests[n] ==> c in contests[..n];
      }
    }
  }

  /** After a bulk return no flagged unit is open, and each returned ward is as it was returned. */
  lemma BulkReturnSettles(g: Register, t: Table, user: User, contests: seq<Id>, reason: string, c: Id)
    requires g.Valid() && BulkReturn(g, t, user, contests, reason).Ok?
    requires c in FlaggedContests(t, contests, user.Posting().value.scope)
    ensures
      var at := Key(c, Ward, user.Posting().value.scope);
      var u := BulkReturn(g, t, user, contests, reason).value;
      && at in t && at in u
      && Settled(u, c, t[at].flaggedPus)
      && u[at].status == Rejected && u[at].flaggedPus == t[at].flaggedPus
      && u[at].rejectionReason == t[at].rejectionReason
  {
    hide BulkReturnAll, Settled, FlaggedContests;
    var ward := user.Posting().value.scope;
    var at := Key(c, Ward, ward);
    FlaggedContestsAreReturned(t, contests, ward);
    AllSettled(g, t, t, FlaggedContests(t, contests, ward), ward, user.sub, reason);
    ReturnedWardStays(g, t, BulkReturnCall(user, contests, reason), at);
  }

  /** A bulk return leaves a returned ward returned, with its flags and its reason. */
  lemma ReturnedWardStays(g: Register, t: Table, c: Command, at: Key)
    requires g.Valid() && c.BulkReturnCall? && at in t && at.level == Ward && t[at].status == Rejected
    ensures
      var u := Exec(g, t, c);
      && at in u && u[at].status == Rejected && u[at].flaggedPus == t[at].flaggedPus
      && u[at].rejectionReason == t[at].rejectionReason
  {
    var related: RowRelation := (j: Key, was: Option<Row>, row: Row) =>
      j == at && was.Some? && was.value.status == Rejected ==>
        && row.status == Rejected && row.flaggedPus == was.value.flaggedPus
        && row.rejectionReason == was.value.rejectionReason;
    CallRelated(g, t, c, related);
    hide Exec;
    assert related(at, Find(t, at), Exec(g, t, c)[at]);
  }

  /** The contests still to come are untouched by those already done. */
  lemma OtherContestsUntouched(g: Register, t: Table, contests: seq<Id>, ward: Id, user: User, reason: string, c: Id)
    requires g.Valid() && c !in contests && forall d :: d in contests ==> Key(d, Ward, ward) in t
    ensures var u := BulkReturnAll(g, t, t, contests, ward, user.sub, reason);
      forall k: Key :: k.contest == c ==> Find(u, k) == Find(t, k)
  {
    var related: RowRelation := (j: Key, was: Option<Row>, row: Row) => j.contest == c ==> was == Some(row);
    BulkRelated(g, t, t, contests, ward, user, contests, reason, related);
    var u := BulkReturnAll(g, t, t, contests, ward, user.sub, reason);
    forall k: Key | k.contest == c
      ensures Find(u, k) == Find(t, k)
    {
      assert k in u ==> related(k, Find(t, k), u[k]);
    }
  }
}
