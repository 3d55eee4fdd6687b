/** Conservation of votes: every published total is the sum over the approved polling units below it. */
module Conservation {
  import opened Wrappers
  import opened Hierarchy
  import opened Sheets
  import opened Workflow
  import opened Runs
  import opened Effects
  import opened Invariants

  /** The row at `at` is the sum of the rows directly below it; no row stands for an empty sum. */
  ghost predicate ConsistentAt(g: Register, t: Table, at: Key) {
    && (at in t ==> t[at].sheet == Published(Sum(ChildKeys(g, t, at), SheetsOf(t))))
    && (at !in t ==> ChildKeys(g, t, at) == {})
  }

  ghost predicate ConsistentExcept(g: Register, t: Table, open: set<Key>) {
    forall at: Key :: RolledUp(at.level) && at !in open ==> ConsistentAt(g, t, at)
  }

  /** Rows a roll-up at `at` reads are the same in both tables, as far as it reads them. */
  ghost predicate SameBelow(g: Register, t: Table, u: Table, at: Key) {
    forall k: Key :: Candidate(g, at, k) ==>
      && (Counted(t, at, k) <==> Counted(u, at, k))
      && (Counted(t, at, k) ==> t[k].sheet == u[k].sheet)
  }

  ghost predicate SameSheetAt(t: Table, u: Table, at: Key) {
    (at in t <==> at in u) && (at in t ==> t[at].sheet == u[at].sheet)
  }

  lemma SameBelowSameSum(g: Register, t: Table, u: Table, at: Key)
    requires SameBelow(g, t, u, at)
    ensures ChildKeys(g, t, at) == ChildKeys(g, u, at)
    ensures Sum(ChildKeys(g, t, at), SheetsOf(t)) == Sum(ChildKeys(g, u, at), SheetsOf(u))
  {
    assert ChildKeys(g, t, at) == ChildKeys(g, u, at);
    SumCongruent(ChildKeys(g, t, at), SheetsOf(t), SheetsOf(u));
  }

  lemma Frame(g: Register, t: Table, u: Table, at: Key)
    requires ConsistentAt(g, t, at) && SameBelow(g, t, u, at) && SameSheetAt(t, u, at)
    ensures ConsistentAt(g, u, at)
  {
    SameBelowSameSum(g, t, u, at);
  }

  /** A roll-up makes its own row consistent and can upset only the row above. */
  lemma RollupRestores(g: Register, t: Table, at: Key, clear: bool, keep: bool, open: set<Key>, above: set<Key>)
    requires RolledUp(at.level) && ConsistentExcept(g, t, open)
    requires forall k: Key :: RolledUp(k.level) && Candidate(g, k, at) ==> k in above
    ensures ConsistentExcept(g, Rollup(g, t, at, clear, keep), (open - {at}) + above)
  {
    var u := Rollup(g, t, at, clear, keep);
    forall k: Key | RolledUp(k.level) && k !in (open - {at}) + above
      ensures ConsistentAt(g, u, k)
    {
      if k == at {
        SameBelowSameSum(g, t, u, at);
      } else {
        Frame(g, t, u, k);
      }
    }
  }

  lemma PublishWardRestores(g: Register, t: Table, contest: Id, ward: Id, clear: bool, keep: bool)
    requires g.Valid() && ward in g.wardLga
    requires ConsistentExcept(g, t, {Key(contest, Ward, ward)})
    ensures ConsistentExcept(g, PublishWard(g, t, contest, ward, clear, keep), {})
  {
    var lga := g.wardLga[ward];
    var w, l, s := Key(contest, Ward, ward), Key(contest, Lga, lga), Key(contest, State, g.lgaState[lga]);
    var t1 := Rollup(g, t, w, clear, keep);
    var t2 := Rollup(g, t1, l, false, false);
    RollupRestores(g, t, w, clear, keep, {w}, {l});
    RollupRestores(g, t1, l, false, false, {l}, {s});
    RollupRestores(g, t2, s, false, false, {s}, {});
    assert ({w} - {w}) + {l} == {l};
    assert ({l} - {l}) + {s} == {s};
    assert ({s} - {s}) + {} == {};
  }

  lemma PublishLgaRestores(g: Register, t: Table, contest: Id, lga: Id, clear: bool, keep: bool)
    requires g.Valid() && ConsistentExcept(g, t, {Key(contest, Lga, lga)})
    ensures ConsistentExcept(g, PublishLga(g, t, contest, lga, clear, keep), {})
  {
    var l := Key(contest, Lga, lga);
    var t1 := Rollup(g, t, l, clear, keep);
    if lga in g.lgaState {
      var s := Key(contest, State, g.lgaState[lga]);
      RollupRestores(g, t, l, clear, keep, {l}, {s});
      RollupRestores(g, t1, s, false, false, {s}, {});
      assert ({l} - {l}) + {s} == {s};
      assert ({s} - {s}) + {} == {};
    } else {
      RollupRestores(g, t, l, clear, keep, {l}, {});
      assert ({l} - {l}) + {} == {};
    }
  }

  /** The roll-ups that a change of the row at `from`, or of flagged children of it, can upset. */
  function Upset(g: Register, from: Key): set<Key> {
    if RolledUp(First(g, from).level) && from.level != State then {First(g, from)} else {}
  }

  lemma PublishRestores(g: Register, t: Table, from: Key, clear: bool, keep: bool)
    requires g.Valid() && ConsistentExcept(g, t, Upset(g, from))
    requires from.level == Ward ==> from.scope in g.wardLga
    ensures ConsistentExcept(g, PublishAncestry(g, t, from, clear, keep), {})
  {
    match from.level {
      case PollingUnit =>
        if from.scope in g.puWard {
          PublishWardRestores(g, t, from.contest, g.puWard[from.scope], clear, keep);
        }
      case Ward => PublishWardRestores(g, t, from.contest, from.scope, clear, keep);
      case Lga => PublishLgaRestores(g, t, from.contest, from.scope, clear, keep);
      case State =>
      case National =>
    }
  }

  /** Returning rows changes what is counted only in the wards of the polling units returned. */
  lemma ReturningFrame(g: Register, t: Table, u: Table, open: set<Key>)
    requires ConsistentExcept(g, t, {}) && u.Keys == t.Keys
    requires forall k :: k in t ==> u[k].sheet == t[k].sheet
    requires forall k :: k in t && u[k].status != t[k].status ==> Returnable(t[k].status) && u[k].status == Rejected
    requires forall k :: k in t && u[k].status != t[k].status && k.level == PollingUnit && k.scope in g.puWard
               ==> Key(k.contest, Ward, g.puWard[k.scope]) in open
    ensures ConsistentExcept(g, u, open)
  {
    forall at: Key | RolledUp(at.level) && at !in open
      ensures ConsistentAt(g, u, at)
    {
      Frame(g, t, u, at);
    }
  }

  lemma MarkingFrame(g: Register, t: Table, at: Key, actor: Id, reason: string, pus: seq<Id>, wards: seq<Id>)
    requires g.Valid() && ConsistentExcept(g, t, {}) && at in t && Returnable(t[at].status)
    requires FlagsLieIn(g, at, pus, wards)
    ensures ConsistentExcept(g, MarkReturned(t, at, actor, reason, pus, wards), Upset(g, at))
  {
    MarkingReturns(t, at, actor, reason, pus, wards);
    ReturningFrame(g, t, MarkReturned(t, at, actor, reason, pus, wards), Upset(g, at));
  }

  lemma MarkingReturns(t: Table, at: Key, actor: Id, reason: string, pus: seq<Id>, wards: seq<Id>)
    requires at in t && Returnable(t[at].status)
    ensures var u := MarkReturned(t, at, actor, reason, pus, wards);
      && u.Keys == t.Keys
      && forall k :: k in t ==>
           && u[k].sheet == t[k].sheet
           && (u[k].status != t[k].status ==>
                 && Returnable(t[k].status) && u[k].status == Rejected
                 && (k.level == PollingUnit ==> k == at || (k.contest == at.contest && k.scope in pus)))
  {
  }

  lemma ReturnKeepsConsistent(g: Register, t: Table, user: User, at: Key, request: ReturnRequest)
    requires g.Valid() && ConsistentExcept(g, t, {}) && WardsRegistered(g, t)
    requires Return(g, t, user, at, request).Ok?
    ensures ConsistentExcept(g, Return(g, t, user, at, request).value, {})
  {
    hide PublishAncestry, ConsistentExcept, Workflow.MarkReturned;
    var pus := FlagsFor(g, at, AsksForPus(user, at), request.affectedPus).value;
    var wards := FlagsFor(g, at, AsksForWards(user, at), request.affectedWards).value;
    var u := MarkReturned(t, at, user.sub, request.reason, pus, wards);
    MarkingFrame(g, t, at, user.sub, request.reason, pus, wards);
    PublishRestores(g, u, at, false, at.level != PollingUnit);
  }

  lemma ApproveKeepsConsistent(g: Register, t: Table, user: User, at: Key, note: Option<string>)
    requires g.Valid() && ConsistentExcept(g, t, {}) && Approve(g, t, user, at, note).Ok?
    ensures ConsistentExcept(g, Approve(g, t, user, at, note).value, {})
  {
    hide PublishAncestry;
    var u := t[at := ApprovedRow(t[at], user.sub, note)];
    forall k: Key | RolledUp(k.level) && k !in Upset(g, at)
      ensures ConsistentAt(g, u, k)
    {
      Frame(g, t, u, k);
    }
    PublishRestores(g, u, at, true, false);
  }

  /** Writing a row that is counted as before, or not at all, upsets nothing. */
  lemma RewriteFrame(g: Register, t: Table, k: Key, row: Row)
    requires ConsistentExcept(g, t, {})
    requires
      || (k in t && row.status == t[k].status && row.sheet == t[k].sheet)
      || (RolledUp(k.level) && k in t && row.sheet == t[k].sheet && row.status != Draft && t[k].status != Draft)
      || (k.level == PollingUnit && row.status != Approved && (k in t ==> t[k].status != Approved))
      || k.level == National
    ensures ConsistentExcept(g, t[k := row], {})
  {
    SameSheetsFrame(g, t, t[k := row]);
  }

  lemma ResubmitKeepsConsistent(g: Register, t: Table, user: User, contest: Id, level: Level, comment: string)
    requires g.Valid() && ConsistentExcept(g, t, {}) && WardsRegistered(g, t) && level in {Ward, Lga}
    requires Resubmit(g, t, user, contest, level, comment).Ok?
    ensures ConsistentExcept(g, Resubmit(g, t, user, contest, level, comment).value, {})
  {
    var at := Key(contest, level, user.Posting().value.scope);
    var u := PublishAncestry(g, t, at, true, false);
    PublishRestores(g, t, at, true, false);
    if at in u {
      RewriteFrame(g, u, at, RepublishedRow(u[at], user.sub, comment));
    }
  }

  /** Changes that touch no counted sheet and no counted status upset nothing. */
  lemma SameSheetsFrame(g: Register, t: Table, u: Table)
    requires ConsistentExcept(g, t, {})
    requires forall at: Key :: RolledUp(at.level) ==> SameSheetAt(t, u, at) && SameBelow(g, t, u, at)
    ensures ConsistentExcept(g, u, {})
  {
    forall at: Key | RolledUp(at.level)
      ensures ConsistentAt(g, u, at)
    {
      Frame(g, t, u, at);
    }
  }

  lemma BulkInKeepsConsistent(g: Register, t: Table, at: Key, row: Row, actor: Id, reason: string)
    requires g.Valid() && ConsistentExcept(g, t, {}) && at.level == Ward && at.scope in g.wardLga
    requires forall id :: id in row.flaggedPus ==> g.IsChild(Ward, at.scope, id)
    ensures ConsistentExcept(g, BulkReturnIn(g, t, at, row, actor, reason), {})
  {
    var ks := OpenKeys(t, at.contest, PollingUnit, row.flaggedPus);
    if ks != {} {
      var u := ReturnRows(t, ks, actor, BulkReason(reason, row));
      ReturningFrame(g, t, u, Upset(g, at));
      PublishRestores(g, u, at, false, false);
    }
  }

  lemma {:induction false} BulkKeepsConsistent(
      g: Register, t: Table, start: Table, contests: seq<Id>, ward: Id, actor: Id, reason: string)
    requires g.Valid() && ConsistentExcept(g, t, {}) && ward in g.wardLga
    requires forall c :: c in contests ==> Key(c, Ward, ward) in start
    requires AllEvidenced(g, start)
    ensures ConsistentExcept(g, BulkReturnAll(g, t, start, contests, ward, actor, reason), {})
    decreases |contests|
  {
    if contests == [] {
    } else {
      var n := |contests| - 1;
      BulkKeepsConsistent(g, t, start, contests[..n], ward, actor, reason);
      var at := Key(contests[n], Ward, ward);
      assert Evidenced(g, at, start[at]);
      BulkInKeepsConsistent(g, BulkReturnAll(g, t, start, contests[..n], ward, actor, reason),
                            at, start[at], actor, reason);
    }
  }

  lemma EditKeepsConsistent(g: Register, t: Table, c: Command)
    requires g.Valid() && ConsistentExcept(g, t, {})
    requires RollupsPublished(t)
    requires (c.SaveCall? && !ManualSaveAbove(c)) || c.AttachCall? || c.SubmitCall? || c.CommentCall?
    ensures ConsistentExcept(g, Exec(g, t, c), {})
  {
    if Apply(g, t, c).Ok? {
      var u := Exec(g, t, c);
      match c
      case SaveCall(user, contest, dto) =>
        var at := Key(contest, user.Posting().value.level, user.Posting().value.scope);
        RewriteFrame(g, t, at, u[at]);
      case AttachCall(_, at, _) => RewriteFrame(g, t, at, u[at]);
      case SubmitCall(_, at) => RewriteFrame(g, t, at, u[at]);
      case CommentCall(_, at, _) => RewriteFrame(g, t, at, u[at]);
    }
  }

  lemma CallKeepsConsistent(g: Register, t: Table, c: Command)
    requires g.Valid() && ConsistentExcept(g, t, {}) && WardsRegistered(g, t)
    requires AllEvidenced(g, t)
    requires RollupsPublished(t)
    requires Apply(g, t, c).Ok? ==> !ManualSaveAbove(c)
    ensures ConsistentExcept(g, Exec(g, t, c), {})
  {
    if !Apply(g, t, c).Ok? {
    } else if c.BulkReturnCall? {
      var ward := c.user.Posting().value.scope;
      var flagged := FlaggedContests(t, c.contests, ward);
      FlaggedContestsAreReturned(t, c.contests, ward);
      assert Key(flagged[0], Ward, ward) in t;
      BulkKeepsConsistent(g, t, t, flagged, ward, c.user.sub, c.reason);
    } else {
      match c
      case ApproveCall(user, at, note) => ApproveKeepsConsistent(g, t, user, at, note);
      case ReturnCall(user, at, request) => ReturnKeepsConsistent(g, t, user, at, request);
      case ResubmitWardCall(user, contest) => ResubmitKeepsConsistent(g, t, user, contest, Ward, WARD_REPUBLISHED);
      case ResubmitLgaCall(user, contest) => ResubmitKeepsConsistent(g, t, user, contest, Lga, LGA_REPUBLISHED);
      case _ => EditKeepsConsistent(g, t, c);
    }
  }

  // ---------------------------------------------------------------- the conservation law

  /** The approved polling units, registered somewhere below a scope, in its contest. */
  ghost function ApprovedUnder(g: Register, t: Table, at: Key): set<Key> {
    set k | k in t && k.contest == at.contest && k.level == PollingUnit && t[k].status == Approved
      && g.PuUnder(at.level, at.scope, k.scope)
  }

  /** What a published row must show; no row at all stands for nothing to show. */
  ghost predicate ConservedAt(g: Register, t: Table, at: Key) {
    && (at in t ==> t[at].sheet == Published(Sum(ApprovedUnder(g, t, at), SheetsOf(t))))
    && (at !in t ==> ApprovedUnder(g, t, at) == {})
  }

  ghost predicate Conserved(g: Register, t: Table) {
    forall at: Key :: RolledUp(at.level) ==> ConservedAt(g, t, at)
  }

  lemma WardConserved(g: Register, t: Table, at: Key)
    requires at.level == Ward && ConsistentAt(g, t, at)
    ensures ConservedAt(g, t, at)
  {
    assert ChildKeys(g, t, at) == ApprovedUnder(g, t, at);
  }

  /** One level up: if the rows below are conserved, so is a row that is their sum. */
  lemma ConservedFromBelow(g: Register, t: Table, at: Key)
    requires g.Valid() && at.level in {Lga, State} && ConsistentAt(g, t, at)
    requires RollupsPublished(t)
    requires forall k :: Candidate(g, at, k) ==> ConservedAt(g, t, k)
    ensures ConservedAt(g, t, at)
  {
    var below := ChildKeys(g, t, at);
    var parts := map k | k in below :: ApprovedUnder(g, t, k);
    ApprovedByGroup(g, t, at, parts);
    GroupsAreDisjoint(g, t, at, parts);
    forall k | k in below
      ensures Tally(SheetsOf(t)[k]) == Sum(parts[k], SheetsOf(t))
    {
      GroupTally(g, t, k);
    }
    SumOfGroups(below, SheetsOf(t), parts);
  }

  lemma GroupTally(g: Register, t: Table, k: Key)
    requires k in t && ConservedAt(g, t, k)
    ensures Tally(SheetsOf(t)[k]) == Sum(ApprovedUnder(g, t, k), SheetsOf(t))
  {
    TallyOfPublished(Sum(ApprovedUnder(g, t, k), SheetsOf(t)));
  }

  lemma GroupsAreDisjoint(g: Register, t: Table, at: Key, parts: map<Key, set<Key>>)
    requires at.level in {Lga, State} && parts.Keys == ChildKeys(g, t, at)
    requires forall k :: k in parts ==> parts[k] == ApprovedUnder(g, t, k)
    ensures forall k, j :: k in parts && j in parts && k != j ==> parts[k] !! parts[j]
  {
  }

  /** The approved units below a scope are those below its children that have a row. */
  lemma ApprovedByGroup(g: Register, t: Table, at: Key, parts: map<Key, set<Key>>)
    requires g.Valid() && at.level in {Lga, State}
    requires parts.Keys == ChildKeys(g, t, at) && forall k :: k in parts ==> parts[k] == ApprovedUnder(g, t, k)
    requires RollupsPublished(t)
    requires forall k :: Candidate(g, at, k) && k !in t ==> ApprovedUnder(g, t, k) == {}
    ensures ApprovedUnder(g, t, at) == Union(parts.Keys, parts)
  {
    forall j | j in ApprovedUnder(g, t, at)
      ensures j in Union(parts.Keys, parts)
    {
      var ward := g.puWard[j.scope];
      var k := if at.level == Lga then Key(at.contest, Ward, ward) else Key(at.contest, Lga, g.wardLga[ward]);
      assert Candidate(g, at, k) && j in ApprovedUnder(g, t, k);
    }
  }

  lemma ConsistentMeansConserved(g: Register, t: Table)
    requires g.Valid() && ConsistentExcept(g, t, {})
    requires RollupsPublished(t)
    ensures Conserved(g, t)
  {
    forall at: Key | at.level == Ward
      ensures ConservedAt(g, t, at)
    {
      WardConserved(g, t, at);
    }
    forall at: Key | at.level == Lga
      ensures ConservedAt(g, t, at)
    {
      ConservedFromBelow(g, t, at);
    }
    forall at: Key | at.level == State
      ensures ConservedAt(g, t, at)
    {
      ConservedFromBelow(g, t, at);
    }
  }

  lemma {:induction false} EveryRunIsConsistent(g: Register, cs: seq<Command>)
    requires g.Valid() && NoSaveOver(g, cs)
    ensures ConsistentExcept(g, Run(g, map[], cs), {})
    decreases |cs|
  {
    if cs == [] {
      forall at: Key | RolledUp(at.level)
        ensures ConsistentAt(g, map[], at)
      {
        assert ChildKeys(g, map[], at) == {};
      }
    } else {
      hide Apply, Exec, ConsistentExcept;
      var before := cs[..|cs| - 1];
      NoSaveOverBefore(g, cs, |cs| - 1);
      assert Accepted(g, cs, |cs| - 1) <==> Apply(g, Run(g, map[], before), cs[|cs| - 1]).Ok?;
      EveryRunIsConsistent(g, before);
      EveryRunIsEvidenced(g, before);
      EveryRunKeepsRollupsPublished(g, before);
      EveryWardIsRegistered(g, before);
      CallKeepsConsistent(g, Run(g, map[], before), cs[|cs| - 1]);
    }
  }

  /**
   * Conservation: after any calls in any order, none of them an accepted save over a roll-up, every ward, LGA
   * and state row shows the sum of the approved polling units below it in its contest.
   */
  lemma {:induction false} VotesAreConserved(g: Register, cs: seq<Command>)
    requires g.Valid() && NoSaveOver(g, cs)
    ensures Conserved(g, Run(g, map[], cs))
  {
    EveryRunIsConsistent(g, cs);
    EveryRunKeepsRollupsPublished(g, cs);
    ConsistentMeansConserved(g, Run(g, map[], cs));
  }

  /** Figure by figure: what a published row shows is that figure added up over the approved units. */
  lemma FiguresAreConserved(g: Register, cs: seq<Command>, at: Key)
    requires g.Valid() && NoSaveOver(g, cs) && RolledUp(at.level) && at in Run(g, map[], cs)
    ensures
      var t := Run(g, map[], cs);
      ShowsTotals(t[at].sheet, ApprovedUnder(g, t, at), SheetsOf(t))
  {
    hide ShowsTotals, Sum, Run;
    VotesAreConserved(g, cs);
    var t := Run(g, map[], cs);
    PublishedShowsTotals(ApprovedUnder(g, t, at), SheetsOf(t));
  }

  /** An entry that types one more registered voter than given. */
  function Overcount(n: int): Entry {
    Entry(Set(Some(n)), Keep, Keep, Keep, Keep, Keep, Keep, Keep, Keep, Keep)
  }

  lemma OneMoreSave(g: Register, cs: seq<Command>, c: Command)
    requires g.Valid() && NoSaveOver(g, cs) && !ManualSaveAbove(c)
    ensures NoSaveOver(g, cs + [c])
  {
    forall i | 0 <= i < |cs| && Accepted(g, cs + [c], i)
      ensures !ManualSaveAbove(cs[i])
    {
      AcceptedBefore(g, cs + [c], |cs|, i);
      assert (cs + [c])[..|cs|] == cs;
    }
  }

  /**
   * A save keeps the law whatever is typed exactly if it is not a save over a roll-up, or is refused
   * because the roll-up is not open for editing.
   */
  lemma {:induction false} SaveKeepsConservationExactly(g: Register, cs: seq<Command>, user: User, contest: Id)
    requires g.Valid() && NoSaveOver(g, cs)
    requires user.Posting().Some?
    ensures
      var t := Run(g, map[], cs);
      var post := user.Posting().value;
      var at := Key(contest, post.level, post.scope);
      (forall dto :: Conserved(g, Exec(g, t, SaveCall(user, contest, dto))))
      <==> (post.level !in {Lga, State} || (at in t && !Editable(t[at].status)))
  {
    var t := Run(g, map[], cs);
    var post := user.Posting().value;
    var at := Key(contest, post.level, post.scope);
    VotesAreConserved(g, cs);
    if post.level !in {Lga, State} {
      forall dto
        ensures Conserved(g, Exec(g, t, SaveCall(user, contest, dto)))
      {
        var c := SaveCall(user, contest, dto);
        assert (cs + [c])[..|cs|] == cs;
        assert Run(g, map[], cs + [c]) == Exec(g, t, c);
        OneMoreSave(g, cs, c);
        VotesAreConserved(g, cs + [c]);
      }
    } else if !(at in t && !Editable(t[at].status)) {
      var dto := Overcount(Sum(ApprovedUnder(g, t, at), SheetsOf(t)).registeredVoters + 1);
      var u := Exec(g, t, SaveCall(user, contest, dto));
      assert u == t[at := SavedRow(Find(t, at), dto)];
      assert ApprovedUnder(g, u, at) == ApprovedUnder(g, t, at);
      SumCongruent(ApprovedUnder(g, t, at), SheetsOf(t), SheetsOf(u));
      assert !ConservedAt(g, u, at);
    }
  }
}
