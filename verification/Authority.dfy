/** Who may make which call, in terms of roles, of the register and of the row's status alone. */
module Authority {
  import opened Wrappers
  import opened Hierarchy
  import opened Sheets
  import opened Workflow
  import opened Runs

  /** The user is an officer of this level with this scope. */
  predicate Posted(user: User, level: Level, scope: Id) {
    user.scope == Some(scope) &&
    match level
    case PollingUnit => user.role in {PollingAgent, PollingUnitOfficer}
    case Ward => user.role in {WardRaOfficer, WardCoordinator}
    case Lga => user.role in {LgaCollationOfficer, LgaCoordinator}
    case State => user.role in {StateCollationOfficer, StateCoordinator}
    case National => user.role == NationalCollationOfficer
  }

  predicate Administers(user: User) {
    user.role in {CampaignDirector, CandidateRole}
  }

  /** The user is an officer of this level, wherever. */
  predicate ActsAt(user: User, level: Level) {
    user.scope.Some? && Posted(user, level, user.scope.value)
  }

  predicate HasPost(user: User) {
    || ActsAt(user, PollingUnit) || ActsAt(user, Ward) || ActsAt(user, Lga) || ActsAt(user, State)
    || ActsAt(user, National)
  }

  lemma PostingIsPosted(user: User, level: Level, scope: Id)
    ensures user.Posting() == Some(Post(level, scope)) <==> Posted(user, level, scope)
    ensures user.Posting().Some? <==> HasPost(user)
    ensures user.IsAdmin() <==> Administers(user)
  {
  }

  predicate OpenForEditing(row: Row) {
    row.status in {Draft, Rejected}
  }

  // ---------------------------------------------------------------- entry and submission

  /** An officer may save the own row, except at ward level, while it is missing or open for editing. */
  lemma SaveIsAccepted(g: Register, t: Table, user: User, contest: Id, dto: Entry, level: Level, scope: Id)
    requires g.Valid() && Posted(user, level, scope)
    ensures
      var at := Key(contest, level, scope);
      var r := Apply(g, t, SaveCall(user, contest, dto));
      && (r.Ok? <==> level != Ward && (at in t ==> OpenForEditing(t[at])))
      && (r == Err(BadRequest) <==> level != Ward && at in t && !OpenForEditing(t[at]))
      && (r == Err(Forbidden) <==> level == Ward)
  {
    PostingIsPosted(user, level, scope);
  }

  lemma NobodyElseSaves(g: Register, t: Table, user: User, contest: Id, dto: Entry)
    requires g.Valid() && !HasPost(user)
    ensures Apply(g, t, SaveCall(user, contest, dto)) == Err(Forbidden)
  {
    PostingIsPosted(user, PollingUnit, "");
  }

  lemma PhotoIsAccepted(g: Register, t: Table, user: User, at: Key, url: string)
    requires g.Valid()
    ensures
      var r := Apply(g, t, AttachCall(user, at, url));
      && (r.Ok? <==> at in t && Posted(user, at.level, at.scope) && OpenForEditing(t[at]))
      && (r == Err(NotFound) <==> HasPost(user) && at !in t)
      && (r == Err(BadRequest) <==> at in t && Posted(user, at.level, at.scope) && !OpenForEditing(t[at]))
  {
    PostingIsPosted(user, at.level, at.scope);
  }

  /** A polling unit's row needs a photo. */
  predicate IsReady(at: Key, row: Row) {
    OpenForEditing(row) && (at.level == PollingUnit ==> row.photos != [])
  }

  lemma SubmissionIsAccepted(g: Register, t: Table, user: User, at: Key)
    requires g.Valid()
    ensures
      var r := Apply(g, t, SubmitCall(user, at));
      && (r.Ok? <==> at in t && at.level != Ward && Posted(user, at.level, at.scope) && IsReady(at, t[at]))
      && (r == Err(NotFound) <==> HasPost(user) && !ActsAt(user, Ward) && at !in t)
      && (r == Err(BadRequest) <==>
            at in t && at.level != Ward && Posted(user, at.level, at.scope) && !IsReady(at, t[at]))
  {
    PostingIsPosted(user, at.level, at.scope);
  }

  // ---------------------------------------------------------------- approval

  /** The officer of the polling unit's own ward, and nobody else, approves it, and only once SUBMITTED. */
  lemma ApprovalIsAccepted(g: Register, t: Table, user: User, at: Key, note: Option<string>)
    requires g.Valid()
    ensures
      var r := Apply(g, t, ApproveCall(user, at, note));
      && (r.Ok? <==>
            && at in t && at.level == PollingUnit && t[at].status == Submitted
            && at.scope in g.puWard && Posted(user, Ward, g.puWard[at.scope]))
      && (r == Err(NotFound) <==> ActsAt(user, Ward) && at !in t)
      && (r == Err(BadRequest) <==> ActsAt(user, Ward) && at in t && t[at].status != Submitted)
  {
    hide PublishAncestry;
    PostingIsPosted(user, Ward, user.scope.Or(""));
  }

  // ---------------------------------------------------------------- returns

  /** The row's ward was itself returned. */
  predicate WardOpen(t: Table, contest: Id, ward: Id) {
    Key(contest, Ward, ward) in t && t[Key(contest, Ward, ward)].status == Rejected
  }

  /** Who may return a row: admins any row, officers the rows one level below, LGA officers also units. */
  predicate MayReturnRow(g: Register, t: Table, user: User, at: Key)
    requires g.Valid() && at in t
  {
    || Administers(user)
    || match at.level
       case PollingUnit =>
         at.scope in g.puWard &&
         var ward := g.puWard[at.scope];
         || (Posted(user, Ward, ward) && (t[at].status == Approved ==> WardOpen(t, at.contest, ward)))
         || Posted(user, Lga, g.wardLga[ward])
       case Ward => at.scope in g.wardLga && Posted(user, Lga, g.wardLga[at.scope])
       case Lga => at.scope in g.lgaState && Posted(user, State, g.lgaState[at.scope])
       case State => ActsAt(user, National)
       case National => false
  }

  /** Every flagged id, once trimmed, is blank or a unit of the ward, or a ward of the LGA, returned. */
  predicate FlagsAreBelow(g: Register, at: Key, request: ReturnRequest) {
    && (at.level == Ward ==> forall id | id in request.affectedPus ::
          Trim(id) == "" || (Trim(id) in g.puWard && g.puWard[Trim(id)] == at.scope))
    && (at.level == Lga ==> forall id | id in request.affectedWards ::
          Trim(id) == "" || (Trim(id) in g.wardLga && g.wardLga[Trim(id)] == at.scope))
  }

  ghost predicate IsGiven(ids: seq<Id>, id: Id) {
    exists raw :: raw in ids && Trim(raw) == id
  }

  lemma OneMoreGiven(ids: seq<Id>, last: Id, id: Id)
    ensures IsGiven(ids + [last], id) <==> IsGiven(ids, id) || Trim(last) == id
  {
    hide Trim;
    if Trim(last) == id {
      assert last in ids + [last];
    }
    if raw :| raw in ids && Trim(raw) == id {
      assert raw in ids + [last];
    }
  }

  /** The ids that are kept are the trimmed ones that are not blank, each once. */
  lemma {:induction false} CleanIdsExactly(ids: seq<Id>)
    ensures NoRepeats(CleanIds(ids))
    ensures forall id :: id in CleanIds(ids) <==> id != "" && IsGiven(ids, id)
    decreases |ids|
  {
    hide Trim, IsGiven;
    if ids == [] {
      NothingGiven();
    } else {
      var before, last := ids[..|ids| - 1], ids[|ids| - 1];
      CleanIdsExactly(before);
      forall id
        ensures IsGiven(ids, id) <==> IsGiven(before, id) || Trim(last) == id
      {
        assert ids == before + [last];
        OneMoreGiven(before, last, id);
      }
    }
  }

  lemma NothingGiven()
    ensures forall id :: !IsGiven([], id)
  {
  }

  lemma ChecksAgree(ids: seq<Id>, fits: Id -> bool)
    ensures (forall id :: id in CleanIds(ids) ==> fits(id))
      <==> (forall raw :: raw in ids ==> Trim(raw) == "" || fits(Trim(raw)))
  {
    hide Trim, CleanIds;
    CleanIdsExactly(ids);
    if forall id :: id in CleanIds(ids) ==> fits(id) {
      forall raw | raw in ids
        ensures Trim(raw) == "" || fits(Trim(raw))
      {
        assert IsGiven(ids, Trim(raw));
      }
    }
  }

  /** One kind of flag: all that were asked for are in place. */
  lemma IdsAreChecked(g: Register, at: Key, ids: seq<Id>)
    ensures FlagsFor(g, at, true, ids).Ok?
      <==> forall raw :: raw in ids ==> Trim(raw) == "" || g.IsChild(at.level, at.scope, Trim(raw))
  {
    hide Trim, CleanIds;
    ChecksAgree(ids, id => g.IsChild(at.level, at.scope, id));
  }

  lemma FlagsAreChecked(g: Register, at: Key, user: User, request: ReturnRequest)
    requires at.level == Ward ==> AsksForPus(user, at)
    requires at.level == Lga ==> AsksForWards(user, at)
    ensures FlagsAreBelow(g, at, request) <==>
      && FlagsFor(g, at, AsksForPus(user, at), request.affectedPus).Ok?
      && FlagsFor(g, at, AsksForWards(user, at), request.affectedWards).Ok?
  {
    hide Trim, CleanIds;
    if at.level == Ward {
      IdsAreChecked(g, at, request.affectedPus);
    } else if at.level == Lga {
      IdsAreChecked(g, at, request.affectedWards);
    }
  }

  lemma ReturnErrorExactly(g: Register, t: Table, user: User, at: Key)
    requires g.Valid()
    ensures ReturnError(g, t, user, at) == None <==>
      at in t && t[at].status in {Submitted, Approved} && MayReturnRow(g, t, user, at)
    ensures ReturnError(g, t, user, at) == Some(NotFound) <==> at !in t
  {
    PostingIsPosted(user, Ward, user.scope.Or(""));
  }

  lemma ReturnIsAccepted(g: Register, t: Table, user: User, at: Key, request: ReturnRequest)
    requires g.Valid()
    ensures
      var r := Apply(g, t, ReturnCall(user, at, request));
      && (r.Ok? <==>
            && at in t && t[at].status in {Submitted, Approved} && MayReturnRow(g, t, user, at)
            && FlagsAreBelow(g, at, request))
      && (r == Err(NotFound) <==> at !in t)
  {
    hide PublishAncestry, Workflow.MarkReturned, CleanIds, Trim;
    ReturnErrorExactly(g, t, user, at);
    if ReturnError(g, t, user, at) == None {
      FlagsAreChecked(g, at, user, request);
    }
  }

  // ---------------------------------------------------------------- resubmission, bulk return, comments

  lemma ResubmissionIsAccepted(g: Register, t: Table, user: User, contest: Id)
    requires g.Valid()
    ensures
      var scope := user.scope.Or("");
      var ward, lga := Key(contest, Ward, scope), Key(contest, Lga, scope);
      && (Apply(g, t, ResubmitWardCall(user, contest)).Ok? <==>
            ActsAt(user, Ward) && ward in t && t[ward].status == Rejected)
      && (Apply(g, t, ResubmitLgaCall(user, contest)).Ok? <==>
            ActsAt(user, Lga) && lga in t && t[lga].status == Rejected)
      && (Apply(g, t, ResubmitWardCall(user, contest)) == Err(Forbidden) <==> !ActsAt(user, Ward))
      && (Apply(g, t, ResubmitLgaCall(user, contest)) == Err(Forbidden) <==> !ActsAt(user, Lga))
  {
    hide PublishAncestry;
    PostingIsPosted(user, Ward, user.scope.Or(""));
  }

  /** The ward was returned in this contest with flagged units. */
  predicate FlaggedWard(t: Table, contest: Id, ward: Id) {
    WardOpen(t, contest, ward) && t[Key(contest, Ward, ward)].flaggedPus != []
  }

  lemma {:induction false} FlaggedContestsExactly(t: Table, contests: seq<Id>, ward: Id)
    ensures forall c :: c in FlaggedContests(t, contests, ward) <==> c in contests && FlaggedWard(t, c, ward)
    decreases |contests|
  {
    if contests == [] {
    } else {
      var before := contests[..|contests| - 1];
      FlaggedContestsExactly(t, before, ward);
      assert contests == before + [contests[|contests| - 1]];
    }
  }

  lemma BulkReturnIsAccepted(g: Register, t: Table, user: User, contests: seq<Id>, reason: string)
    requires g.Valid()
    ensures
      var r := Apply(g, t, BulkReturnCall(user, contests, reason));
      && (r.Ok? <==> ActsAt(user, Ward) && exists c :: c in contests && FlaggedWard(t, c, user.scope.value))
      && (r == Err(Forbidden) <==> !ActsAt(user, Ward))
  {
    hide BulkReturnAll;
    PostingIsPosted(user, Ward, user.scope.Or(""));
    if ActsAt(user, Ward) {
      var flagged := FlaggedContests(t, contests, user.scope.value);
      FlaggedContestsExactly(t, contests, user.scope.value);
      if flagged != [] {
        assert flagged[0] in flagged;
      }
    }
  }

  /** The row is that of the LGA or state, or of a place in it. */
  predicate LiesIn(g: Register, level: Level, scope: Id, at: Key)
    requires g.Valid()
  {
    || (at.level == level && at.scope == scope)
    || match level
       case Lga =>
         || (at.level == Ward && at.scope in g.wardLga && g.wardLga[at.scope] == scope)
         || (at.level == PollingUnit && at.scope in g.puWard && g.wardLga[g.puWard[at.scope]] == scope)
       case State =>
         || (at.level == Lga && at.scope in g.lgaState && g.lgaState[at.scope] == scope)
         || (at.level == Ward && at.scope in g.wardLga && g.lgaState[g.wardLga[at.scope]] == scope)
         || (at.level == PollingUnit && at.scope in g.puWard && g.lgaState[g.wardLga[g.puWard[at.scope]]] == scope)
       case PollingUnit | Ward | National => false
  }

  lemma CommentIsAccepted(g: Register, t: Table, user: User, at: Key, text: string)
    requires g.Valid()
    ensures
      var r := Apply(g, t, CommentCall(user, at, text));
      && (r.Ok? <==>
            && |Trim(text)| >= 3 && at in t
            && (|| Administers(user) || ActsAt(user, National)
                || (ActsAt(user, Lga) && LiesIn(g, Lga, user.scope.value, at))
                || (ActsAt(user, State) && LiesIn(g, State, user.scope.value, at))))
      && (r == Err(BadRequest) <==> |Trim(text)| < 3)
      && (r == Err(NotFound) <==> |Trim(text)| >= 3 && at !in t)
  {
    hide Trim;
    PostingIsPosted(user, Lga, user.scope.Or(""));
  }

  // ---------------------------------------------------------------- trimming

  predicate Blank(s: string) {
    forall i | 0 <= i < |s| :: s[i] in {' ', '\t', '\n', '\r'}
  }

  /** What is off at either end is blank; what is left does not begin or end with a blank. */
  predicate IsTrimmed(s: string, front: string, left: string, back: string) {
    && s == front + left + back && Blank(front) && Blank(back)
    && (left == "" || (!Blank(left[..1]) && !Blank(left[|left| - 1..])))
  }

  lemma BlankInFront(c: char, s: string, front: string, left: string, back: string)
    requires IsSpace(c) && IsTrimmed(s, front, left, back)
    ensures IsTrimmed([c] + s, [c] + front, left, back)
  {
    assert [c] + s == [c] + front + left + back;
  }

  lemma BlankBehind(c: char, s: string, front: string, left: string, back: string)
    requires IsSpace(c) && IsTrimmed(s, front, left, back)
    ensures IsTrimmed(s + [c], front, left, back + [c])
  {
    assert s + [c] == front + left + (back + [c]);
  }

  lemma NoBlank(s: string)
    requires s == "" || (!IsSpace(s[0]) && !IsSpace(s[|s| - 1]))
    ensures IsTrimmed(s, "", s, "")
  {
    assert s != "" ==> s[..1][0] == s[0] && s[|s| - 1..][0] == s[|s| - 1];
  }

  /** Trimming takes off exactly the blanks at the two ends. */
  lemma {:induction false} TrimExactly(s: string) returns (front: string, back: string)
    ensures IsTrimmed(s, front, Trim(s), back)
    decreases |s|
  {
    hide IsTrimmed, IsSpace;
    if s == "" || !(IsSpace(s[0]) || IsSpace(s[|s| - 1])) {
      NoBlank(s);
      front, back := "", "";
    } else if IsSpace(s[0]) {
      front, back := TrimExactly(s[1..]);
      BlankInFront(s[0], s[1..], front, Trim(s), back);
      front := [s[0]] + front;
      assert s == [s[0]] + s[1..];
    } else {
      front, back := TrimExactly(s[..|s| - 1]);
      BlankBehind(s[|s| - 1], s[..|s| - 1], front, Trim(s), back);
      back := back + [s[|s| - 1]];
      assert s == s[..|s| - 1] + [s[|s| - 1]];
    }
  }
}
