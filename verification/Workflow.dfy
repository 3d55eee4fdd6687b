/**
 * The collation workflow, specified as a function from result tables to result tables:
 * one function per service call.  CollationService carries the calls out step by step.
 */
module Workflow {
  import opened Wrappers
  import opened Hierarchy
  import opened Sheets

  datatype Status = Draft | Submitted | Approved | Rejected

  datatype Action = SubmittedAction | ApprovedAction | RejectedAction | CommentedAction

  datatype LogEntry = LogEntry(
    action: Action, actor: Id, fromStatus: Status, toStatus: Status, comment: Option<string>)

  datatype Row = Row(
    sheet: Sheet,
    status: Status,
    rejectionReason: Option<string>,
    approvalComment: Option<string>,
    flaggedPus: seq<Id>,
    flaggedWards: seq<Id>,
    photos: seq<string>,
    log: seq<LogEntry>)

  /** A result row is identified by its contest, level and scope. */
  datatype Key = Key(contest: Id, level: Level, scope: Id)

  type Table = map<Key, Row>

  predicate Editable(s: Status) {
    s == Draft || s == Rejected
  }

  predicate Returnable(s: Status) {
    s == Submitted || s == Approved
  }

  function SheetsOf(t: Table): (sheets: map<Key, Sheet>)
    ensures sheets.Keys == t.Keys
  {
    map k | k in t :: t[k].sheet
  }

  // ---------------------------------------------------------------- roll-ups

  /** Only approved polling units count; above them every row that is not a draft does. */
  predicate Counts(level: Level, s: Status) {
    if level == Ward then s == Approved else s != Draft
  }

  /** Whether `k` is the place of a row that a roll-up at `at` could add up. */
  predicate Candidate(g: Register, at: Key, k: Key) {
    && k.contest == at.contest
    && Some(k.level) == Subordinate(at.level)
    && g.IsChild(at.level, at.scope, k.scope)
  }

  predicate Counted(t: Table, at: Key, k: Key) {
    k in t && Counts(at.level, t[k].status)
  }

  /** The rows a roll-up row adds up. */
  function ChildKeys(g: Register, t: Table, at: Key): set<Key> {
    set k | k in t && Candidate(g, at, k) && Counted(t, at, k)
  }

  function RollupStatus(existing: Option<Row>, clear: bool, keep: bool): Status {
    if keep then Rejected
    else if clear then Approved
    else if existing.Some? && existing.value.status == Rejected then Rejected
    else Approved
  }

  /** The row a roll-up writes over what was there. */
  function RollupRow(existing: Option<Row>, totals: Totals, clear: bool, keep: bool): Row {
    var status := RollupStatus(existing, clear, keep);
    match existing
    case None => Row(Published(totals), status, None, None, [], [], [], [])
    case Some(row) =>
      row.(sheet := Published(totals),
           status := status,
           rejectionReason := if clear || status != Rejected then None else row.rejectionReason,
           approvalComment := if clear then None else row.approvalComment,
           flaggedPus := if status == Rejected then row.flaggedPus else [],
           flaggedWards := if status == Rejected then row.flaggedWards else [])
  }

  function Find(t: Table, k: Key): Option<Row> {
    if k in t then Some(t[k]) else None
  }

  ghost function Rollup(g: Register, t: Table, at: Key, clear: bool, keep: bool): Table {
    var children := ChildKeys(g, t, at);
    if children == {} && at !in t then t
    else t[at := RollupRow(Find(t, at), Sum(children, SheetsOf(t)), clear, keep)]
  }

  /** Roll up a ward, then its LGA, then its state. */
  ghost function PublishWard(g: Register, t: Table, contest: Id, ward: Id, clear: bool, keep: bool): Table
    requires g.Valid() && ward in g.wardLga
  {
    var lga := g.wardLga[ward];
    var t1 := Rollup(g, t, Key(contest, Ward, ward), clear, keep);
    var t2 := Rollup(g, t1, Key(contest, Lga, lga), false, false);
    Rollup(g, t2, Key(contest, State, g.lgaState[lga]), false, false)
  }

  ghost function PublishLga(g: Register, t: Table, contest: Id, lga: Id, clear: bool, keep: bool): Table {
    var t1 := Rollup(g, t, Key(contest, Lga, lga), clear, keep);
    if lga in g.lgaState then Rollup(g, t1, Key(contest, State, g.lgaState[lga]), false, false) else t1
  }

  /** Republish everything a changed row is part of; a state or national row is part of nothing. */
  ghost function PublishAncestry(g: Register, t: Table, from: Key, clear: bool, keep: bool): Table
    requires g.Valid()
  {
    match from.level
    case PollingUnit =>
      if from.scope in g.puWard then PublishWard(g, t, from.contest, g.puWard[from.scope], clear, keep) else t
    case Ward =>
      if from.scope in g.wardLga then PublishWard(g, t, from.contest, from.scope, clear, keep) else t
    case Lga => PublishLga(g, t, from.contest, from.scope, clear, keep)
    case State | National => t
  }

  // ---------------------------------------------------------------- entry by officers

  /** A field of a request: left out (the stored value stays) or given. */
  datatype Patch<T> = Keep | Set(value: T) {
    function On(was: T): T {
      if Keep? then was else value
    }
  }

  datatype Entry = Entry(
    registeredVoters: Patch<Option<int>>,
    accreditedVoters: Patch<Option<int>>,
    ballotPapersIssued: Patch<Option<int>>,
    unusedBallotPapers: Patch<Option<int>>,
    spoiledBallotPapers: Patch<Option<int>>,
    votesCast: Patch<Option<int>>,
    invalidVotes: Patch<Option<int>>,
    usedBallotPapers: Patch<Option<int>>,
    partyResults: Patch<map<Party, Option<int>>>,
    photos: Patch<seq<string>>)

  function Entered(dto: Entry, was: Sheet): Sheet {
    Sheet(
      dto.registeredVoters.On(was.registeredVoters),
      dto.accreditedVoters.On(was.accreditedVoters),
      dto.ballotPapersIssued.On(was.ballotPapersIssued),
      dto.unusedBallotPapers.On(was.unusedBallotPapers),
      dto.spoiledBallotPapers.On(was.spoiledBallotPapers),
      dto.votesCast.On(was.votesCast),
      dto.invalidVotes.On(was.invalidVotes),
      dto.usedBallotPapers.On(was.usedBallotPapers),
      if dto.partyResults.Keep? then was.partyResults else Some(dto.partyResults.value))
  }

  function SavedRow(existing: Option<Row>, dto: Entry): Row {
    match existing
    case None => Row(Entered(dto, BLANK_SHEET), Draft, None, None, [], [], dto.photos.On([]), [])
    case Some(row) =>
      row.(sheet := Entered(dto, row.sheet), status := Draft, rejectionReason := None,
           photos := dto.photos.On(row.photos))
  }

  function Save(t: Table, user: User, contest: Id, dto: Entry): Result<Table> {
    match user.Posting()
    case None => Err(Forbidden)
    case Some(post) =>
      var at := Key(contest, post.level, post.scope);
      if post.level == Ward then Err(Forbidden)
      else if at in t && !Editable(t[at].status) then Err(BadRequest)
      else Ok(t[at := SavedRow(Find(t, at), dto)])
  }

  /** The error of asking for a row other than one's own; None when it is one's own. */
  function OwnershipError(t: Table, post: Post, at: Key): Option<Error> {
    if at !in t then Some(NotFound)
    else if at.level != post.level || at.scope != post.scope then Some(Forbidden)
    else None
  }

  function AttachPhoto(t: Table, user: User, at: Key, url: string): Result<Table> {
    match user.Posting()
    case None => Err(Forbidden)
    case Some(post) =>
      match OwnershipError(t, post, at)
      case Some(e) => Err(e)
      case None =>
        if !Editable(t[at].status) then Err(BadRequest)
        else Ok(t[at := t[at].(photos := t[at].photos + [url])])
  }

  function SubmittedRow(row: Row, actor: Id): Row {
    row.(status := Submitted, rejectionReason := None,
         log := row.log + [LogEntry(SubmittedAction, actor, row.status, Submitted, None)])
  }

  function Submit(t: Table, user: User, at: Key): Result<Table> {
    match user.Posting()
    case None => Err(Forbidden)
    case Some(post) =>
      if post.level == Ward then Err(Forbidden)
      else match OwnershipError(t, post, at)
        case Some(e) => Err(e)
        case None =>
          if !Editable(t[at].status) then Err(BadRequest)
          else if at.level == PollingUnit && t[at].photos == [] then Err(BadRequest)
          else Ok(t[at := SubmittedRow(t[at], user.sub)])
  }

  // ---------------------------------------------------------------- approval

  function ApprovedRow(row: Row, actor: Id, comment: Option<string>): Row {
    row.(status := Approved, rejectionReason := None, approvalComment := comment, flaggedPus := [],
         log := row.log + [LogEntry(ApprovedAction, actor, Submitted, Approved, comment)])
  }

  ghost function Approve(g: Register, t: Table, user: User, at: Key, comment: Option<string>): Result<Table>
    requires g.Valid()
  {
    match user.Posting()
    case None => Err(Forbidden)
    case Some(post) =>
      if post.level != Ward then Err(Forbidden)
      else if at !in t then Err(NotFound)
      else if t[at].status != Submitted then Err(BadRequest)
      else if at.level != PollingUnit then Err(Forbidden)
      else if !g.IsChild(Ward, post.scope, at.scope) then Err(Forbidden)
      else Ok(PublishAncestry(g, t[at := ApprovedRow(t[at], user.sub, comment)], at, true, false))
  }

  // ---------------------------------------------------------------- returns for correction

  /** Whether an officer may review a row: anything below the own scope, or the own row. */
  predicate InReviewScope(g: Register, post: Post, at: Key) {
    || post.level == National
    || (at.level == post.level && at.scope == post.scope)
    || match post.level
       case PollingUnit => false
       case Ward => at.level == PollingUnit && g.IsChild(Ward, post.scope, at.scope)
       case Lga =>
         || (at.level == Ward && g.IsChild(Lga, post.scope, at.scope))
         || (at.level == PollingUnit && g.LgaOfPu(at.scope) == Some(post.scope))
       case State =>
         || (at.level == Lga && g.IsChild(State, post.scope, at.scope))
         || (at.level == Ward && g.StateOfWard(at.scope) == Some(post.scope))
         || (at.level == PollingUnit && g.StateOfPu(at.scope) == Some(post.scope))
       case National => true
  }

  /** The pairs (own level, level of the row) at which an officer may return a row. */
  predicate MayReturn(own: Level, level: Level) {
    || (own == Ward && level == PollingUnit)
    || (own == Lga && level == Ward)
    || (own == Lga && level == PollingUnit)
    || (own == State && level == Lga)
    || (own == National && level == State)
  }

  predicate WardIsReturned(g: Register, t: Table, contest: Id, pu: Id) {
    && pu in g.puWard
    && var ward := Key(contest, Ward, g.puWard[pu]);
       ward in t && t[ward].status == Rejected
  }

  predicate IsSpace(c: char) {
    c == ' ' || c == '\t' || c == '\n' || c == '\r'
  }

  function Trim(s: string): string {
    if s == "" then ""
    else if IsSpace(s[0]) then Trim(s[1..])
    else if IsSpace(s[|s| - 1]) then Trim(s[..|s| - 1])
    else s
  }

  /** Trimmed, non-blank, each once, in order of first occurrence. */
  function CleanIds(ids: seq<Id>): seq<Id> {
    if ids == [] then []
    else
      var before := CleanIds(ids[..|ids| - 1]);
      var id := Trim(ids[|ids| - 1]);
      if id == "" || id in before then before else before + [id]
  }

  /** The flags a return sets on children of the returned row, or an error if one is not a child. */
  function FlagsFor(g: Register, at: Key, asked: bool, ids: seq<Id>): Result<seq<Id>> {
    if !asked || ids == [] then Ok([])
    else if forall id | id in CleanIds(ids) :: g.IsChild(at.level, at.scope, id) then Ok(CleanIds(ids))
    else Err(BadRequest)
  }

  datatype ReturnRequest = ReturnRequest(reason: string, affectedPus: seq<Id>, affectedWards: seq<Id>)

  function ReturnedRow(row: Row, actor: Id, reason: string): Row {
    row.(status := Rejected, rejectionReason := Some(reason), approvalComment := None,
         log := row.log + [LogEntry(RejectedAction, actor, row.status, Rejected, Some(reason))])
  }

  function WithFlags(row: Row, pus: seq<Id>, wards: seq<Id>): Row {
    row.(flaggedPus := if pus != [] then pus else row.flaggedPus,
         flaggedWards := if wards != [] then wards else row.flaggedWards)
  }

  /** The rows of the given scopes that can still be returned. */
  function OpenKeys(t: Table, contest: Id, level: Level, ids: seq<Id>): set<Key> {
    set k | k in t && k.contest == contest && k.level == level && k.scope in ids && Returnable(t[k].status)
  }

  function ReturnRows(t: Table, ks: set<Key>, actor: Id, reason: string): Table {
    map k | k in t :: if k in ks then ReturnedRow(t[k], actor, reason) else t[k]
  }

  /** Whether the user may return the row at all, and what error says no. */
  function ReturnError(g: Register, t: Table, user: User, at: Key): Option<Error> {
    if at !in t then Some(NotFound)
    else if !user.IsAdmin() && user.Posting().None? then Some(Forbidden)
    else if !Returnable(t[at].status) then Some(BadRequest)
    else
      var own := LevelForRole(user.role);
      if own == Some(Ward) && at.level == PollingUnit && t[at].status == Approved
         && !WardIsReturned(g, t, at.contest, at.scope)
      then Some(BadRequest)
      else if user.IsAdmin() then None
      else if !MayReturn(user.Posting().value.level, at.level) then Some(Forbidden)
      else if !InReviewScope(g, user.Posting().value, at) then Some(Forbidden)
      else None
  }

  function AsksForPus(user: User, at: Key): bool {
    at.level == Ward && (user.IsAdmin() || LevelForRole(user.role) == Some(Lga))
  }

  function AsksForWards(user: User, at: Key): bool {
    at.level == Lga && (user.IsAdmin() || LevelForRole(user.role) == Some(State))
  }

  /** The table after the row and its flagged children are marked returned, before republishing. */
  function MarkReturned(t: Table, at: Key, actor: Id, reason: string, pus: seq<Id>, wards: seq<Id>): Table
    requires at in t
  {
    var t1 := t[at := WithFlags(ReturnedRow(t[at], actor, reason), pus, wards)];
    var t2 := ReturnRows(t1, OpenKeys(t1, at.contest, PollingUnit, pus), actor, reason);
    ReturnRows(t2, OpenKeys(t2, at.contest, Ward, wards), actor, reason)
  }

  ghost function Return(g: Register, t: Table, user: User, at: Key, dto: ReturnRequest): Result<Table>
    requires g.Valid()
  {
    match ReturnError(g, t, user, at)
    case Some(e) => Err(e)
    case None =>
      match FlagsFor(g, at, AsksForPus(user, at), dto.affectedPus)
      case Err(e) => Err(e)
      case Ok(pus) =>
        match FlagsFor(g, at, AsksForWards(user, at), dto.affectedWards)
        case Err(e) => Err(e)
        case Ok(wards) =>
          Ok(PublishAncestry(g, MarkReturned(t, at, user.sub, dto.reason, pus, wards), at,
                             false, at.level != PollingUnit))
  }

  // ---------------------------------------------------------------- resubmission after a return

  function RepublishedRow(row: Row, actor: Id, comment: string): Row {
    row.(log := row.log + [LogEntry(ApprovedAction, actor, Rejected, row.status, Some(comment))])
  }

  ghost function Resubmit(g: Register, t: Table, user: User, contest: Id, level: Level, comment: string): Result<Table>
    requires g.Valid()
  {
    match user.Posting()
    case None => Err(Forbidden)
    case Some(post) =>
      var at := Key(contest, level, post.scope);
      if post.level != level then Err(Forbidden)
      else if at !in t then Err(BadRequest)
      else if t[at].status != Rejected then Err(BadRequest)
      else
        var t1 := PublishAncestry(g, t, at, true, false);
        if at in t1 then Ok(t1[at := RepublishedRow(t1[at], user.sub, comment)]) else Ok(t1)
  }

  const WARD_REPUBLISHED := "Republished ward totals after correction"
  const LGA_REPUBLISHED := "Republished LGA totals after correction"

  // ---------------------------------------------------------------- comments

  function CommentedRow(row: Row, actor: Id, comment: string): Row {
    row.(log := row.log + [LogEntry(CommentedAction, actor, row.status, row.status, Some(comment))])
  }

  function Comment(g: Register, t: Table, user: User, at: Key, comment: string): Result<Table> {
    if |Trim(comment)| < 3 then Err(BadRequest)
    else if at !in t then Err(NotFound)
    else if !user.IsAdmin() && user.Posting().None? then Err(Forbidden)
    else if !user.IsAdmin() && user.Posting().value.level !in {Lga, State, National} then Err(Forbidden)
    else if !user.IsAdmin() && !InReviewScope(g, user.Posting().value, at) then Err(Forbidden)
    else Ok(t[at := CommentedRow(t[at], user.sub, Trim(comment))])
  }

  // ---------------------------------------------------------------- bulk return of flagged polling units

  const BULK_REASON := "Returned by ward after LGA flagged this unit for correction"

  /** The contests, each once, in which the ward was returned with flagged polling units. */
  function FlaggedContests(t: Table, contests: seq<Id>, ward: Id): seq<Id> {
    if contests == [] then []
    else
      var before := FlaggedContests(t, contests[..|contests| - 1], ward);
      var at := Key(contests[|contests| - 1], Ward, ward);
      if at in t && t[at].status == Rejected && t[at].flaggedPus != [] && at.contest !in before
      then before + [at.contest] else before
  }

  function BulkReason(reason: string, row: Row): string {
    if Trim(reason) != "" then Trim(reason)
    else if row.rejectionReason.Or("") != "" then row.rejectionReason.value
    else BULK_REASON
  }

  /** One contest's part: all open flagged units returned at once, then one republication. */
  ghost function BulkReturnIn(g: Register, t: Table, at: Key, row: Row, actor: Id, reason: string): Table
    requires g.Valid() && at.level == Ward
  {
    var ks := OpenKeys(t, at.contest, PollingUnit, row.flaggedPus);
    if ks == {} then t
    else PublishAncestry(g, ReturnRows(t, ks, actor, BulkReason(reason, row)), at, false, false)
  }

  /** The contests one after the other; what was flagged is read once, before the first. */
  ghost function BulkReturnAll(
      g: Register, t: Table, start: Table, contests: seq<Id>, ward: Id, actor: Id, reason: string): Table
    requires g.Valid()
    requires forall c :: c in contests ==> Key(c, Ward, ward) in start
  {
    if contests == [] then t
    else
      var before := BulkReturnAll(g, t, start, contests[..|contests| - 1], ward, actor, reason);
      var at := Key(contests[|contests| - 1], Ward, ward);
      BulkReturnIn(g, before, at, start[at], actor, reason)
  }

  lemma NoRepeatsAppend<T>(s: seq<T>, x: T)
    requires NoRepeats(s) && x !in s
    ensures NoRepeats(s + [x])
  {
  }

  lemma {:induction false} FlaggedContestsAreReturned(t: Table, contests: seq<Id>, ward: Id)
    ensures NoRepeats(FlaggedContests(t, contests, ward))
    ensures forall c :: c in FlaggedContests(t, contests, ward) ==>
      && c in contests && Key(c, Ward, ward) in t
      && t[Key(c, Ward, ward)].status == Rejected && t[Key(c, Ward, ward)].flaggedPus != []
  {
    if contests == [] {
    } else {
      var n := |contests| - 1;
      FlaggedContestsAreReturned(t, contests[..n], ward);
      if contests[n] !in FlaggedContests(t, contests[..n], ward) {
        NoRepeatsAppend(FlaggedContests(t, contests[..n], ward), contests[n]);
      }
    }
  }

  ghost function BulkReturn(g: Register, t: Table, user: User, contests: seq<Id>, reason: string): Result<Table>
    requires g.Valid()
  {
    match user.Posting()
    case None => Err(Forbidden)
    case Some(post) =>
      FlaggedContestsAreReturned(t, contests, post.scope);
      if post.level != Ward then Err(Forbidden)
      else if FlaggedContests(t, contests, post.scope) == [] then Err(BadRequest)
      else Ok(BulkReturnAll(g, t, t, FlaggedContests(t, contests, post.scope), post.scope, user.sub, reason))
  }
}
