/** Service calls as commands, and runs: any sequence of calls from the empty table. */
module Runs {
  import opened Wrappers
  import opened Hierarchy
  import opened Sheets
  import opened Workflow

  datatype Command =
    | SaveCall(user: User, contest: Id, dto: Entry)
    | AttachCall(user: User, at: Key, url: string)
    | SubmitCall(user: User, at: Key)
    | ApproveCall(user: User, at: Key, note: Option<string>)
    | ReturnCall(user: User, at: Key, request: ReturnRequest)
    | ResubmitWardCall(user: User, contest: Id)
    | ResubmitLgaCall(user: User, contest: Id)
    | BulkReturnCall(user: User, contests: seq<Id>, reason: string)
    | CommentCall(user: User, at: Key, text: string)

  ghost function Apply(g: Register, t: Table, c: Command): Result<Table>
    requires g.Valid()
  {
    match c
    case SaveCall(user, contest, dto) => Save(t, user, contest, dto)
    case AttachCall(user, at, url) => AttachPhoto(t, user, at, url)
    case SubmitCall(user, at) => Submit(t, user, at)
    case ApproveCall(user, at, note) => Approve(g, t, user, at, note)
    case ReturnCall(user, at, request) => Return(g, t, user, at, request)
    case ResubmitWardCall(user, contest) => Resubmit(g, t, user, contest, Ward, WARD_REPUBLISHED)
    case ResubmitLgaCall(user, contest) => Resubmit(g, t, user, contest, Lga, LGA_REPUBLISHED)
    case BulkReturnCall(user, contests, reason) => BulkReturn(g, t, user, contests, reason)
    case CommentCall(user, at, text) => Comment(g, t, user, at, text)
  }

  /** One call: a call that throws leaves the table as it was. */
  ghost function Exec(g: Register, t: Table, c: Command): Table
    requires g.Valid()
  {
    var r := Apply(g, t, c);
    if r.Ok? then r.value else t
  }

  ghost function Run(g: Register, t: Table, cs: seq<Command>): Table
    requires g.Valid()
    decreases |cs|
  {
    if cs == [] then t else Exec(g, Run(g, t, cs[..|cs| - 1]), cs[|cs| - 1])
  }

  /** Whether a call is about the given contest. */
  predicate Concerns(c: Command, contest: Id) {
    match c
    case SaveCall(_, own, _) => own == contest
    case AttachCall(_, at, _) => at.contest == contest
    case SubmitCall(_, at) => at.contest == contest
    case ApproveCall(_, at, _) => at.contest == contest
    case ReturnCall(_, at, _) => at.contest == contest
    case ResubmitWardCall(_, own) => own == contest
    case ResubmitLgaCall(_, own) => own == contest
    case BulkReturnCall(_, contests, _) => contest in contests
    case CommentCall(_, at, _) => at.contest == contest
  }
}
