/**
 * The approval pipeline of a state, computed in two ways: unit by unit per LGA and then added up over
 * the state's LGAs, or from counts grouped by state and status.
 */
module Pipelines {
  import opened Wrappers
  import opened Hierarchy
  import opened Workflow
  import opened Grouping

  datatype Pipeline = Pipeline(
    total: nat, submitted: nat, wardVerified: nat, lgaApproved: nat, stateApproved: nat, rejected: nat, notStarted: nat)

  const NONE_YET := Pipeline(0, 0, 0, 0, 0, 0, 0)

  function Plus(a: Pipeline, b: Pipeline): Pipeline {
    Pipeline(
      a.total + b.total, a.submitted + b.submitted, a.wardVerified + b.wardVerified, a.lgaApproved + b.lgaApproved,
      a.stateApproved + b.stateApproved, a.rejected + b.rejected, a.notStarted + b.notStarted)
  }

  /** What one polling unit adds; no row counts as not started. */
  function Stage(status: Option<Status>): Pipeline {
    match status
    case None | Some(Draft) => Pipeline(1, 0, 0, 0, 0, 0, 1)
    case Some(Submitted) => Pipeline(1, 1, 0, 0, 0, 0, 0)
    case Some(Rejected) => Pipeline(1, 1, 0, 0, 0, 1, 0)
    case Some(Approved) => Pipeline(1, 1, 1, 1, 1, 0, 0)
  }

  /** The status of each unit that has a row; there is one row to a unit. */
  type Statuses = map<Id, Status>

  function StatusOf(statuses: Statuses, unit: Id): Option<Status> {
    if unit in statuses then Some(statuses[unit]) else None
  }

  ghost function StageIn(statuses: Statuses): Id -> Pipeline {
    unit => Stage(StatusOf(statuses, unit))
  }

  ghost function PipelineOf(units: set<Id>, statuses: Statuses): Pipeline {
    Total(NONE_YET, Plus, units, StageIn(statuses))
  }

  lemma PipelinesAdd()
    ensures Adds(NONE_YET, Plus)
  {
  }

  function Having(units: set<Id>, statuses: Statuses, status: Status): set<Id> {
    set u | u in units && StatusOf(statuses, u) == Some(status)
  }

  /** The pipeline in figures; what is not started is the rest. */
  ghost function Counted(units: set<Id>, statuses: Statuses): Pipeline {
    var submitted, approved, rejected :=
      |Having(units, statuses, Submitted)|, |Having(units, statuses, Approved)|, |Having(units, statuses, Rejected)|;
    HavingIsPart(units, statuses);
    var all := submitted + approved + rejected;
    Pipeline(|units|, all, approved, approved, approved, rejected, |units| - all)
  }

  lemma {:induction false} HavingIsPart(units: set<Id>, statuses: Statuses)
    ensures |Having(units, statuses, Submitted)| + |Having(units, statuses, Approved)|
      + |Having(units, statuses, Rejected)| <= |units|
    decreases units
  {
    if u :| u in units {
      HavingIsPart(units - {u}, statuses);
      HavingWithout(units, statuses, u, Submitted);
      HavingWithout(units, statuses, u, Approved);
      HavingWithout(units, statuses, u, Rejected);
    }
  }

  lemma HavingWithout(units: set<Id>, statuses: Statuses, u: Id, status: Status)
    requires u in units
    ensures |Having(units, statuses, status)|
      == |Having(units - {u}, statuses, status)| + if StatusOf(statuses, u) == Some(status) then 1 else 0
  {
    var rest := Having(units - {u}, statuses, status);
    assert Having(units, statuses, status) == if StatusOf(statuses, u) == Some(status) then rest + {u} else rest;
  }

  lemma CountedWithout(units: set<Id>, statuses: Statuses, u: Id)
    requires u in units
    ensures Counted(units, statuses) == Plus(Stage(StatusOf(statuses, u)), Counted(units - {u}, statuses))
  {
    HavingWithout(units, statuses, u, Submitted);
    HavingWithout(units, statuses, u, Approved);
    HavingWithout(units, statuses, u, Rejected);
    hide Having;
  }

  /** Adding up the units one by one gives the figures. */
  lemma {:induction false} PipelineInFigures(units: set<Id>, statuses: Statuses)
    ensures PipelineOf(units, statuses) == Counted(units, statuses)
    decreases units
  {
    PipelinesAdd();
    if u :| u in units {
      hide Plus, Counted, Stage, Adds;
      PipelineInFigures(units - {u}, statuses);
      TotalTakeOut(NONE_YET, Plus, units, StageIn(statuses), u);
      CountedWithout(units, statuses, u);
    }
  }

  // ---------------------------------------------------------------- unit by unit, per LGA

  /** An empty pipeline for each id. */
  method BlankPipelines(ids: seq<Id>) returns (pipelines: map<Id, Pipeline>)
    ensures pipelines.Keys == Before(ids, |ids|)
    ensures forall id :: id in pipelines ==> pipelines[id] == NONE_YET
  {
    pipelines := map[];
    for i := 0 to |ids|
      invariant pipelines.Keys == Before(ids, i)
      invariant forall id :: id in pipelines ==> pipelines[id] == NONE_YET
    {
      pipelines := pipelines[ids[i] := Pipeline(0, 0, 0, 0, 0, 0, 0)];
    }
  }

  /** Each pipeline counts those of the units that are in its group. */
  ghost predicate CountsGroups(pipelines: map<Id, Pipeline>, units: set<Id>, key: map<Id, Id>, statuses: Statuses) {
    forall k :: k in pipelines ==> pipelines[k] == PipelineOf(Group(units, key, k), statuses)
  }

  method LoadApprovalPipelineByLga(pus: seq<Id>, lgaOf: map<Id, Id>, statuses: Statuses, lgaIds: seq<Id>)
    returns (pipelines: map<Id, Pipeline>)
    requires NoRepeats(pus) && forall pu :: pu in pus ==> pu in lgaOf
    ensures pipelines.Keys == Before(lgaIds, |lgaIds|)
    ensures CountsGroups(pipelines, Before(pus, |pus|), lgaOf, statuses)
  {
    hide CountsGroups, Before, NoRepeats, StatusOf;
    pipelines := BlankPipelines(lgaIds);
    NothingCounted(pipelines, pus, lgaOf, statuses);
    for i := 0 to |pus|
      invariant pipelines.Keys == Before(lgaIds, |lgaIds|)
      invariant CountsGroups(pipelines, Before(pus, i), lgaOf, statuses)
    {
      BeforeNext(pus, i);
      var status := StatusOf(statuses, pus[i]);
      pipelines := CountUnit(pipelines, pus[i], lgaOf[pus[i]], status, Before(pus, i), lgaOf, statuses);
    }
  }

  method CountUnit(pipelines: map<Id, Pipeline>, pu: Id, lga: Id, status: Option<Status>,
      ghost units: set<Id>, ghost lgaOf: map<Id, Id>, ghost statuses: Statuses) returns (counted: map<Id, Pipeline>)
    requires pu in lgaOf && lgaOf[pu] == lga && status == StatusOf(statuses, pu)
    requires pu !in units && CountsGroups(pipelines, units, lgaOf, statuses)
    ensures counted.Keys == pipelines.Keys && CountsGroups(counted, units + {pu}, lgaOf, statuses)
  {
    hide CountsGroups, Stage, Plus;
    counted := pipelines;
    OneMoreCounted(pipelines, units, lgaOf, statuses, pu);
    if lga in pipelines {
      var bumped := Bump(pipelines[lga], status);
      counted := pipelines[lga := bumped];
    }
  }

  lemma NothingCounted(pipelines: map<Id, Pipeline>, pus: seq<Id>, key: map<Id, Id>, statuses: Statuses)
    requires forall k :: k in pipelines ==> pipelines[k] == NONE_YET
    ensures CountsGroups(pipelines, Before(pus, 0), key, statuses)
  {
    assert Before(pus, 0) == {};
    forall k | k in pipelines
      ensures Group({}, key, k) == {}
    {
    }
  }

  lemma OneMoreCounted(pipelines: map<Id, Pipeline>, units: set<Id>, key: map<Id, Id>, statuses: Statuses, u: Id)
    requires CountsGroups(pipelines, units, key, statuses) && u !in units && u in key
    ensures
      var k := key[u];
      CountsGroups(
        if k in pipelines then pipelines[k := Plus(pipelines[k], Stage(StatusOf(statuses, u)))] else pipelines,
        units + {u}, key, statuses)
  {
    hide Plus, Stage;
    forall k | k in pipelines
      ensures PipelineOf(Group(units + {u}, key, k), statuses)
        == if key[u] == k then Plus(pipelines[k], Stage(StatusOf(statuses, u))) else pipelines[k]
    {
      GroupNext(units, key, u, k, statuses);
    }
  }

  /** One more unit belongs to its own group only. */
  lemma GroupNext(ids: set<Id>, key: map<Id, Id>, i: Id, k: Id, statuses: Statuses)
    requires i !in ids && i in key
    ensures PipelineOf(Group(ids + {i}, key, k), statuses)
      == if key[i] == k then Plus(PipelineOf(Group(ids, key, k), statuses), Stage(StatusOf(statuses, i)))
         else PipelineOf(Group(ids, key, k), statuses)
  {
    PipelinesAdd();
    if key[i] == k {
      assert Group(ids + {i}, key, k) == Group(ids, key, k) + {i};
      TotalAdd(NONE_YET, Plus, Group(ids, key, k), StageIn(statuses), i);
    } else {
      assert Group(ids + {i}, key, k) == Group(ids, key, k);
    }
  }

  /** Count one unit in its LGA's pipeline. */
  method Bump(pipeline: Pipeline, status: Option<Status>) returns (p: Pipeline)
    ensures p == Plus(pipeline, Stage(status))
  {
    p := pipeline.(total := pipeline.total + 1);
    if status.None? || status.value == Draft {
      return p.(notStarted := p.notStarted + 1);
    }
    if status.value == Rejected {
      return p.(rejected := p.rejected + 1, submitted := p.submitted + 1);
    }
    if status.value == Submitted || status.value == Approved {
      p := p.(submitted := p.submitted + 1);
    }
    if status.value == Approved {
      p := p.(
        wardVerified := p.wardVerified + 1, lgaApproved := p.lgaApproved + 1, stateApproved := p.stateApproved + 1);
    }
  }

  // ---------------------------------------------------------------- added up over a state's LGAs

  /** The pipeline of an LGA; none is as good as an empty one. */
  ghost function PipelineAt(pipelines: map<Id, Pipeline>): Id -> Pipeline {
    lga => if lga in pipelines then pipelines[lga] else NONE_YET
  }

  ghost function AddedUp(lgaIds: seq<Id>, pipelines: map<Id, Pipeline>): Pipeline {
    Total(NONE_YET, Plus, Before(lgaIds, |lgaIds|), PipelineAt(pipelines))
  }

  method AggregatePipelineToState(lgaIdsByState: map<Id, seq<Id>>, pipelines: map<Id, Pipeline>)
    returns (byState: map<Id, Pipeline>)
    requires forall state :: state in lgaIdsByState ==> NoRepeats(lgaIdsByState[state])
    ensures byState.Keys == lgaIdsByState.Keys
    ensures forall state :: state in byState ==> byState[state] == AddedUp(lgaIdsByState[state], pipelines)
  {
    hide AddedUp;
    byState := map[];
    var states := lgaIdsByState.Keys;
    while states != {}
      invariant states <= lgaIdsByState.Keys && byState.Keys == lgaIdsByState.Keys - states
      invariant forall state :: state in byState ==> byState[state] == AddedUp(lgaIdsByState[state], pipelines)
      decreases states
    {
      var state :| state in states;
      var agg := AddUp(lgaIdsByState[state], pipelines);
      byState := byState[state := agg];
      states := states - {state};
    }
  }

  method AddUp(lgaIds: seq<Id>, pipelines: map<Id, Pipeline>) returns (agg: Pipeline)
    requires NoRepeats(lgaIds)
    ensures agg == AddedUp(lgaIds, pipelines)
  {
    hide Plus, Adds;
    PipelinesAdd();
    agg := Pipeline(0, 0, 0, 0, 0, 0, 0);
    for i := 0 to |lgaIds|
      invariant agg == Total(NONE_YET, Plus, Before(lgaIds, i), PipelineAt(pipelines))
    {
      BeforeNext(lgaIds, i);
      TotalAdd(NONE_YET, Plus, Before(lgaIds, i), PipelineAt(pipelines), lgaIds[i]);
      PlusNothing(agg);
      if lgaIds[i] in pipelines {
        agg := AddFields(agg, pipelines[lgaIds[i]]);
      }
    }
  }

  lemma PlusNothing(p: Pipeline)
    ensures Plus(p, NONE_YET) == p
  {
  }

  method AddFields(agg: Pipeline, p: Pipeline) returns (sum: Pipeline)
    ensures sum == Plus(agg, p)
  {
    sum := Pipeline(
      agg.total + p.total, agg.submitted + p.submitted, agg.wardVerified + p.wardVerified,
      agg.lgaApproved + p.lgaApproved, agg.stateApproved + p.stateApproved, agg.rejected + p.rejected,
      agg.notStarted + p.notStarted);
  }

  // ---------------------------------------------------------------- from grouped counts

  datatype StatusRow = StatusRow(state: Id, status: Status, cnt: nat)

  function CountFor(rows: seq<StatusRow>, state: Id, status: Status): nat {
    if rows == [] then 0
    else
      var last := rows[|rows| - 1];
      CountFor(rows[..|rows| - 1], state, status) + if last.state == state && last.status == status then last.cnt else 0
  }

  /** The pipeline of a state after so many of the status rows, before the rest is worked out. */
  function Partly(total: nat, rows: seq<StatusRow>, state: Id): Pipeline {
    var submitted, approved, rejected :=
      CountFor(rows, state, Submitted), CountFor(rows, state, Approved), CountFor(rows, state, Rejected);
    Pipeline(total, submitted + approved + rejected, approved, approved, approved, rejected, 0)
  }

  method CountStatus(pipeline: Pipeline, status: Status, n: nat) returns (p: Pipeline)
    ensures p == Plus(pipeline, RowStage(status, n))
  {
    p := pipeline;
    if status == Rejected {
      p := p.(rejected := p.rejected + n, submitted := p.submitted + n);
    } else if status == Submitted {
      p := p.(submitted := p.submitted + n);
    } else if status == Approved {
      p := p.(submitted := p.submitted + n, wardVerified := p.wardVerified + n,
        lgaApproved := p.lgaApproved + n, stateApproved := p.stateApproved + n);
    }
  }

  method SetTotals(blank: map<Id, Pipeline>, totals: seq<TotalRow>) returns (pipelines: map<Id, Pipeline>)
    requires forall state :: state in blank ==> blank[state] == NONE_YET
    requires forall row :: row in totals ==> row.state in blank
    ensures pipelines.Keys == blank.Keys
    ensures forall state :: state in pipelines ==> pipelines[state] == NONE_YET.(total := TotalFor(totals, state))
  {
    pipelines := blank;
    for i := 0 to |totals|
      invariant pipelines.Keys == blank.Keys
      invariant forall state :: state in pipelines ==>
        pipelines[state] == NONE_YET.(total := TotalFor(totals[..i], state))
    {
      var row := totals[i];
      assert row in totals && totals[..i + 1][..i] == totals[..i];
      pipelines := pipelines[row.state := pipelines[row.state].(total := row.total)];
    }
    assert totals[..|totals|] == totals;
  }

  method AddStatuses(blank: map<Id, Pipeline>, byStatus: seq<StatusRow>) returns (pipelines: map<Id, Pipeline>)
    requires forall state :: state in blank ==> blank[state] == NONE_YET.(total := blank[state].total)
    requires forall row :: row in byStatus ==> row.state in blank
    ensures pipelines.Keys == blank.Keys
    ensures forall state :: state in pipelines ==> pipelines[state] == Partly(blank[state].total, byStatus, state)
  {
    pipelines := blank;
    for i := 0 to |byStatus|
      invariant pipelines.Keys == blank.Keys
      invariant forall state :: state in pipelines ==>
        pipelines[state] == Partly(blank[state].total, byStatus[..i], state)
    {
      hide Partly;
      var row := byStatus[i];
      assert row in byStatus && byStatus[..i + 1][..i] == byStatus[..i];
      var counted := CountStatus(pipelines[row.state], row.status, row.cnt);
      forall state | state in blank
        ensures Partly(blank[state].total, byStatus[..i + 1], state)
          == if state == row.state then counted else Partly(blank[state].total, byStatus[..i], state)
      {
        PartlyNext(blank[state].total, byStatus, i, state);
      }
      pipelines := pipelines[row.state := counted];
    }
    assert byStatus[..|byStatus|] == byStatus;
  }

  /** What one status row adds to the pipeline of its state. */
  function RowStage(status: Status, n: nat): Pipeline {
    match status
    case Draft => NONE_YET
    case Submitted => Pipeline(0, n, 0, 0, 0, 0, 0)
    case Rejected => Pipeline(0, n, 0, 0, 0, n, 0)
    case Approved => Pipeline(0, n, n, n, n, 0, 0)
  }

  lemma PartlyNext(total: nat, rows: seq<StatusRow>, i: nat, state: Id)
    requires i < |rows|
    ensures Partly(total, rows[..i + 1], state)
      == if rows[i].state == state then Plus(Partly(total, rows[..i], state), RowStage(rows[i].status, rows[i].cnt))
         else Partly(total, rows[..i], state)
  {
    assert rows[..i + 1][..i] == rows[..i];
  }

  function Filled(p: Pipeline): Pipeline {
    p.(notStarted := if p.total > p.submitted then p.total - p.submitted else 0)
  }

  /** What the grouped counts come to for a state. */
  function FromCounts(totals: seq<TotalRow>, byStatus: seq<StatusRow>, state: Id): Pipeline {
    Filled(Partly(TotalFor(totals, state), byStatus, state))
  }

  method LoadApprovalPipelineByState(stateIds: seq<Id>, totals: seq<TotalRow>, byStatus: seq<StatusRow>)
    returns (pipelines: map<Id, Pipeline>)
    requires forall row :: row in totals ==> row.state in stateIds
    requires forall row :: row in byStatus ==> row.state in stateIds
    ensures pipelines.Keys == Before(stateIds, |stateIds|)
    ensures forall state :: state in pipelines ==> pipelines[state] == FromCounts(totals, byStatus, state)
  {
    hide Partly, Filled;
    pipelines := BlankPipelines(stateIds);
    assert forall state :: state in stateIds ==> state in pipelines;
    pipelines := SetTotals(pipelines, totals);
    pipelines := AddStatuses(pipelines, byStatus);
    pipelines := FillNotStarted(pipelines);
  }

  method FillNotStarted(pipelines: map<Id, Pipeline>) returns (filled: map<Id, Pipeline>)
    ensures filled.Keys == pipelines.Keys
    ensures forall state :: state in filled ==> filled[state] == Filled(pipelines[state])
  {
    filled := pipelines;
    var states := pipelines.Keys;
    while states != {}
      invariant states <= pipelines.Keys && filled.Keys == pipelines.Keys
      invariant forall state :: state in filled ==>
        filled[state] == if state in states then pipelines[state] else Filled(pipelines[state])
      decreases states
    {
      var state :| state in states;
      var p := filled[state];
      filled := filled[state := p.(notStarted := if 0 < p.total - p.submitted then p.total - p.submitted else 0)];
      states := states - {state};
    }
  }

  // ---------------------------------------------------------------- the rows of all contests

  /** The statuses by contest and unit. */
  type Filed = map<(Id, Id), Status>

  /** For each unit with rows, the contest of the row that is read last and so replaces the others. */
  ghost predicate PicksRows(filed: Filed, last: map<Id, Id>) {
    (forall k :: k in filed ==> k.1 in last) && forall u :: u in last ==> (last[u], u) in filed
  }

  /** The status a unit is taken to have. */
  function LastStatuses(filed: Filed, last: map<Id, Id>): Statuses {
    map u | u in last && (last[u], u) in filed :: filed[(last[u], u)]
  }

  function RowsHaving(units: set<Id>, filed: Filed, status: Status): set<(Id, Id)> {
    set k | k in filed && k.1 in units && filed[k] == status
  }

  /** The queries count the units of a state and all their rows by status, in whatever contest. */
  ghost predicate GroupedCounts(
      totals: seq<TotalRow>, byStatus: seq<StatusRow>, units: set<Id>, filed: Filed, state: Id) {
    && TotalFor(totals, state) == |units|
    && forall status :: CountFor(byStatus, state, status) == |RowsHaving(units, filed, status)|
  }

  /** No unit has a row, other than a DRAFT, besides the one that is read last. */
  ghost predicate OneRowEach(units: set<Id>, filed: Filed, last: map<Id, Id>) {
    forall k :: k in filed && k.1 in units && filed[k] != Draft ==> k.1 in last && last[k.1] == k.0
  }

  /** The rows read last that have a status. */
  function LastHaving(units: set<Id>, filed: Filed, last: map<Id, Id>, status: Status): set<(Id, Id)> {
    set k | k in RowsHaving(units, filed, status) && k.1 in last && last[k.1] == k.0
  }

  lemma LastWithout(units: set<Id>, filed: Filed, last: map<Id, Id>, status: Status, u: Id)
    requires u in units
    ensures |LastHaving(units, filed, last, status)| == |LastHaving(units - {u}, filed, last, status)|
      + if StatusOf(LastStatuses(filed, last), u) == Some(status) then 1 else 0
  {
    var rest := LastHaving(units - {u}, filed, last, status);
    if StatusOf(LastStatuses(filed, last), u) == Some(status) {
      assert LastHaving(units, filed, last, status) == rest + {(last[u], u)};
    } else {
      assert LastHaving(units, filed, last, status) == rest;
    }
  }

  lemma {:induction false} LastAreCounted(units: set<Id>, filed: Filed, last: map<Id, Id>, status: Status)
    ensures |LastHaving(units, filed, last, status)| == |Having(units, LastStatuses(filed, last), status)|
    decreases units
  {
    if u :| u in units {
      hide LastHaving, LastStatuses, Having;
      LastAreCounted(units - {u}, filed, last, status);
      HavingWithout(units, LastStatuses(filed, last), u, status);
      LastWithout(units, filed, last, status, u);
    } else {
      assert LastHaving(units, filed, last, status) == {} && Having(units, LastStatuses(filed, last), status) == {};
    }
  }

  /** Counting all rows is counting those read last, exactly if there are no others. */
  lemma CountsExactly(units: set<Id>, filed: Filed, last: map<Id, Id>, status: Status)
    ensures |Having(units, LastStatuses(filed, last), status)| <= |RowsHaving(units, filed, status)|
    ensures |Having(units, LastStatuses(filed, last), status)| == |RowsHaving(units, filed, status)|
      <==> RowsHaving(units, filed, status) == LastHaving(units, filed, last, status)
  {
    LastAreCounted(units, filed, last, status);
    var all, read := RowsHaving(units, filed, status), LastHaving(units, filed, last, status);
    assert all == read + (all - read);
    if |read| == |all| {
      SameSize(read, all);
    }
  }

  lemma OneRowExactly(units: set<Id>, filed: Filed, last: map<Id, Id>)
    ensures OneRowEach(units, filed, last) <==>
      forall status :: status != Draft ==> RowsHaving(units, filed, status) == LastHaving(units, filed, last, status)
  {
    if OneRowEach(units, filed, last) {
      forall status | status != Draft
        ensures RowsHaving(units, filed, status) == LastHaving(units, filed, last, status)
      {
      }
    }
    if forall status :: status != Draft ==> RowsHaving(units, filed, status) == LastHaving(units, filed, last, status) {
      forall k | k in filed && k.1 in units && filed[k] != Draft
        ensures k.1 in last && last[k.1] == k.0
      {
        assert k in RowsHaving(units, filed, filed[k]);
        assert k in LastHaving(units, filed, last, filed[k]);
      }
    }
  }

  /** The grouped counts give the pipeline of the rows read last exactly if there are no others. */
  lemma FromCountsExactly(
      totals: seq<TotalRow>, byStatus: seq<StatusRow>, units: set<Id>, filed: Filed, last: map<Id, Id>, state: Id)
    requires GroupedCounts(totals, byStatus, units, filed, state)
    ensures FromCounts(totals, byStatus, state) == PipelineOf(units, LastStatuses(filed, last))
      <==> OneRowEach(units, filed, last)
  {
    hide RowsHaving, LastHaving, Having, LastStatuses, OneRowEach, PipelineOf;
    CountsExactly(units, filed, last, Submitted);
    CountsExactly(units, filed, last, Approved);
    CountsExactly(units, filed, last, Rejected);
    PipelineInFigures(units, LastStatuses(filed, last));
    HavingIsPart(units, LastStatuses(filed, last));
    OneRowExactly(units, filed, last);
  }

  /** A unit approved in one contest and submitted in another: more units submitted than there are. */
  lemma OtherContestIsCounted(
      totals: seq<TotalRow>, byStatus: seq<StatusRow>, contest: Id, other: Id, u: Id, state: Id)
    requires contest != other
    requires GroupedCounts(totals, byStatus, {u}, map[(contest, u) := Approved, (other, u) := Submitted], state)
    ensures FromCounts(totals, byStatus, state) == Pipeline(1, 2, 1, 1, 1, 0, 0)
  {
    var filed: Filed := map[(contest, u) := Approved, (other, u) := Submitted];
    assert RowsHaving({u}, filed, Approved) == {(contest, u)} && RowsHaving({u}, filed, Submitted) == {(other, u)};
    assert RowsHaving({u}, filed, Rejected) == {};
  }

  // ---------------------------------------------------------------- when the two ways agree

  /** Pipelines as loaded per LGA, for at least the LGAs of a state. */
  ghost predicate LoadedByLga(g: Register, statuses: Statuses, pipelines: map<Id, Pipeline>, lgas: set<Id>) {
    forall lga :: lga in lgas ==>
      lga in pipelines && pipelines[lga] == PipelineOf(Group(g.puWard.Keys, LgaMap(g), lga), statuses)
  }

  /** Adding up a state's LGAs is adding up its units. */
  lemma LgasAddUp(g: Register, statuses: Statuses, state: Id, lgas: seq<Id>, pipelines: map<Id, Pipeline>)
    requires g.Valid() && Before(lgas, |lgas|) == LgasOf(g, state)
    requires LoadedByLga(g, statuses, pipelines, LgasOf(g, state))
    ensures AddedUp(lgas, pipelines) == PipelineOf(Group(g.puWard.Keys, StateMap(g), state), statuses)
  {
    PipelinesAdd();
    var own := LgasOf(g, state);
    TotalOfGroups(NONE_YET, Plus, g.puWard.Keys, LgaMap(g), own, StageIn(statuses), PipelineAt(pipelines));
    UnitsOfState(g, state);
  }

  /**
   * Adding up a state's LGAs gives field by field what the grouped counts give for the state, exactly
   * if none of its units has a second row that is not a DRAFT.
   */
  lemma PipelinesAgreeExactly(g: Register, filed: Filed, last: map<Id, Id>, state: Id, lgas: seq<Id>,
      pipelines: map<Id, Pipeline>, totals: seq<TotalRow>, byStatus: seq<StatusRow>)
    requires g.Valid() && Before(lgas, |lgas|) == LgasOf(g, state)
    requires LoadedByLga(g, LastStatuses(filed, last), pipelines, LgasOf(g, state))
    requires GroupedCounts(totals, byStatus, Group(g.puWard.Keys, StateMap(g), state), filed, state)
    ensures AddedUp(lgas, pipelines) == FromCounts(totals, byStatus, state)
      <==> OneRowEach(Group(g.puWard.Keys, StateMap(g), state), filed, last)
  {
    hide PipelineOf, AddedUp, FromCounts, LoadedByLga, StateMap, LgasOf, LastStatuses, OneRowEach, GroupedCounts;
    LgasAddUp(g, LastStatuses(filed, last), state, lgas, pipelines);
    FromCountsExactly(totals, byStatus, Group(g.puWard.Keys, StateMap(g), state), filed, last, state);
  }

  /** The LGAs of each state, each once and all among those that are loaded. */
  ghost predicate ListsLgas(g: Register, lgaIdsByState: map<Id, seq<Id>>, lgaIds: seq<Id>) {
    forall state :: state in lgaIdsByState ==>
      && NoRepeats(lgaIdsByState[state])
      && Before(lgaIdsByState[state], |lgaIdsByState[state]|) == LgasOf(g, state) <= Before(lgaIds, |lgaIds|)
  }

  lemma LoadedGroups(g: Register, statuses: Statuses, pus: seq<Id>, lgaIds: seq<Id>, pipelines: map<Id, Pipeline>)
    requires UnitsOfLgas(g, pus, lgaIds) && pipelines.Keys == Before(lgaIds, |lgaIds|)
    requires CountsGroups(pipelines, Before(pus, |pus|), LgaMap(g), statuses)
    ensures LoadedByLga(g, statuses, pipelines, Before(lgaIds, |lgaIds|))
  {
    hide PipelineOf, LgaMap;
    forall lga | lga in lgaIds
      ensures Group(Before(pus, |pus|), LgaMap(g), lga) == Group(g.puWard.Keys, LgaMap(g), lga)
    {
      GroupOfUnits(g, pus, lgaIds, lga);
    }
  }

  /**
   * Both ways run on the same register and rows give the same pipeline for a state exactly if none of
   * its units has a second row that is not a DRAFT.
   */
  method LoadBothWays(g: Register, filed: Filed, last: map<Id, Id>, pus: seq<Id>, lgaIds: seq<Id>, stateIds: seq<Id>,
      lgaIdsByState: map<Id, seq<Id>>, totals: seq<TotalRow>, byStatus: seq<StatusRow>)
    returns (addedUp: map<Id, Pipeline>, grouped: map<Id, Pipeline>)
    requires g.Valid() && UnitsOfLgas(g, pus, lgaIds) && ListsLgas(g, lgaIdsByState, lgaIds) && PicksRows(filed, last)
    requires lgaIdsByState.Keys == Before(stateIds, |stateIds|)
    requires forall row :: row in totals ==> row.state in stateIds
    requires forall row :: row in byStatus ==> row.state in stateIds
    requires forall state :: state in stateIds ==>
      GroupedCounts(totals, byStatus, Group(g.puWard.Keys, StateMap(g), state), filed, state)
    ensures addedUp.Keys == grouped.Keys == Before(stateIds, |stateIds|)
    ensures forall state :: state in addedUp ==>
      (addedUp[state] == grouped[state] <==> OneRowEach(Group(g.puWard.Keys, StateMap(g), state), filed, last))
  {
    hide PipelineOf, AddedUp, GroupedCounts, LoadedByLga, LgaMap, StateMap, LgasOf;
    hide LastStatuses, FromCounts, OneRowEach;
    assert forall pu :: pu in pus ==> pu in LgaMap(g) by {
      assert forall pu :: pu in pus ==> pu in Before(pus, |pus|);
    }
    var statuses := LastStatuses(filed, last);
    var byLga := LoadApprovalPipelineByLga(pus, LgaMap(g), statuses, lgaIds);
    LoadedGroups(g, statuses, pus, lgaIds, byLga);
    addedUp := AggregatePipelineToState(lgaIdsByState, byLga);
    grouped := LoadApprovalPipelineByState(stateIds, totals, byStatus);
    forall state | state in addedUp
      ensures addedUp[state] == grouped[state]
        <==> OneRowEach(Group(g.puWard.Keys, StateMap(g), state), filed, last)
    {
      FewerLoaded(g, statuses, byLga, Before(lgaIds, |lgaIds|), LgasOf(g, state));
      PipelinesAgreeExactly(g, filed, last, state, lgaIdsByState[state], byLga, totals, byStatus);
    }
  }

  lemma FewerLoaded(g: Register, statuses: Statuses, pipelines: map<Id, Pipeline>, lgas: set<Id>, fewer: set<Id>)
    requires fewer <= lgas && LoadedByLga(g, statuses, pipelines, lgas)
    ensures LoadedByLga(g, statuses, pipelines, fewer)
  {
  }
}
