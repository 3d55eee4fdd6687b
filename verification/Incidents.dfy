/** Open incidents by state: counted per LGA and merged, or counted per state directly. */
module Incidents {
  import opened Wrappers
  import opened Hierarchy
  import opened Grouping

  datatype Severity = Low | Medium | High | Critical

  function Weight(severity: Option<Severity>): nat {
    match severity
    case Some(Critical) => 4
    case Some(High) => 3
    case Some(Medium) => 2
    case Some(Low) | None => 1
  }

  datatype Bucket = Bucket(count: nat, urgent: nat, weight: nat, maxSeverity: Option<Severity>)

  const EMPTY := Bucket(0, 0, 0, None)

  /** The more severe of two; none is less than any. */
  function Worse(a: Option<Severity>, b: Option<Severity>): Option<Severity> {
    if a.None? then b else if b.None? then a else if Weight(b) > Weight(a) then b else a
  }

  function Plus(a: Bucket, b: Bucket): Bucket {
    Bucket(a.count + b.count, a.urgent + b.urgent, a.weight + b.weight, Worse(a.maxSeverity, b.maxSeverity))
  }

  lemma BucketsAdd()
    ensures Adds(EMPTY, Plus)
  {
    forall a, b
      ensures Worse(a, b) == Worse(b, a)
    {
    }
    forall a, b, c
      ensures Worse(Worse(a, b), c) == Worse(a, Worse(b, c))
    {
    }
  }

  /** An open report: the ward it names with its LGA, the polling unit it names with its ward and LGA. */
  datatype Incident = Incident(
    ward: Option<Id>, wardLga: Option<Id>, unit: Option<Id>, unitWard: Option<Id>, unitLga: Option<Id>,
    isUrgent: bool, severity: Option<Severity>)

  function SeverityOf(r: Incident): Severity {
    r.severity.Or(if r.isUrgent then High else Low)
  }

  function PressureOf(r: Incident): Bucket {
    var severity := SeverityOf(r);
    var urgent := if r.isUrgent || severity == High || severity == Critical then 1 else 0;
    Bucket(1, urgent, Weight(Some(severity)), Some(severity))
  }

  /** A report belongs to the LGA of its ward, or else of its polling unit. */
  function LgaOf(r: Incident): Option<Id> {
    if r.wardLga.Some? then r.wardLga else r.unitLga
  }

  function WardOf(r: Incident): Option<Id> {
    if r.ward.Some? then r.ward else r.unitWard
  }

  function UnitOf(r: Incident): Option<Id> {
    r.unit
  }

  ghost function PressureIn(reports: map<Id, Incident>): Id -> Bucket {
    r => if r in reports then PressureOf(reports[r]) else EMPTY
  }

  /** The places that reports belong to. */
  function KeyBy(reports: map<Id, Incident>, place: Incident -> Option<Id>): map<Id, Id> {
    map r | r in reports && place(reports[r]).Some? :: place(reports[r]).value
  }

  function StateOf(lgaState: map<Id, Id>): Incident -> Option<Id> {
    (r: Incident) =>
      if LgaOf(r).Some? && LgaOf(r).value in lgaState then Some(lgaState[LgaOf(r).value]) else None
  }

  /** The pressure of those of the reports that fall to `place`. */
  ghost function Pressure(ids: set<Id>, key: map<Id, Id>, place: Id, reports: map<Id, Incident>): Bucket {
    Total(EMPTY, Plus, Group(ids, key, place), PressureIn(reports))
  }

  function BucketAt(buckets: map<Id, Bucket>, place: Id): Bucket {
    if place in buckets then buckets[place] else EMPTY
  }

  // ---------------------------------------------------------------- pressure in figures

  /** A report's severity, or HIGH if it has none and is urgent, or LOW. */
  predicate IsOf(r: Incident, severity: Severity) {
    if r.severity.Some? then r.severity.value == severity else severity == if r.isUrgent then High else Low
  }

  function OfSeverity(ids: set<Id>, reports: map<Id, Incident>, severity: Severity): set<Id> {
    set r | r in ids && r in reports && IsOf(reports[r], severity)
  }

  /** Reports that are marked urgent, or HIGH or CRITICAL. */
  function UrgentOf(ids: set<Id>, reports: map<Id, Incident>): set<Id> {
    set r | r in ids && r in reports
      && (reports[r].isUrgent || reports[r].severity == Some(High) || reports[r].severity == Some(Critical))
  }

  function WorstOf(ids: set<Id>, reports: map<Id, Incident>): Option<Severity> {
    if OfSeverity(ids, reports, Critical) != {} then Some(Critical)
    else if OfSeverity(ids, reports, High) != {} then Some(High)
    else if OfSeverity(ids, reports, Medium) != {} then Some(Medium)
    else if OfSeverity(ids, reports, Low) != {} then Some(Low)
    else None
  }

  /** The numbers of reports, of urgent ones, the weights 4, 3, 2 and 1 added up, and the worst severity. */
  ghost predicate InFigures(b: Bucket, ids: set<Id>, reports: map<Id, Incident>) {
    && b.count == |ids| && b.urgent == |UrgentOf(ids, reports)| && b.maxSeverity == WorstOf(ids, reports)
    && b.weight == WeightOf(ids, reports)
  }

  lemma SeverityWithout(ids: set<Id>, reports: map<Id, Incident>, r: Id, severity: Severity)
    requires r in ids && r in reports
    ensures OfSeverity(ids, reports, severity)
      == OfSeverity(ids - {r}, reports, severity) + if IsOf(reports[r], severity) then {r} else {}
    ensures |OfSeverity(ids, reports, severity)|
      == |OfSeverity(ids - {r}, reports, severity)| + if IsOf(reports[r], severity) then 1 else 0
  {
    var rest := OfSeverity(ids - {r}, reports, severity);
    assert OfSeverity(ids, reports, severity) == if IsOf(reports[r], severity) then rest + {r} else rest;
  }

  lemma UrgentWithout(ids: set<Id>, reports: map<Id, Incident>, r: Id)
    requires r in ids && r in reports
    ensures |UrgentOf(ids, reports)| == |UrgentOf(ids - {r}, reports)| + PressureOf(reports[r]).urgent
  {
    var rest := UrgentOf(ids - {r}, reports);
    assert UrgentOf(ids, reports) == if PressureOf(reports[r]).urgent == 1 then rest + {r} else rest;
  }

  lemma EmptyWithout(ids: set<Id>, reports: map<Id, Incident>, r: Id, severity: Severity)
    requires r in ids && r in reports
    ensures OfSeverity(ids, reports, severity) == {} <==>
      OfSeverity(ids - {r}, reports, severity) == {} && !IsOf(reports[r], severity)
  {
    hide OfSeverity, IsOf;
    SeverityWithout(ids, reports, r, severity);
  }

  lemma WorstWithout(ids: set<Id>, reports: map<Id, Incident>, r: Id)
    requires r in ids && r in reports
    ensures WorstOf(ids, reports) == Worse(PressureOf(reports[r]).maxSeverity, WorstOf(ids - {r}, reports))
  {
    hide OfSeverity;
    EmptyWithout(ids, reports, r, Critical);
    EmptyWithout(ids, reports, r, High);
    EmptyWithout(ids, reports, r, Medium);
    EmptyWithout(ids, reports, r, Low);
  }

  /** The weights of the reports added up. */
  function WeightOf(ids: set<Id>, reports: map<Id, Incident>): nat {
    4 * |OfSeverity(ids, reports, Critical)| + 3 * |OfSeverity(ids, reports, High)|
    + 2 * |OfSeverity(ids, reports, Medium)| + |OfSeverity(ids, reports, Low)|
  }

  lemma WeightWithout(ids: set<Id>, reports: map<Id, Incident>, r: Id)
    requires r in ids && r in reports
    ensures WeightOf(ids, reports) == WeightOf(ids - {r}, reports) + PressureOf(reports[r]).weight
  {
    hide OfSeverity;
    SizeWithout(ids, reports, r, Critical);
    SizeWithout(ids, reports, r, High);
    SizeWithout(ids, reports, r, Medium);
    SizeWithout(ids, reports, r, Low);
  }

  lemma SizeWithout(ids: set<Id>, reports: map<Id, Incident>, r: Id, severity: Severity)
    requires r in ids && r in reports
    ensures |OfSeverity(ids, reports, severity)|
      == |OfSeverity(ids - {r}, reports, severity)| + if IsOf(reports[r], severity) then 1 else 0
  {
    SeverityWithout(ids, reports, r, severity);
  }

  lemma FiguresWithout(b: Bucket, ids: set<Id>, reports: map<Id, Incident>, r: Id)
    requires r in ids && r in reports && InFigures(b, ids - {r}, reports)
    ensures InFigures(Plus(PressureOf(reports[r]), b), ids, reports)
  {
    hide OfSeverity, UrgentOf, WorstOf, WeightOf, Worse, SeverityOf;
    assert ids == (ids - {r}) + {r};
    UrgentWithout(ids, reports, r);
    WorstWithout(ids, reports, r);
    WeightWithout(ids, reports, r);
  }

  /** What the reports of a place come to. */
  lemma {:induction false} PressureInFigures(ids: set<Id>, reports: map<Id, Incident>)
    requires ids <= reports.Keys
    ensures InFigures(Total(EMPTY, Plus, ids, PressureIn(reports)), ids, reports)
    decreases ids
  {
    BucketsAdd();
    if r :| r in ids {
      hide InFigures, Plus, Adds;
      PressureInFigures(ids - {r}, reports);
      TotalTakeOut(EMPTY, Plus, ids, PressureIn(reports), r);
      FiguresWithout(Total(EMPTY, Plus, ids - {r}, PressureIn(reports)), ids, reports, r);
    } else {
      assert forall severity :: OfSeverity(ids, reports, severity) == {};
      assert UrgentOf(ids, reports) == {};
    }
  }

  /**
   * The reports of a place: the ward a report names decides over the polling unit it names, for its
   * ward and for its LGA, and its LGA decides its state.
   */
  lemma ReportsOfPlace(ids: set<Id>, reports: map<Id, Incident>, lgaState: map<Id, Id>, place: Id)
    requires ids <= reports.Keys
    ensures Group(ids, KeyBy(reports, LgaOf), place) == set r | r in ids
      && (reports[r].wardLga == Some(place) || (reports[r].wardLga == None && reports[r].unitLga == Some(place)))
    ensures Group(ids, KeyBy(reports, WardOf), place) == set r | r in ids
      && (reports[r].ward == Some(place) || (reports[r].ward == None && reports[r].unitWard == Some(place)))
    ensures Group(ids, KeyBy(reports, UnitOf), place) == set r | r in ids && reports[r].unit == Some(place)
    ensures Group(ids, KeyBy(reports, StateOf(lgaState)), place) == set r | r in ids
      && exists lga :: lga in lgaState && lgaState[lga] == place
           && (reports[r].wardLga == Some(lga) || (reports[r].wardLga == None && reports[r].unitLga == Some(lga)))
  {
  }

  // ---------------------------------------------------------------- counting reports

  method BumpIncident(buckets: map<Id, Bucket>, id: Id, weight: nat, urgent: nat, severity: Severity)
    returns (bumped: map<Id, Bucket>)
    ensures bumped == buckets[id := Plus(BucketAt(buckets, id), Bucket(1, urgent, weight, Some(severity)))]
  {
    var current := if id in buckets then buckets[id] else Bucket(0, 0, 0, None);
    var next := if current.maxSeverity.None? || Weight(Some(severity)) > Weight(current.maxSeverity)
      then Some(severity) else current.maxSeverity;
    bumped := buckets[id := Bucket(current.count + 1, current.urgent + urgent, current.weight + weight, next)];
  }

  /** Count one report at its place, if it has one. */
  method CountReport(buckets: map<Id, Bucket>, r: Incident, place: Option<Id>) returns (counted: map<Id, Bucket>)
    ensures counted == if place.None? then buckets
      else buckets[place.value := Plus(BucketAt(buckets, place.value), PressureOf(r))]
  {
    counted := buckets;
    var severity := if r.severity.Some? then r.severity.value else if r.isUrgent then High else Low;
    var weight := Weight(Some(severity));
    var urgent := if r.isUrgent || severity == High || severity == Critical then 1 else 0;
    if place.Some? {
      counted := BumpIncident(buckets, place.value, weight, urgent, severity);
    }
  }

  /** The buckets hold exactly the reports counted so far, each at its place. */
  ghost predicate HoldsPressure(buckets: map<Id, Bucket>, ids: set<Id>, key: map<Id, Id>, reports: map<Id, Incident>) {
    forall place :: BucketAt(buckets, place) == Pressure(ids, key, place, reports)
  }

  lemma NothingHeld(buckets: map<Id, Bucket>, key: map<Id, Id>, reports: map<Id, Incident>)
    requires forall place :: place in buckets ==> buckets[place] == EMPTY
    ensures HoldsPressure(buckets, {}, key, reports)
  {
    forall place
      ensures Group({}, key, place) == {}
    {
    }
  }

  lemma OneMoreHeld(buckets: map<Id, Bucket>, ids: set<Id>, key: map<Id, Id>, reports: map<Id, Incident>, r: Id)
    requires HoldsPressure(buckets, ids, key, reports) && r !in ids && r in reports
    ensures HoldsPressure(
      if r in key then buckets[key[r] := Plus(BucketAt(buckets, key[r]), PressureOf(reports[r]))] else buckets,
      ids + {r}, key, reports)
  {
    hide Plus, PressureOf;
    forall place
      ensures Pressure(ids + {r}, key, place, reports)
        == if r in key && key[r] == place then Plus(BucketAt(buckets, place), PressureOf(reports[r]))
           else BucketAt(buckets, place)
    {
      PressureNext(ids, key, place, reports, r);
    }
  }

  lemma PressureNext(ids: set<Id>, key: map<Id, Id>, place: Id, reports: map<Id, Incident>, r: Id)
    requires r !in ids && r in reports
    ensures Pressure(ids + {r}, key, place, reports)
      == if r in key && key[r] == place then Plus(Pressure(ids, key, place, reports), PressureOf(reports[r]))
         else Pressure(ids, key, place, reports)
  {
    BucketsAdd();
    if r in key && key[r] == place {
      assert Group(ids + {r}, key, place) == Group(ids, key, place) + {r};
      TotalAdd(EMPTY, Plus, Group(ids, key, place), PressureIn(reports), r);
    } else {
      assert Group(ids + {r}, key, place) == Group(ids, key, place);
    }
  }

  /** Reports in any order, counted by the LGA, the ward and the polling unit they belong to. */
  method AggregateIncidentsByScope(order: seq<Id>, reports: map<Id, Incident>)
    returns (byLga: map<Id, Bucket>, byWard: map<Id, Bucket>, byPu: map<Id, Bucket>)
    requires NoRepeats(order) && forall r :: r in order ==> r in reports
    ensures HoldsPressure(byLga, Before(order, |order|), KeyBy(reports, LgaOf), reports)
    ensures HoldsPressure(byWard, Before(order, |order|), KeyBy(reports, WardOf), reports)
    ensures HoldsPressure(byPu, Before(order, |order|), KeyBy(reports, UnitOf), reports)
  {
    hide HoldsPressure, Before, NoRepeats, Plus, PressureOf;
    byLga, byWard, byPu := map[], map[], map[];
    NothingHeld(byLga, KeyBy(reports, LgaOf), reports);
    NothingHeld(byWard, KeyBy(reports, WardOf), reports);
    NothingHeld(byPu, KeyBy(reports, UnitOf), reports);
    NoneBefore(order);
    for i := 0 to |order|
      invariant HoldsPressure(byLga, Before(order, i), KeyBy(reports, LgaOf), reports)
      invariant HoldsPressure(byWard, Before(order, i), KeyBy(reports, WardOf), reports)
      invariant HoldsPressure(byPu, Before(order, i), KeyBy(reports, UnitOf), reports)
    {
      BeforeNext(order, i);
      byLga := CountNext(byLga, order[i], reports, LgaOf, Before(order, i));
      byWard := CountNext(byWard, order[i], reports, WardOf, Before(order, i));
      byPu := CountNext(byPu, order[i], reports, UnitOf, Before(order, i));
    }
  }

  method CountNext(buckets: map<Id, Bucket>, id: Id, reports: map<Id, Incident>, place: Incident -> Option<Id>,
      ghost ids: set<Id>)
    returns (counted: map<Id, Bucket>)
    requires id in reports && id !in ids && HoldsPressure(buckets, ids, KeyBy(reports, place), reports)
    ensures HoldsPressure(counted, ids + {id}, KeyBy(reports, place), reports)
  {
    hide HoldsPressure, Plus, PressureOf;
    OneMoreHeld(buckets, ids, KeyBy(reports, place), reports, id);
    counted := CountReport(buckets, reports[id], place(reports[id]));
  }

  lemma NoneBefore(order: seq<Id>)
    ensures Before(order, 0) == {}
  {
  }

  /** Empty buckets for the states asked for. */
  method EmptyBuckets(stateIds: seq<Id>) returns (buckets: map<Id, Bucket>)
    ensures forall place :: place in buckets ==> buckets[place] == EMPTY
  {
    buckets := map[];
    for i := 0 to |stateIds|
      invariant forall place :: place in buckets ==> buckets[place] == EMPTY
    {
      buckets := buckets[stateIds[i] := Bucket(0, 0, 0, None)];
    }
  }

  /** Reports in any order, counted by state at once; foreign keys point into the register. */
  method AggregateIncidentsByState(stateIds: seq<Id>, order: seq<Id>, reports: map<Id, Incident>, lgaState: map<Id, Id>)
    returns (byState: map<Id, Bucket>)
    requires NoRepeats(order) && forall r :: r in order ==> r in reports
    ensures HoldsPressure(byState, Before(order, |order|), KeyBy(reports, StateOf(lgaState)), reports)
  {
    hide HoldsPressure, Before, NoRepeats, Plus, PressureOf;
    byState := EmptyBuckets(stateIds);
    NothingHeld(byState, KeyBy(reports, StateOf(lgaState)), reports);
    NoneBefore(order);
    for i := 0 to |order|
      invariant HoldsPressure(byState, Before(order, i), KeyBy(reports, StateOf(lgaState)), reports)
    {
      BeforeNext(order, i);
      byState := CountNext(byState, order[i], reports, StateOf(lgaState), Before(order, i));
    }
  }

  // ---------------------------------------------------------------- merging LGA buckets into states

  ghost function BucketIn(buckets: map<Id, Bucket>): Id -> Bucket {
    place => BucketAt(buckets, place)
  }

  /** The buckets hold exactly the LGA buckets merged so far. */
  ghost predicate HoldsMerged(byState: map<Id, Bucket>, lgas: set<Id>, lgaToState: map<Id, Id>, byLga: map<Id,
      Bucket>) {
    forall state :: BucketAt(byState, state) == Total(EMPTY, Plus, Group(lgas, lgaToState, state), BucketIn(byLga))
  }

  lemma NothingMerged(byState: map<Id, Bucket>, lgaToState: map<Id, Id>, byLga: map<Id, Bucket>)
    requires forall place :: place in byState ==> byState[place] == EMPTY
    ensures HoldsMerged(byState, {}, lgaToState, byLga)
  {
    forall place
      ensures Group({}, lgaToState, place) == {}
    {
    }
  }

  lemma OneMoreMerged(byState: map<Id, Bucket>, lgas: set<Id>, lgaToState: map<Id, Id>, byLga: map<Id, Bucket>, lga: Id)
    requires HoldsMerged(byState, lgas, lgaToState, byLga) && lga !in lgas && lga in byLga
    ensures HoldsMerged(
      if lga in lgaToState
      then byState[lgaToState[lga] := Plus(BucketAt(byState, lgaToState[lga]), byLga[lga])] else byState,
      lgas + {lga}, lgaToState, byLga)
  {
    hide Plus;
    forall state
      ensures Total(EMPTY, Plus, Group(lgas + {lga}, lgaToState, state), BucketIn(byLga))
        == if lga in lgaToState && lgaToState[lga] == state then Plus(BucketAt(byState, state), byLga[lga])
           else BucketAt(byState, state)
    {
      MergedNext(lgas, lgaToState, byLga, lga, state);
    }
  }

  lemma MergedNext(lgas: set<Id>, lgaToState: map<Id, Id>, byLga: map<Id, Bucket>, lga: Id, state: Id)
    requires lga !in lgas && lga in byLga
    ensures
      var before := Total(EMPTY, Plus, Group(lgas, lgaToState, state), BucketIn(byLga));
      Total(EMPTY, Plus, Group(lgas + {lga}, lgaToState, state), BucketIn(byLga))
      == if lga in lgaToState && lgaToState[lga] == state then Plus(before, byLga[lga]) else before
  {
    BucketsAdd();
    hide Plus, Adds;
    if lga in lgaToState && lgaToState[lga] == state {
      assert Group(lgas + {lga}, lgaToState, state) == Group(lgas, lgaToState, state) + {lga};
      TotalAdd(EMPTY, Plus, Group(lgas, lgaToState, state), BucketIn(byLga), lga);
    } else {
      assert Group(lgas + {lga}, lgaToState, state) == Group(lgas, lgaToState, state);
    }
  }

  /** The loop over LGA buckets, in any order. */
  method MergeIntoStates(states: seq<Id>, byLga: map<Id, Bucket>, lgaToState: map<Id, Id>)
    returns (byState: map<Id, Bucket>)
    ensures HoldsMerged(byState, byLga.Keys, lgaToState, byLga)
  {
    hide HoldsMerged, Plus;
    byState := EmptyBuckets(states);
    NothingMerged(byState, lgaToState, byLga);
    var lgas := byLga.Keys;
    ghost var merged: set<Id> := {};
    while lgas != {}
      invariant merged !! lgas && merged + lgas == byLga.Keys
      invariant HoldsMerged(byState, merged, lgaToState, byLga)
      decreases lgas
    {
      var lga :| lga in lgas;
      OneMoreMerged(byState, merged, lgaToState, byLga, lga);
      if lga in lgaToState {
        byState := MergeBucket(byState, lgaToState[lga], byLga[lga]);
      }
      lgas, merged := lgas - {lga}, merged + {lga};
    }
    assert merged == byLga.Keys;
  }

  method MergeBucket(byState: map<Id, Bucket>, state: Id, bucket: Bucket) returns (merged: map<Id, Bucket>)
    ensures merged == byState[state := Plus(BucketAt(byState, state), bucket)]
  {
    var current := if state in byState then byState[state] else Bucket(0, 0, 0, None);
    merged := byState[state := Bucket(
      current.count + bucket.count,
      current.urgent + bucket.urgent,
      current.weight + bucket.weight,
      if current.maxSeverity.None? || Weight(bucket.maxSeverity) > Weight(current.maxSeverity)
      then bucket.maxSeverity else current.maxSeverity)];
  }

  // ---------------------------------------------------------------- the two ways agree

  predicate InLgas(lga: Option<Id>, lgas: set<Id>) {
    lga.Some? && lga.value in lgas
  }

  function SelectedByLga(reports: map<Id, Incident>, lgas: set<Id>): set<Id> {
    set r | r in reports && (InLgas(reports[r].wardLga, lgas) || InLgas(reports[r].unitLga, lgas))
  }

  predicate InStates(lga: Option<Id>, lgaState: map<Id, Id>, states: set<Id>) {
    lga.Some? && lga.value in lgaState && lgaState[lga.value] in states
  }

  function SelectedByState(reports: map<Id, Incident>, lgaState: map<Id, Id>, states: set<Id>): set<Id> {
    set r | r in reports &&
      (InStates(reports[r].wardLga, lgaState, states) || InStates(reports[r].unitLga, lgaState, states))
  }

  /**
   * Merging the LGA buckets of the whole register into states gives for every state asked for the
   * same count, urgent count, weight and worst severity as counting its reports directly.
   */
  lemma IncidentPressureAgrees(reports: map<Id, Incident>, lgaState: map<Id, Id>, states: set<Id>, state: Id,
      byLga: map<Id, Bucket>, merged: map<Id, Bucket>, byState: map<Id, Bucket>)
    requires state in states
    requires HoldsPressure(byLga, SelectedByLga(reports, lgaState.Keys), KeyBy(reports, LgaOf), reports)
    requires HoldsMerged(merged, byLga.Keys, lgaState, byLga)
    requires HoldsPressure(
      byState, SelectedByState(reports, lgaState, states), KeyBy(reports, StateOf(lgaState)), reports)
    ensures BucketAt(merged, state) == BucketAt(byState, state)
  {
    BucketsAdd();
    var ids := SelectedByLga(reports, lgaState.Keys);
    var own := Group(lgaState.Keys, lgaState, state);
    AbsentBucketsAreEmpty(byLga, lgaState, state);
    TotalOfGroups(EMPTY, Plus, ids, KeyBy(reports, LgaOf), own, PressureIn(reports), BucketIn(byLga));
    SameReports(reports, lgaState, states, state);
  }

  lemma SameReports(reports: map<Id, Incident>, lgaState: map<Id, Id>, states: set<Id>, state: Id)
    requires state in states
    ensures Groups(SelectedByLga(reports, lgaState.Keys), KeyBy(reports, LgaOf), Group(lgaState.Keys, lgaState, state))
      == Group(SelectedByState(reports, lgaState, states), KeyBy(reports, StateOf(lgaState)), state)
  {
  }

  /** LGAs without a bucket add nothing. */
  lemma AbsentBucketsAreEmpty(byLga: map<Id, Bucket>, lgaState: map<Id, Id>, state: Id)
    ensures Total(EMPTY, Plus, Group(byLga.Keys, lgaState, state), BucketIn(byLga))
      == Total(EMPTY, Plus, Group(lgaState.Keys, lgaState, state), BucketIn(byLga))
  {
    var present := Group(byLga.Keys, lgaState, state);
    var absent := Group(lgaState.Keys - byLga.Keys, lgaState, state);
    assert Group(lgaState.Keys, lgaState, state) == present + absent;
    BucketsAdd();
    TotalUnion(EMPTY, Plus, present, absent, BucketIn(byLga));
    AllEmpty(absent, byLga);
  }

  lemma {:induction false} AllEmpty(lgas: set<Id>, byLga: map<Id, Bucket>)
    requires forall lga :: lga in lgas ==> lga !in byLga
    ensures Total(EMPTY, Plus, lgas, BucketIn(byLga)) == EMPTY
    decreases lgas
  {
    BucketsAdd();
    if lga :| lga in lgas {
      AllEmpty(lgas - {lga}, byLga);
      TotalTakeOut(EMPTY, Plus, lgas, BucketIn(byLga), lga);
    }
  }

  /** The LGA merge and the state count run one after the other, for the states asked for. */
  method IncidentHotspots(states: seq<Id>, reports: map<Id, Incident>, lgaState: map<Id, Id>,
      ofLgas: seq<Id>, ofStates: seq<Id>)
    returns (merged: map<Id, Bucket>, byState: map<Id, Bucket>)
    requires NoRepeats(ofLgas) && Before(ofLgas, |ofLgas|) == SelectedByLga(reports, lgaState.Keys)
    requires NoRepeats(ofStates)
    requires Before(ofStates, |ofStates|) == SelectedByState(reports, lgaState, Before(states, |states|))
    ensures forall state :: state in states ==> BucketAt(merged, state) == BucketAt(byState, state)
  {
    hide HoldsPressure, HoldsMerged, NoRepeats, BucketAt;
    SelectedAreReports(ofLgas, reports);
    SelectedAreReports(ofStates, reports);
    var byLga, byWard, byPu := AggregateIncidentsByScope(ofLgas, reports);
    merged := MergeIntoStates(states, byLga, lgaState);
    byState := AggregateIncidentsByState(states, ofStates, reports, lgaState);
    forall state | state in states
      ensures BucketAt(merged, state) == BucketAt(byState, state)
    {
      IncidentPressureAgrees(reports, lgaState, Before(states, |states|), state, byLga, merged, byState);
    }
  }

  lemma SelectedAreReports(order: seq<Id>, reports: map<Id, Incident>)
    requires Before(order, |order|) <= reports.Keys
    ensures forall r :: r in order ==> r in reports
  {
    assert forall r :: r in order ==> r in Before(order, |order|);
  }

  /** The ward a report belongs to lies in the LGA it belongs to. */
  ghost predicate InRegister(reports: map<Id, Incident>, wardLga: map<Id, Id>) {
    forall r :: r in reports ==>
      && (reports[r].ward.Some? <==> reports[r].wardLga.Some?)
      && (reports[r].unitWard.Some? <==> reports[r].unitLga.Some?)
      && (WardOf(reports[r]).Some? ==>
            WardOf(reports[r]).value in wardLga && Some(wardLga[WardOf(reports[r]).value]) == LgaOf(reports[r]))
  }

  /** Within an LGA the buckets of its wards come to its own. */
  lemma WardsAgreeWithLgas(reports: map<Id, Incident>, ids: set<Id>, wardLga: map<Id, Id>, lga: Id,
      byLga: map<Id, Bucket>, byWard: map<Id, Bucket>)
    requires InRegister(reports, wardLga)
    requires HoldsPressure(byLga, ids, KeyBy(reports, LgaOf), reports)
    requires HoldsPressure(byWard, ids, KeyBy(reports, WardOf), reports)
    ensures Total(EMPTY, Plus, Group(wardLga.Keys, wardLga, lga), BucketIn(byWard)) == BucketAt(byLga, lga)
  {
    hide Plus, Adds, InRegister;
    BucketsAdd();
    var wards := Group(wardLga.Keys, wardLga, lga);
    TotalOfGroups(EMPTY, Plus, ids, KeyBy(reports, WardOf), wards, PressureIn(reports), BucketIn(byWard));
    ReportsOfWards(reports, ids, wardLga, lga);
  }

  lemma ReportsOfWards(reports: map<Id, Incident>, ids: set<Id>, wardLga: map<Id, Id>, lga: Id)
    requires InRegister(reports, wardLga)
    ensures Groups(ids, KeyBy(reports, WardOf), Group(wardLga.Keys, wardLga, lga))
      == Group(ids, KeyBy(reports, LgaOf), lga)
  {
    forall r
      ensures r in Groups(ids, KeyBy(reports, WardOf), Group(wardLga.Keys, wardLga, lga))
        <==> r in Group(ids, KeyBy(reports, LgaOf), lga)
    {
      if r in reports {
        BelongsAlike(reports[r]);
      }
    }
  }

  lemma BelongsAlike(r: Incident)
    requires (r.ward.Some? <==> r.wardLga.Some?) && (r.unitWard.Some? <==> r.unitLga.Some?)
    ensures WardOf(r).Some? <==> LgaOf(r).Some?
  {
  }
}
