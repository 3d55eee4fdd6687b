/** How many polling units of a state have reported: counted row by row per LGA, or grouped by state. */
module Coverage {
  import opened Wrappers
  import opened Hierarchy
  import opened Grouping

  datatype Reporting = Reporting(total: nat, reported: nat, approved: nat, lastAt: Option<int>)

  const NO_UNITS := Reporting(0, 0, 0, None)

  function Later(a: Option<int>, b: Option<int>): Option<int> {
    if a.None? then b else if b.None? then a else if b.value > a.value then b else a
  }

  function Plus(a: Reporting, b: Reporting): Reporting {
    Reporting(a.total + b.total, a.reported + b.reported, a.approved + b.approved, Later(a.lastAt, b.lastAt))
  }

  lemma ReportingsAdd()
    ensures Adds(NO_UNITS, Plus)
  {
  }

  /** A submitted, approved or returned result; there is one to a unit. */
  datatype Report = Report(approved: bool, stamp: int)

  function ReportedOne(r: Report): Reporting {
    Reporting(0, 1, if r.approved then 1 else 0, Some(r.stamp))
  }

  /** What a unit adds when the reports of the units in `done` have been counted. */
  ghost function CoverIn(reports: map<Id, Report>, done: set<Id>): Id -> Reporting {
    unit =>
      if unit in done && unit in reports then Plus(Reporting(1, 0, 0, None), ReportedOne(reports[unit]))
      else Reporting(1, 0, 0, None)
  }

  ghost function Covered(units: set<Id>, reports: map<Id, Report>, done: set<Id>): Reporting {
    Total(NO_UNITS, Plus, units, CoverIn(reports, done))
  }

  /** The entry of a place; a place without one has no units. */
  function EntryAt(coverage: map<Id, Reporting>, k: Id): Reporting {
    if k in coverage then coverage[k] else NO_UNITS
  }

  /** Each entry counts the units of its group and those of their reports that are done. */
  ghost predicate Covers(
      coverage: map<Id, Reporting>, units: set<Id>, key: map<Id, Id>, reports: map<Id, Report>, done: set<Id>) {
    forall k :: EntryAt(coverage, k) == Covered(Group(units, key, k), reports, done)
  }

  /** The places of some units. */
  function Places(units: set<Id>, key: map<Id, Id>): set<Id> {
    set u | u in units && u in key :: key[u]
  }

  /** Each place of a unit has the set of its units. */
  ghost predicate Lists(sets: map<Id, set<Id>>, units: set<Id>, key: map<Id, Id>) {
    sets.Keys == Places(units, key) && forall k :: k in sets ==> sets[k] == Group(units, key, k)
  }

  // ---------------------------------------------------------------- unit by unit, then report by report

  lemma GroupGrows(units: set<Id>, key: map<Id, Id>, reports: map<Id, Report>, u: Id, k: Id)
    requires u !in units && u in key
    ensures Covered(Group(units + {u}, key, k), reports, {})
      == if key[u] == k then Plus(Covered(Group(units, key, k), reports, {}), Reporting(1, 0, 0, None))
         else Covered(Group(units, key, k), reports, {})
  {
    ReportingsAdd();
    hide Plus, Adds;
    if key[u] == k {
      assert Group(units + {u}, key, k) == Group(units, key, k) + {u};
      TotalAdd(NO_UNITS, Plus, Group(units, key, k), CoverIn(reports, {}), u);
    } else {
      assert Group(units + {u}, key, k) == Group(units, key, k);
    }
  }

  lemma OneMoreUnit(coverage: map<Id, Reporting>, units: set<Id>, key: map<Id, Id>, reports: map<Id, Report>, u: Id)
    requires Covers(coverage, units, key, reports, {}) && u !in units && u in key
    ensures
      var current := EntryAt(coverage, key[u]);
      Covers(coverage[key[u] := current.(total := current.total + 1)], units + {u}, key, reports, {})
  {
    hide Covered;
    forall k
      ensures Covered(Group(units + {u}, key, k), reports, {})
        == var current := EntryAt(coverage, k); if key[u] == k then current.(total := current.total + 1) else current
    {
      GroupGrows(units, key, reports, u, k);
    }
  }

  lemma CoveredNext(units: set<Id>, reports: map<Id, Report>, done: set<Id>, u: Id)
    requires u in reports && u !in done
    ensures Covered(units, reports, done + {u})
      == if u in units then Plus(Covered(units, reports, done), ReportedOne(reports[u]))
         else Covered(units, reports, done)
  {
    ReportingsAdd();
    var rest := units - {u};
    TotalSame(NO_UNITS, Plus, rest, CoverIn(reports, done), CoverIn(reports, done + {u}));
    if u in units {
      TotalTakeOut(NO_UNITS, Plus, units, CoverIn(reports, done), u);
      TotalTakeOut(NO_UNITS, Plus, units, CoverIn(reports, done + {u}), u);
      var a, b, c := Reporting(1, 0, 0, None), ReportedOne(reports[u]), Covered(rest, reports, done);
      assert Plus(Plus(a, b), c) == Plus(Plus(a, c), b);
    } else {
      assert rest == units;
    }
  }

  lemma OneMoreReport(
      coverage: map<Id, Reporting>, units: set<Id>, key: map<Id, Id>, reports: map<Id, Report>, done: set<Id>, u: Id)
    requires Covers(coverage, units, key, reports, done) && u in reports && u !in done && u in units && u in key
    ensures
      var counted := Plus(EntryAt(coverage, key[u]), ReportedOne(reports[u]));
      Covers(coverage[key[u] := counted], units, key, reports, done + {u})
  {
    hide Covered, Plus;
    forall k
      ensures Covered(Group(units, key, k), reports, done + {u})
        == if key[u] == k then Plus(EntryAt(coverage, k), ReportedOne(reports[u])) else EntryAt(coverage, k)
    {
      CoveredNext(Group(units, key, k), reports, done, u);
    }
  }

  lemma NothingCovered(coverage: map<Id, Reporting>, key: map<Id, Id>, reports: map<Id, Report>)
    requires forall k :: k in coverage ==> coverage[k] == NO_UNITS
    ensures Covers(coverage, {}, key, reports, {})
  {
    forall k
      ensures Group({}, key, k) == {}
    {
    }
  }

  lemma OneMoreListed(sets: map<Id, set<Id>>, units: set<Id>, key: map<Id, Id>, u: Id)
    requires Lists(sets, units, key) && u in key
    ensures Lists(sets[key[u] := (if key[u] in sets then sets[key[u]] else {}) + {u}], units + {u}, key)
  {
    var after := sets[key[u] := (if key[u] in sets then sets[key[u]] else {}) + {u}];
    PlacesNext(units, key, u);
    forall k | k in after
      ensures after[k] == Group(units + {u}, key, k)
    {
      if k == key[u] && k !in sets {
        assert Group(units, key, k) == {};
      }
    }
  }

  lemma PlacesNext(units: set<Id>, key: map<Id, Id>, u: Id)
    requires u in key
    ensures Places(units + {u}, key) == Places(units, key) + {key[u]}
  {
    assert forall v :: v in units && v in key ==> key[v] in Places(units + {u}, key);
  }

  method BlankCoverage(ids: seq<Id>) returns (coverage: map<Id, Reporting>)
    ensures coverage.Keys == Before(ids, |ids|)
    ensures forall id :: id in coverage ==> coverage[id] == NO_UNITS
  {
    coverage := map[];
    for i := 0 to |ids|
      invariant coverage.Keys == Before(ids, i)
      invariant forall id :: id in coverage ==> coverage[id] == NO_UNITS
    {
      coverage := coverage[ids[i] := Reporting(0, 0, 0, None)];
    }
  }

  method AddUnit(coverage: map<Id, Reporting>, k: Id) returns (counted: map<Id, Reporting>)
    ensures var current := EntryAt(coverage, k); counted == coverage[k := current.(total := current.total + 1)]
  {
    var current := if k in coverage then coverage[k] else Reporting(0, 0, 0, None);
    counted := coverage[k := current.(total := current.total + 1)];
  }

  /** The entries of the places of both kinds, and the sets of their units. */
  datatype Maps = Maps(
    byLga: map<Id, Reporting>, byWard: map<Id, Reporting>, puByLga: map<Id, set<Id>>, puByWard: map<Id, set<Id>>)

  ghost predicate HoldsUnits(m: Maps, units: set<Id>, lgaOf: map<Id, Id>, wardOf: map<Id, Id>) {
    && Lists(m.puByLga, units, lgaOf) && Lists(m.puByWard, units, wardOf) && m.byWard.Keys == Places(units, wardOf)
    && units <= lgaOf.Keys && units <= wardOf.Keys && Places(units, lgaOf) <= m.byLga.Keys
  }

  ghost predicate HoldsReports(
      m: Maps, units: set<Id>, lgaOf: map<Id, Id>, wardOf: map<Id, Id>, reports: map<Id, Report>, done: set<Id>) {
    Covers(m.byLga, units, lgaOf, reports, done) && Covers(m.byWard, units, wardOf, reports, done)
  }

  method CountUnit(m: Maps, pu: Id, lga: Id, ward: Id,
      ghost units: set<Id>, ghost lgaOf: map<Id, Id>, ghost wardOf: map<Id, Id>, ghost reports: map<Id, Report>)
    returns (next: Maps)
    requires pu in lgaOf && lgaOf[pu] == lga && pu in wardOf && wardOf[pu] == ward && pu !in units
    requires HoldsUnits(m, units, lgaOf, wardOf) && HoldsReports(m, units, lgaOf, wardOf, reports, {})
    ensures HoldsUnits(next, units + {pu}, lgaOf, wardOf)
    ensures HoldsReports(next, units + {pu}, lgaOf, wardOf, reports, {})
    ensures next.byLga.Keys == m.byLga.Keys + {lga}
  {
    hide Lists, Covers, EntryAt;
    var byLga := AddUnit(m.byLga, lga);
    var byWard := AddUnit(m.byWard, ward);
    var lgaSet := if lga in m.puByLga then m.puByLga[lga] else {};
    var wardSet := if ward in m.puByWard then m.puByWard[ward] else {};
    next := Maps(byLga, byWard, m.puByLga[lga := lgaSet + {pu}], m.puByWard[ward := wardSet + {pu}]);
    OneMoreUnit(m.byLga, units, lgaOf, reports, pu);
    OneMoreUnit(m.byWard, units, wardOf, reports, pu);
    OneMoreListed(m.puByLga, units, lgaOf, pu);
    OneMoreListed(m.puByWard, units, wardOf, pu);
    PlacesNext(units, lgaOf, pu);
    PlacesNext(units, wardOf, pu);
  }

  method CountUnits(
      lgaIds: seq<Id>, pus: seq<Id>, lgaOf: map<Id, Id>, wardOf: map<Id, Id>, ghost reports: map<Id, Report>)
    returns (m: Maps)
    requires NoRepeats(pus) && forall pu :: pu in pus ==> pu in lgaOf && pu in wardOf && lgaOf[pu] in lgaIds
    ensures m.byLga.Keys == Before(lgaIds, |lgaIds|) && HoldsUnits(m, Before(pus, |pus|), lgaOf, wardOf)
    ensures HoldsReports(m, Before(pus, |pus|), lgaOf, wardOf, reports, {})
  {
    var blank := BlankCoverage(lgaIds);
    m := Maps(blank, map[], map[], map[]);
    assert Before(pus, 0) == {};
    NothingCovered(m.byLga, lgaOf, reports);
    NothingCovered(m.byWard, wardOf, reports);
    assert forall lga :: lga in lgaIds ==> lga in m.byLga;
    hide HoldsUnits, HoldsReports, Before, NoRepeats;
    for i := 0 to |pus|
      invariant m.byLga.Keys == blank.Keys && HoldsUnits(m, Before(pus, i), lgaOf, wardOf)
      invariant HoldsReports(m, Before(pus, i), lgaOf, wardOf, reports, {})
    {
      BeforeNext(pus, i);
      m := CountUnit(m, pus[i], lgaOf[pus[i]], wardOf[pus[i]], Before(pus, i), lgaOf, wardOf, reports);
    }
  }

  /** Count one report in its place, which has an entry. */
  method AddReport(coverage: map<Id, Reporting>, k: Id, r: Report) returns (counted: map<Id, Reporting>)
    requires k in coverage
    ensures counted == coverage[k := Plus(EntryAt(coverage, k), ReportedOne(r))]
  {
    var entry := coverage[k].(reported := coverage[k].reported + 1);
    if r.approved {
      entry := entry.(approved := entry.approved + 1);
    }
    if entry.lastAt.None? || r.stamp > entry.lastAt.value {
      entry := entry.(lastAt := Some(r.stamp));
    }
    counted := coverage[k := entry];
  }

  method CountReport(m: Maps, pu: Id, lga: Id, ward: Id, report: Report,
      ghost units: set<Id>, ghost lgaOf: map<Id, Id>, ghost wardOf: map<Id, Id>, ghost reports: map<Id, Report>,
      ghost done: set<Id>)
    returns (next: Maps)
    requires pu in units && pu in reports && reports[pu] == report && pu !in done
    requires HoldsUnits(m, units, lgaOf, wardOf) && lgaOf[pu] == lga && wardOf[pu] == ward
    requires HoldsReports(m, units, lgaOf, wardOf, reports, done)
    ensures HoldsUnits(next, units, lgaOf, wardOf) && next.byLga.Keys == m.byLga.Keys
    ensures HoldsReports(next, units, lgaOf, wardOf, reports, done + {pu})
  {
    assert lga in Places(units, lgaOf) && ward in Places(units, wardOf);
    hide Lists, Covers, EntryAt, Plus, ReportedOne, Places;
    OneMoreReport(m.byLga, units, lgaOf, reports, done, pu);
    OneMoreReport(m.byWard, units, wardOf, reports, done, pu);
    var byLga := AddReport(m.byLga, lga, report);
    var byWard := AddReport(m.byWard, ward, report);
    next := m.(byLga := byLga, byWard := byWard);
  }

  method LoadPuReportingMaps(lgaIds: seq<Id>, pus: seq<Id>, lgaOf: map<Id, Id>, wardOf: map<Id, Id>,
      results: seq<Id>, reports: map<Id, Report>)
    returns (m: Maps)
    requires NoRepeats(pus) && forall pu :: pu in pus ==> pu in lgaOf && pu in wardOf && lgaOf[pu] in lgaIds
    requires NoRepeats(results) && forall pu :: pu in results ==> pu in pus && pu in reports
    ensures m.byLga.Keys == Before(lgaIds, |lgaIds|) && HoldsUnits(m, Before(pus, |pus|), lgaOf, wardOf)
    ensures HoldsReports(m, Before(pus, |pus|), lgaOf, wardOf, reports, Before(results, |results|))
  {
    m := CountUnits(lgaIds, pus, lgaOf, wardOf, reports);
    assert Before(results, 0) == {} && forall pu :: pu in results ==> pu in Before(pus, |pus|);
    ghost var units, lgas := Before(pus, |pus|), m.byLga.Keys;
    hide HoldsUnits, HoldsReports, Before, NoRepeats;
    for i := 0 to |results|
      invariant m.byLga.Keys == lgas && HoldsUnits(m, units, lgaOf, wardOf)
      invariant HoldsReports(m, units, lgaOf, wardOf, reports, Before(results, i))
    {
      var pu := results[i];
      BeforeNext(results, i);
      m := CountReport(m, pu, lgaOf[pu], wardOf[pu], reports[pu], units, lgaOf, wardOf, reports, Before(results, i));
    }
  }

  // ---------------------------------------------------------------- the rows of all contests

  /** The reports by contest and unit. */
  type Filed = map<(Id, Id), Report>

  function InContest(filed: Filed, contest: Id): map<Id, Report> {
    map k | k in filed && k.0 == contest :: k.1 := filed[k]
  }

  function RowsOf(units: set<Id>, filed: Filed): set<(Id, Id)> {
    set k | k in filed && k.1 in units
  }

  function ApprovedOf(units: set<Id>, filed: Filed): set<(Id, Id)> {
    set k | k in filed && k.1 in units && filed[k].approved
  }

  /** The latest stamp among the reports of some units. */
  ghost predicate IsLatest(units: set<Id>, filed: Filed, latest: Option<int>) {
    && (latest.None? <==> RowsOf(units, filed) == {})
    && (latest.Some? ==> exists k :: k in RowsOf(units, filed) && filed[k].stamp == latest.value)
    && (latest.Some? ==> forall k :: k in RowsOf(units, filed) ==> filed[k].stamp <= latest.value)
  }

  /** The figures a grouped query gives for some units; it does not ask for a contest. */
  ghost predicate InFigures(p: Reporting, units: set<Id>, filed: Filed) {
    && p.total == |units| && p.reported == |RowsOf(units, filed)| && p.approved == |ApprovedOf(units, filed)|
    && IsLatest(units, filed, p.lastAt)
  }

  /** The figures determine the entry. */
  lemma FiguresDetermine(p: Reporting, q: Reporting, units: set<Id>, filed: Filed)
    requires InFigures(p, units, filed) && InFigures(q, units, filed)
    ensures p == q
  {
  }

  /** None of the units has a report in another contest. */
  ghost predicate OnlyContest(units: set<Id>, filed: Filed, contest: Id) {
    forall k :: k in RowsOf(units, filed) ==> k.0 == contest
  }

  /** The rows of one contest alone. */
  function Restricted(filed: Filed, contest: Id): Filed {
    map k | k in filed && k.0 == contest :: filed[k]
  }

  // ---------------------------------------------------------------- adding up gives figures

  /** What a unit adds once all reports are counted. */
  function Covering(filed: Filed, contest: Id, u: Id): Reporting {
    if (contest, u) in filed then Plus(Reporting(1, 0, 0, None), ReportedOne(filed[(contest, u)]))
    else Reporting(1, 0, 0, None)
  }

  lemma UnitsWithout(units: set<Id>, filed: Filed, contest: Id, u: Id)
    requires u in units
    ensures |units| == |units - {u}| + Covering(filed, contest, u).total
  {
    assert units == (units - {u}) + {u};
  }

  lemma RowsWithout(units: set<Id>, filed: Filed, contest: Id, u: Id)
    requires u in units
    ensures
      var own := Restricted(filed, contest);
      && RowsOf(units, own) == RowsOf(units - {u}, own) + (if (contest, u) in filed then {(contest, u)} else {})
      && |RowsOf(units, own)| == |RowsOf(units - {u}, own)| + Covering(filed, contest, u).reported
  {
    var own := Restricted(filed, contest);
    var rest := RowsOf(units - {u}, own);
    assert RowsOf(units, own) == if (contest, u) in filed then rest + {(contest, u)} else rest;
  }

  lemma ApprovedWithout(units: set<Id>, filed: Filed, contest: Id, u: Id)
    requires u in units
    ensures
      var own := Restricted(filed, contest);
      |ApprovedOf(units, own)| == |ApprovedOf(units - {u}, own)| + Covering(filed, contest, u).approved
  {
    var own := Restricted(filed, contest);
    var rest, row := ApprovedOf(units - {u}, own), (contest, u);
    assert ApprovedOf(units, own) == if row in filed && filed[row].approved then rest + {row} else rest;
  }

  lemma LatestWithout(units: set<Id>, filed: Filed, contest: Id, u: Id, latest: Option<int>)
    requires u in units && IsLatest(units - {u}, Restricted(filed, contest), latest)
    ensures IsLatest(units, Restricted(filed, contest), Later(Covering(filed, contest, u).lastAt, latest))
  {
    RowsWithout(units, filed, contest, u);
    hide RowsOf;
    var own, row := Restricted(filed, contest), (contest, u);
    if latest.Some? {
      var k :| k in RowsOf(units - {u}, own) && filed[k].stamp == latest.value;
      assert k in RowsOf(units, own);
    }
  }

  lemma FiguresWithout(p: Reporting, units: set<Id>, filed: Filed, contest: Id, u: Id)
    requires u in units && InFigures(p, units - {u}, Restricted(filed, contest))
    ensures InFigures(Plus(Covering(filed, contest, u), p), units, Restricted(filed, contest))
  {
    hide RowsOf, ApprovedOf, IsLatest, Covering, Later, Restricted;
    UnitsWithout(units, filed, contest, u);
    RowsWithout(units, filed, contest, u);
    ApprovedWithout(units, filed, contest, u);
    LatestWithout(units, filed, contest, u, p.lastAt);
  }

  /** All reports of a contest that the units have. */
  ghost function CoveredIn(units: set<Id>, filed: Filed, contest: Id): Reporting {
    Covered(units, InContest(filed, contest), InContest(filed, contest).Keys)
  }

  lemma CoveringIsValue(filed: Filed, contest: Id, u: Id)
    ensures CoverIn(InContest(filed, contest), InContest(filed, contest).Keys)(u) == Covering(filed, contest, u)
  {
    assert u in InContest(filed, contest) <==> (contest, u) in filed;
  }

  /** Adding up the units one by one gives the figures of the contest's own rows. */
  lemma {:induction false} CoverageInFigures(units: set<Id>, filed: Filed, contest: Id)
    ensures InFigures(CoveredIn(units, filed, contest), units, Restricted(filed, contest))
    decreases units
  {
    ReportingsAdd();
    if u :| u in units {
      hide InFigures, Plus, Adds, Covering, CoverIn;
      CoverageInFigures(units - {u}, filed, contest);
      var reports := InContest(filed, contest);
      TotalTakeOut(NO_UNITS, Plus, units, CoverIn(reports, reports.Keys), u);
      CoveringIsValue(filed, contest, u);
      FiguresWithout(CoveredIn(units - {u}, filed, contest), units, filed, contest, u);
    } else {
      assert RowsOf(units, Restricted(filed, contest)) == {} && ApprovedOf(units, Restricted(filed, contest)) == {};
    }
  }

  // ---------------------------------------------------------------- from grouped counts

  datatype ReportedRow = ReportedRow(state: Id, reported: nat, approved: nat, lastAt: Option<int>)

  /** The figures given for a state, the last ones; a state without reports has no row. */
  function FiguresFor(rows: seq<ReportedRow>, state: Id): ReportedRow {
    if rows == [] then ReportedRow(state, 0, 0, None)
    else if rows[|rows| - 1].state == state then rows[|rows| - 1]
    else FiguresFor(rows[..|rows| - 1], state)
  }

  function Grouped(totals: seq<TotalRow>, rows: seq<ReportedRow>, state: Id): Reporting {
    var row := FiguresFor(rows, state);
    Reporting(TotalFor(totals, state), row.reported, row.approved, row.lastAt)
  }

  /** The rows are the answers of the two queries. */
  ghost predicate GroupedFigures(
      totals: seq<TotalRow>, rows: seq<ReportedRow>, units: set<Id>, stateOf: map<Id, Id>, filed: Filed, state: Id) {
    InFigures(Grouped(totals, rows, state), Group(units, stateOf, state), filed)
  }

  method SetTotals(blank: map<Id, Reporting>, totals: seq<TotalRow>) returns (byState: map<Id, Reporting>)
    requires forall state :: state in blank ==> blank[state] == NO_UNITS
    requires forall row :: row in totals ==> row.state in blank
    ensures byState.Keys == blank.Keys
    ensures forall state :: state in byState ==> byState[state] == NO_UNITS.(total := TotalFor(totals, state))
  {
    byState := blank;
    for i := 0 to |totals|
      invariant byState.Keys == blank.Keys
      invariant forall state :: state in byState ==> byState[state] == NO_UNITS.(total := TotalFor(totals[..i], state))
    {
      var row := totals[i];
      assert row in totals && totals[..i + 1][..i] == totals[..i];
      byState := byState[row.state := Reporting(row.total, 0, 0, None)];
    }
    assert totals[..|totals|] == totals;
  }

  ghost function GroupedNext(totals: seq<TotalRow>, rows: seq<ReportedRow>, i: nat, state: Id): Reporting
    requires i < |rows|
  {
    var before, row := Grouped(totals, rows[..i], state), rows[i];
    if row.state == state
    then before.(reported := row.reported, approved := row.approved, lastAt := row.lastAt) else before
  }

  lemma NextFigures(totals: seq<TotalRow>, rows: seq<ReportedRow>, i: nat, state: Id)
    requires i < |rows|
    ensures Grouped(totals, rows[..i + 1], state) == GroupedNext(totals, rows, i, state)
  {
    assert rows[..i + 1][..i] == rows[..i];
  }

  method SetFigures(filled: map<Id, Reporting>, ghost totals: seq<TotalRow>, rows: seq<ReportedRow>)
    returns (byState: map<Id, Reporting>)
    requires forall state :: state in filled ==> filled[state] == Grouped(totals, [], state)
    requires forall row :: row in rows ==> row.state in filled
    ensures byState.Keys == filled.Keys
    ensures forall state :: state in byState ==> byState[state] == Grouped(totals, rows, state)
  {
    byState := filled;
    for i := 0 to |rows|
      invariant byState.Keys == filled.Keys
      invariant forall state :: state in byState ==> byState[state] == Grouped(totals, rows[..i], state)
    {
      hide Grouped;
      var row := rows[i];
      assert row in rows;
      forall state | state in filled
        ensures Grouped(totals, rows[..i + 1], state) == GroupedNext(totals, rows, i, state)
      {
        NextFigures(totals, rows, i, state);
      }
      var current := EntryAt(byState, row.state);
      byState := byState[row.state :=
        current.(reported := row.reported, approved := row.approved, lastAt := row.lastAt)];
    }
    assert rows[..|rows|] == rows;
  }

  method LoadPuReportingByState(stateIds: seq<Id>, totals: seq<TotalRow>, rows: seq<ReportedRow>)
    returns (byState: map<Id, Reporting>)
    requires forall row :: row in totals ==> row.state in stateIds
    requires forall row :: row in rows ==> row.state in stateIds
    ensures byState.Keys == Before(stateIds, |stateIds|)
    ensures forall state :: state in byState ==> byState[state] == Grouped(totals, rows, state)
  {
    byState := BlankCoverage(stateIds);
    assert forall state :: state in stateIds ==> state in byState;
    byState := SetTotals(byState, totals);
    byState := SetFigures(byState, totals, rows);
  }

  // ---------------------------------------------------------------- when the two ways agree

  ghost function EntryIn(coverage: map<Id, Reporting>): Id -> Reporting {
    k => EntryAt(coverage, k)
  }

  ghost function AddedUp(g: Register, byLga: map<Id, Reporting>, state: Id): Reporting {
    Total(NO_UNITS, Plus, LgasOf(g, state), EntryIn(byLga))
  }

  /** The entries of the LGAs of a state count all their units and reports of the contest. */
  ghost predicate LoadedByLga(g: Register, byLga: map<Id, Reporting>, lgas: set<Id>, filed: Filed, contest: Id) {
    forall lga :: lga in lgas ==>
      EntryAt(byLga, lga) == CoveredIn(Group(g.puWard.Keys, LgaMap(g), lga), filed, contest)
  }

  /** The query's figures are those of the contest's own rows exactly if there are no others. */
  lemma FiguresOfContest(p: Reporting, q: Reporting, units: set<Id>, filed: Filed, contest: Id)
    requires InFigures(p, units, Restricted(filed, contest)) && InFigures(q, units, filed)
    ensures p == q <==> OnlyContest(units, filed, contest)
  {
    var own := Restricted(filed, contest);
    assert RowsOf(units, own) <= RowsOf(units, filed);
    if p == q {
      SameSize(RowsOf(units, own), RowsOf(units, filed));
    }
    if OnlyContest(units, filed, contest) {
      assert RowsOf(units, own) == RowsOf(units, filed) && ApprovedOf(units, own) == ApprovedOf(units, filed);
      assert IsLatest(units, filed, p.lastAt);
      FiguresDetermine(p, q, units, filed);
    }
  }

  /**
   * Over the LGAs of a state the entries add up, in every field, to what the query grouped by state
   * gives, exactly if no unit of the state has reported in another contest.
   */
  lemma CoverageAgreesExactly(
      g: Register, filed: Filed, contest: Id, state: Id, byLga: map<Id, Reporting>, byState: Reporting)
    requires g.Valid() && LoadedByLga(g, byLga, LgasOf(g, state), filed, contest)
    requires InFigures(byState, Group(g.puWard.Keys, StateMap(g), state), filed)
    ensures AddedUp(g, byLga, state) == byState
      <==> OnlyContest(Group(g.puWard.Keys, StateMap(g), state), filed, contest)
  {
    hide Plus, Adds, InFigures, OnlyContest, CoverIn, LgaMap, StateMap, LgasOf;
    ReportingsAdd();
    var reports, units := InContest(filed, contest), Group(g.puWard.Keys, StateMap(g), state);
    TotalOfGroups(
      NO_UNITS, Plus, g.puWard.Keys, LgaMap(g), LgasOf(g, state), CoverIn(reports, reports.Keys), EntryIn(byLga));
    UnitsOfState(g, state);
    CoverageInFigures(units, filed, contest);
    FiguresOfContest(CoveredIn(units, filed, contest), byState, units, filed, contest);
  }

  /** A unit that reports in two contests: one report in its LGA's entry, two in its state's. */
  lemma OtherContestIsCounted(
      contest: Id, other: Id, u: Id, report: Report, ofContest: Reporting, ofState: Reporting)
    requires contest != other
    requires
      var filed: Filed := map[(contest, u) := report, (other, u) := report];
      InFigures(ofContest, {u}, Restricted(filed, contest)) && InFigures(ofState, {u}, filed)
    ensures ofContest.total == 1 == ofContest.reported && ofState.total == 1 && ofState.reported == 2
  {
    var filed: Filed := map[(contest, u) := report, (other, u) := report];
    assert RowsOf({u}, Restricted(filed, contest)) == {(contest, u)};
    assert RowsOf({u}, filed) == {(contest, u), (other, u)};
  }

  /** Within an LGA the entries of its wards add up to its own. */
  lemma WardsAgreeWithLgas(g: Register, m: Maps, units: set<Id>, lga: Id, reports: map<Id, Report>, done: set<Id>)
    requires g.Valid() && units <= g.puWard.Keys && HoldsReports(m, units, LgaMap(g), g.puWard, reports, done)
    ensures Total(NO_UNITS, Plus, WardsOf(g, lga), EntryIn(m.byWard)) == EntryAt(m.byLga, lga)
  {
    hide Plus, Adds, CoverIn;
    ReportingsAdd();
    TotalOfGroups(NO_UNITS, Plus, units, g.puWard, WardsOf(g, lga), CoverIn(reports, done), EntryIn(m.byWard));
    assert Groups(units, g.puWard, WardsOf(g, lga)) == Group(units, LgaMap(g), lga);
  }

  // ---------------------------------------------------------------- both ways run

  /** Counting the reports that are there is counting all. */
  lemma AllCounted(units: set<Id>, reports: map<Id, Report>, done: set<Id>)
    requires forall u :: u in units && u in reports ==> u in done
    ensures Covered(units, reports, done) == Covered(units, reports, reports.Keys)
  {
    ReportingsAdd();
    TotalSame(NO_UNITS, Plus, units, CoverIn(reports, done), CoverIn(reports, reports.Keys));
  }

  lemma LoadedGroups(
      g: Register, m: Maps, pus: seq<Id>, lgaIds: seq<Id>, results: seq<Id>, filed: Filed, contest: Id, lga: Id)
    requires UnitsOfLgas(g, pus, lgaIds) && lga in lgaIds
    requires forall pu :: pu in pus && (contest, pu) in filed ==> pu in results
    requires Covers(
      m.byLga, Before(pus, |pus|), LgaMap(g), InContest(filed, contest), Before(results, |results|))
    ensures EntryAt(m.byLga, lga) == CoveredIn(Group(g.puWard.Keys, LgaMap(g), lga), filed, contest)
  {
    hide Covered, EntryAt;
    GroupOfUnits(g, pus, lgaIds, lga);
    AllCounted(Group(g.puWard.Keys, LgaMap(g), lga), InContest(filed, contest), Before(results, |results|));
  }

  /** The results found for the units: those of the contest, each once. */
  ghost predicate FindsResults(pus: seq<Id>, results: seq<Id>, filed: Filed, contest: Id) {
    NoRepeats(results) && forall pu :: pu in results <==> pu in pus && (contest, pu) in filed
  }

  /**
   * Both ways run on the same register and reports give the same figures for a state exactly if none
   * of its units has reported in another contest.
   */
  method LoadBothWays(g: Register, filed: Filed, contest: Id, lgaIds: seq<Id>, pus: seq<Id>, results: seq<Id>,
      stateIds: seq<Id>, totals: seq<TotalRow>, rows: seq<ReportedRow>)
    returns (m: Maps, byState: map<Id, Reporting>)
    requires g.Valid() && UnitsOfLgas(g, pus, lgaIds) && FindsResults(pus, results, filed, contest)
    requires forall row :: row in totals ==> row.state in stateIds
    requires forall row :: row in rows ==> row.state in stateIds
    requires forall state :: state in stateIds ==>
      && GroupedFigures(totals, rows, g.puWard.Keys, StateMap(g), filed, state)
      && LgasOf(g, state) <= Before(lgaIds, |lgaIds|)
    ensures byState.Keys == Before(stateIds, |stateIds|)
    ensures forall state :: state in stateIds ==>
      (AddedUp(g, m.byLga, state) == byState[state]
      <==> OnlyContest(Group(g.puWard.Keys, StateMap(g), state), filed, contest))
  {
    hide Total, Covers, Grouped, InFigures, OnlyContest, HoldsUnits, LgasOf, StateMap;
    var reports := InContest(filed, contest);
    assert forall pu :: pu in pus ==> pu in LgaMap(g) && LgaMap(g)[pu] in lgaIds by {
      assert forall pu :: pu in pus ==> pu in Before(pus, |pus|);
    }
    assert forall pu :: pu in results ==> pu in reports by {
      assert forall pu :: (contest, pu) in filed ==> pu in reports;
    }
    m := LoadPuReportingMaps(lgaIds, pus, LgaMap(g), g.puWard, results, reports);
    byState := LoadPuReportingByState(stateIds, totals, rows);
    forall lga | lga in lgaIds
      ensures EntryAt(m.byLga, lga) == CoveredIn(Group(g.puWard.Keys, LgaMap(g), lga), filed, contest)
    {
      LoadedGroups(g, m, pus, lgaIds, results, filed, contest, lga);
    }
    forall state | state in stateIds
      ensures AddedUp(g, m.byLga, state) == byState[state]
        <==> OnlyContest(Group(g.puWard.Keys, StateMap(g), state), filed, contest)
    {
      CoverageAgreesExactly(g, filed, contest, state, m.byLga, byState[state]);
    }
  }
}
