/** What the arithmetic check says of the roll-ups in every reachable table. */
module CheckedRollups {
  import opened Hierarchy
  import opened Sheets
  import opened Workflow
  import opened Runs
  import opened Effects
  import opened Invariants
  import opened Conservation
  import opened SheetChecks

  /** Every approved polling unit has a complete sheet that passes the check. */
  ghost predicate ApprovedSheetsMatch(t: Table) {
    forall k :: k in t && k.level == PollingUnit && t[k].status == Approved ==>
      Complete(t[k].sheet) && Matches(t[k].sheet)
  }

  /**
   * After any calls, none of them an accepted save over a roll-up: if the approved polling units have complete
   * sheets that pass the check, so does every ward, LGA and state row built from them.
   */
  lemma EveryRollupMatches(g: Register, cs: seq<Command>, at: Key)
    requires g.Valid() && NoSaveOver(g, cs)
    requires RolledUp(at.level) && at in Run(g, map[], cs)
    requires ApprovedSheetsMatch(Run(g, map[], cs))
    ensures Matches(Run(g, map[], cs)[at].sheet)
  {
    var t := Run(g, map[], cs);
    var units := ApprovedUnder(g, t, at);
    VotesAreConserved(g, cs);
    assert ConservedAt(g, t, at);
    RollupOfMatchingSheetsMatches(units, SheetsOf(t));
  }

  /** Whatever the sheets: a roll-up passes exactly if the sums of the approved units below it balance. */
  lemma RollupVerdictExactly(g: Register, cs: seq<Command>, at: Key)
    requires g.Valid() && NoSaveOver(g, cs)
    requires RolledUp(at.level) && at in Run(g, map[], cs)
    ensures
      var t := Run(g, map[], cs);
      var total := Sum(ApprovedUnder(g, t, at), SheetsOf(t));
      Matches(t[at].sheet)
      <==> BallotsBalance(total) && (total.parties == map[] || PartyTotal(total.parties) == total.votesCast)
  {
    var t := Run(g, map[], cs);
    VotesAreConserved(g, cs);
    assert ConservedAt(g, t, at);
    PublishedMatchesExactly(Sum(ApprovedUnder(g, t, at), SheetsOf(t)));
  }
}
