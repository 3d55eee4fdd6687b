/** What every run keeps, row by row, and how a returned row can change. */
module Invariants {
  import opened Wrappers
  import opened Hierarchy
  import opened Sheets
  import opened Workflow
  import opened Runs
  import opened Effects

  // ---------------------------------------------------------------- row invariants of whole runs

  type RowProperty = (Key, Row) -> bool

  ghost predicate AllRows(t: Table, property: RowProperty) {
    forall k :: k in t ==> property(k, t[k])
  }

  /** A property that no operation of the call breaks, and that new rows have. */
  ghost predicate KeptBy(g: Register, c: Command, property: RowProperty) {
    forall k: Key, was: Option<Row>, row: Row ::
      RowOp(g, c, k, was, row) && (was.Some? ==> property(k, was.value)) ==> property(k, row)
  }

  lemma CallKeeps(g: Register, t: Table, c: Command, property: RowProperty)
    requires g.Valid() && AllRows(t, property)
    requires Apply(g, t, c).Ok? ==> KeptBy(g, c, property)
    ensures AllRows(Exec(g, t, c), property)
  {
    if Apply(g, t, c).Ok? {
      var related: RowRelation :=
        (k, was: Option<Row>, row) => (was.Some? ==> property(k, was.value)) ==> property(k, row);
      CallRelated(g, t, c, related);
      var u := Exec(g, t, c);
      forall k | k in u
        ensures property(k, u[k])
      {
        assert related(k, Find(t, k), u[k]);
      }
    }
  }

  /** The service accepts call `i` of the run. */
  ghost predicate Accepted(g: Register, cs: seq<Command>, i: nat)
    requires g.Valid() && i < |cs|
  {
    Apply(g, Run(g, map[], cs[..i]), cs[i]).Ok?
  }

  lemma AcceptedBefore(g: Register, cs: seq<Command>, n: nat, i: nat)
    requires g.Valid() && i < n <= |cs|
    ensures Accepted(g, cs[..n], i) <==> Accepted(g, cs, i)
  {
    assert cs[..n][..i] == cs[..i];
  }

  lemma {:induction false} RunKeeps(g: Register, cs: seq<Command>, property: RowProperty)
    requires g.Valid() && forall i :: 0 <= i < |cs| && Accepted(g, cs, i) ==> KeptBy(g, cs[i], property)
    ensures AllRows(Run(g, map[], cs), property)
    decreases |cs|
  {
    if cs == [] {
    } else {
      var n := |cs| - 1;
      forall i | 0 <= i < n && Accepted(g, cs[..n], i)
        ensures KeptBy(g, cs[..n][i], property)
      {
        AcceptedBefore(g, cs, n, i);
      }
      RunKeeps(g, cs[..n], property);
      assert Accepted(g, cs, n) <==> Apply(g, Run(g, map[], cs[..n]), cs[n]).Ok?;
      CallKeeps(g, Run(g, map[], cs[..n]), cs[n], property);
    }
  }

  // ---------------------------------------------------------------- evidence

  /**
   * A polling-unit row that has left DRAFT carries a photo, and its status is the one the last
   * log entry moved it to.  Polling units flagged on a ward row lie in that ward.
   */
  ghost predicate Evidenced(g: Register, k: Key, row: Row) {
    && (k.level == PollingUnit && row.status != Draft ==>
          row.photos != [] && row.log != [] && row.log[|row.log| - 1].toStatus == row.status)
    && (k.level == Ward ==> forall id :: id in row.flaggedPus ==> g.IsChild(Ward, k.scope, id))
  }

  ghost predicate AllEvidenced(g: Register, t: Table) {
    forall k :: k in t ==> Evidenced(g, k, t[k])
  }

  lemma OperationsKeepEvidence(g: Register, c: Command)
    ensures KeptBy(g, c, (k, row) => Evidenced(g, k, row))
  {
  }

  /** In every reachable table, whoever saved what at whichever level. */
  lemma EveryRunIsEvidenced(g: Register, cs: seq<Command>)
    requires g.Valid()
    ensures AllEvidenced(g, Run(g, map[], cs))
  {
    var property := (k, row) => Evidenced(g, k, row);
    forall c
      ensures KeptBy(g, c, property)
    {
      OperationsKeepEvidence(g, c);
    }
    RunKeeps(g, cs, property);
  }

  // ---------------------------------------------------------------- rejection bookkeeping

  /** Reasons and flags belong to REJECTED rows only, flags name children, roll-ups are never drafts. */
  ghost predicate Bookkept(g: Register, k: Key, row: Row) {
    && (row.rejectionReason.Some? <==> row.status == Rejected)
    && (row.flaggedPus != [] || row.flaggedWards != [] ==> row.status == Rejected)
    && FlagsLieIn(g, k, row.flaggedPus, row.flaggedWards)
    && (RolledUp(k.level) ==> row.status != Draft)
  }

  ghost predicate AllBookkept(g: Register, t: Table) {
    forall k :: k in t ==> Bookkept(g, k, t[k])
  }

  /** A save by an LGA or state officer, who thereby types over a roll-up. */
  predicate ManualSaveAbove(c: Command) {
    c.SaveCall? && c.user.Posting().Some? && c.user.Posting().value.level in {Lga, State}
  }

  /**
   * The calls that break the bookkeeping: an accepted save over a roll-up, and an accepted
   * submission of an LGA row that was returned with flagged wards.
   */
  ghost predicate BreaksBooks(g: Register, t: Table, c: Command)
    requires g.Valid()
  {
    Apply(g, t, c).Ok? &&
    (ManualSaveAbove(c) || (c.SubmitCall? && t[c.at].flaggedWards != []))
  }

  /** No operation of any other kind of call breaks the bookkeeping of a row. */
  lemma OperationsKeepBooks(g: Register, c: Command)
    requires !c.SaveCall? && !c.SubmitCall?
    ensures KeptBy(g, c, (k, row) => Bookkept(g, k, row))
  {
    if c.ReturnCall? {
      ReturnsKeepBooks(g, c);
    }
  }

  lemma ReturnsKeepBooks(g: Register, c: Command)
    requires c.ReturnCall?
    ensures KeptBy(g, c, (k, row) => Bookkept(g, k, row))
  {
  }

  /** A call that rewrites one row keeps the books exactly if that row is bookkept afterwards. */
  lemma OneRowBookkept(g: Register, t: Table, at: Key, row: Row)
    requires AllBookkept(g, t)
    ensures AllBookkept(g, t[at := row]) <==> Bookkept(g, at, row)
  {
    assert t[at := row][at] == row;
  }

  /** A save keeps the books unless it is accepted and writes over a roll-up. */
  lemma SaveKeepsBooksExactly(g: Register, t: Table, user: User, contest: Id, dto: Entry)
    requires g.Valid() && AllBookkept(g, t)
    ensures
      var c := SaveCall(user, contest, dto);
      AllBookkept(g, Exec(g, t, c)) <==> !(Save(t, user, contest, dto).Ok? && ManualSaveAbove(c))
  {
    if Save(t, user, contest, dto).Ok? {
      var at := Key(contest, user.Posting().value.level, user.Posting().value.scope);
      assert at in t ==> Bookkept(g, at, t[at]);
      OneRowBookkept(g, t, at, SavedRow(Find(t, at), dto));
    }
  }

  /** A submission keeps the books unless it is accepted for a row with flagged wards. */
  lemma SubmissionKeepsBooksExactly(g: Register, t: Table, user: User, at: Key)
    requires g.Valid() && AllBookkept(g, t)
    ensures AllBookkept(g, Exec(g, t, SubmitCall(user, at)))
      <==> !(Submit(t, user, at).Ok? && t[at].flaggedWards != [])
  {
    if Submit(t, user, at).Ok? {
      assert Bookkept(g, at, t[at]);
      OneRowBookkept(g, t, at, SubmittedRow(t[at], user.sub));
    }
  }

  /** On a bookkept table a call keeps the books exactly if it is not one of those that break them. */
  lemma CallKeepsBooksExactly(g: Register, t: Table, c: Command)
    requires g.Valid() && AllBookkept(g, t)
    ensures AllBookkept(g, Exec(g, t, c)) <==> !BreaksBooks(g, t, c)
  {
    if c.SaveCall? {
      SaveKeepsBooksExactly(g, t, c.user, c.contest, c.dto);
    } else if c.SubmitCall? {
      SubmissionKeepsBooksExactly(g, t, c.user, c.at);
    } else {
      var property := (k, row) => Bookkept(g, k, row);
      OperationsKeepBooks(g, c);
      CallKeeps(g, t, c, property);
    }
  }

  /** No call of the run breaks the bookkeeping of the table it finds. */
  ghost predicate BooksUnbroken(g: Register, cs: seq<Command>)
    requires g.Valid()
  {
    forall i :: 0 <= i < |cs| ==> !BreaksBooks(g, Run(g, map[], cs[..i]), cs[i])
  }

  ghost predicate BookkeptThroughout(g: Register, cs: seq<Command>)
    requires g.Valid()
  {
    forall i :: 0 <= i <= |cs| ==> AllBookkept(g, Run(g, map[], cs[..i]))
  }

  lemma EarlierRuns(cs: seq<Command>, n: nat)
    requires |cs| == n + 1
    ensures cs[..n + 1] == cs && forall i :: 0 <= i <= n ==> cs[..n][..i] == cs[..i]
  {
  }

  lemma OneMoreCall(g: Register, cs: seq<Command>, n: nat)
    requires g.Valid() && |cs| == n + 1
    ensures BooksUnbroken(g, cs) <==> BooksUnbroken(g, cs[..n]) && !BreaksBooks(g, Run(g, map[], cs[..n]), cs[n])
  {
    hide BreaksBooks, Run;
    EarlierRuns(cs, n);
  }

  lemma OneMoreTable(g: Register, cs: seq<Command>, n: nat)
    requires g.Valid() && |cs| == n + 1
    ensures BookkeptThroughout(g, cs) <==> BookkeptThroughout(g, cs[..n]) && AllBookkept(g, Run(g, map[], cs))
  {
    hide AllBookkept, Run;
    EarlierRuns(cs, n);
  }

  /** A run is bookkept throughout exactly if no call of it breaks the books. */
  lemma {:induction false} RunIsBookkeptExactly(g: Register, cs: seq<Command>)
    requires g.Valid()
    ensures BookkeptThroughout(g, cs) <==> BooksUnbroken(g, cs)
    decreases |cs|
  {
    if cs == [] {
      assert Run(g, map[], []) == map[];
    } else {
      hide BooksUnbroken, BreaksBooks, Bookkept;
      var n := |cs| - 1;
      var before := Run(g, map[], cs[..n]);
      RunIsBookkeptExactly(g, cs[..n]);
      OneMoreCall(g, cs, n);
      OneMoreTable(g, cs, n);
      if BookkeptThroughout(g, cs[..n]) {
        assert AllBookkept(g, before) by { assert cs[..n][..n] == cs[..n]; }
        hide BookkeptThroughout, AllBookkept;
        CallKeepsBooksExactly(g, before, cs[n]);
      }
    }
  }

  lemma EveryRunIsBookkept(g: Register, cs: seq<Command>)
    requires g.Valid() && BooksUnbroken(g, cs)
    ensures AllBookkept(g, Run(g, map[], cs))
  {
    RunIsBookkeptExactly(g, cs);
    assert cs[..|cs|] == cs;
  }

  // ---------------------------------------------------------------- roll-ups

  /** No save over a roll-up is accepted in the run. */
  ghost predicate NoSaveOver(g: Register, cs: seq<Command>)
    requires g.Valid()
  {
    forall i :: 0 <= i < |cs| && Accepted(g, cs, i) ==> !ManualSaveAbove(cs[i])
  }

  lemma NoSaveOverBefore(g: Register, cs: seq<Command>, n: nat)
    requires g.Valid() && NoSaveOver(g, cs) && n <= |cs|
    ensures NoSaveOver(g, cs[..n])
  {
    forall i | 0 <= i < n && Accepted(g, cs[..n], i)
      ensures !ManualSaveAbove(cs[..n][i])
    {
      AcceptedBefore(g, cs, n, i);
    }
  }

  ghost predicate RollupsPublished(t: Table) {
    forall k :: k in t && RolledUp(k.level) ==> t[k].status != Draft
  }

  /** Roll-ups stay out of DRAFT even when their officers submit them, as long as none is saved over. */
  lemma EveryRunKeepsRollupsPublished(g: Register, cs: seq<Command>)
    requires g.Valid() && NoSaveOver(g, cs)
    ensures RollupsPublished(Run(g, map[], cs))
  {
    var property: RowProperty := (k: Key, row: Row) => RolledUp(k.level) ==> row.status != Draft;
    assert forall c :: !ManualSaveAbove(c) ==> KeptBy(g, c, property);
    RunKeeps(g, cs, property);
  }

  ghost predicate WardsRegistered(g: Register, t: Table) {
    forall k :: k in t && k.level == Ward ==> k.scope in g.wardLga
  }

  lemma EveryWardIsRegistered(g: Register, cs: seq<Command>)
    requires g.Valid()
    ensures WardsRegistered(g, Run(g, map[], cs))
  {
    var property: RowProperty := (k: Key, row: Row) => k.level == Ward ==> k.scope in g.wardLga;
    assert forall c :: KeptBy(g, c, property);
    RunKeeps(g, cs, property);
  }
}
