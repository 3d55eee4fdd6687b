/** Who leads, and how the client's party fares: the two functions that say so, and the race tallies. */
module Outcomes {
  import opened Wrappers

  type Party = string

  datatype Verdict = Win | Loss | Tie | Pending

  datatype Outcome = Outcome(verdict: Verdict, leader: Option<Party>, margin: int)

  function Votes(parties: map<Party, int>, code: Party): int {
    if code in parties then parties[code] else 0
  }

  /** The most votes in any of the columns, and at least 0. */
  function Top(parties: map<Party, int>, columns: seq<Party>): (max: int)
    ensures max >= 0 && forall c :: c in columns ==> Votes(parties, c) <= max
    ensures max > 0 ==> exists c :: c in columns && Votes(parties, c) == max
  {
    if columns == [] then 0
    else
      var rest := Top(parties, columns[..|columns| - 1]);
      assert columns == columns[..|columns| - 1] + [columns[|columns| - 1]];
      if Votes(parties, columns[|columns| - 1]) > rest then Votes(parties, columns[|columns| - 1]) else rest
  }

  function With(columns: seq<Party>, keep: Party -> bool): (kept: seq<Party>)
    ensures forall c :: c in kept <==> c in columns && keep(c)
  {
    if columns == [] then []
    else
      var last := columns[|columns| - 1];
      assert columns == columns[..|columns| - 1] + [last];
      With(columns[..|columns| - 1], keep) + if keep(last) then [last] else []
  }

  function Leaders(parties: map<Party, int>, columns: seq<Party>): seq<Party> {
    With(columns, c => Votes(parties, c) == Top(parties, columns))
  }

  /** No client party is given, or an empty code. */
  predicate NoClient(client: Option<Party>) {
    client.None? || client.value == ""
  }

  /** The outcome, with the margin of a loss counted as what the client is behind. */
  function Judged(parties: map<Party, int>, columns: seq<Party>, client: Option<Party>): Outcome {
    var max, leaders := Top(parties, columns), Leaders(parties, columns);
    if max == 0 then Outcome(Pending, None, 0)
    else
      var first := if leaders == [] then None else Some(leaders[0]);
      if NoClient(client) then Outcome(Pending, first, max)
      else if client.value in leaders && |leaders| > 1 then Outcome(Tie, client, 0)
      else if first == client
      then Outcome(Win, client, Votes(parties, client.value) - Top(parties, With(columns, c => c != client.value)))
      else Outcome(Loss, first, max - Votes(parties, client.value))
  }

  /** The same, with the margin of a loss counted below zero. */
  function Signed(o: Outcome): Outcome {
    if o.verdict == Loss then o.(margin := -o.margin) else o
  }

  // ---------------------------------------------------------------- the two functions

  method MaxVotes(parties: map<Party, int>, columns: seq<Party>) returns (max: int)
    ensures max == Top(parties, columns)
  {
    max := 0;
    for i := 0 to |columns|
      invariant max == Top(parties, columns[..i])
    {
      assert columns[..i + 1][..i] == columns[..i];
      var votes := if columns[i] in parties then parties[columns[i]] else 0;
      max := if votes > max then votes else max;
    }
    assert columns[..|columns|] == columns;
  }

  method Filter(columns: seq<Party>, keep: Party -> bool) returns (kept: seq<Party>)
    ensures kept == With(columns, keep)
  {
    kept := [];
    for i := 0 to |columns|
      invariant kept == With(columns[..i], keep)
    {
      assert columns[..i + 1][..i] == columns[..i];
      if keep(columns[i]) {
        kept := kept + [columns[i]];
      }
    }
    assert columns[..|columns|] == columns;
  }

  /** Two ways to say which columns lead. */
  lemma {:induction false} SameColumns(columns: seq<Party>, keep: Party -> bool, other: Party -> bool)
    requires forall c :: keep(c) == other(c)
    ensures With(columns, keep) == With(columns, other)
  {
    if columns == [] {
    } else {
      SameColumns(columns[..|columns| - 1], keep, other);
    }
  }

  method FindLeaders(parties: map<Party, int>, columns: seq<Party>, max: int) returns (leaders: seq<Party>)
    requires max == Top(parties, columns)
    ensures leaders == Leaders(parties, columns)
  {
    var leading := c => Votes(parties, c) == max;
    leaders := Filter(columns, leading);
    SameColumns(columns, leading, c => Votes(parties, c) == Top(parties, columns));
  }

  /** The most votes of any other column. */
  method SecondVotes(parties: map<Party, int>, columns: seq<Party>, client: Party) returns (second: int)
    ensures second == Top(parties, With(columns, c => c != client))
  {
    var others := c => c != client;
    var rest := Filter(columns, others);
    SameColumns(columns, others, c => c != client);
    second := MaxVotes(parties, rest);
  }

  method ComputeOutcome(parties: map<Party, int>, columns: seq<Party>, client: Option<Party>) returns (o: Outcome)
    ensures o == Judged(parties, columns, client)
  {
    hide Top, With;
    var max := MaxVotes(parties, columns);
    if max <= 0 {
      return Outcome(Pending, None, 0);
    }
    var leaders := FindLeaders(parties, columns, max);
    var leader := if |leaders| > 0 then Some(leaders[0]) else None;
    var clientVotes := if NoClient(client) then 0 else Votes(parties, client.value);
    var margin := max - clientVotes;
    if NoClient(client) {
      return Outcome(Pending, leader, margin);
    }
    if client.value in leaders && |leaders| > 1 {
      return Outcome(Tie, client, 0);
    }
    if leader == client {
      var second := SecondVotes(parties, columns, client.value);
      return Outcome(Win, client, clientVotes - second);
    }
    return Outcome(Loss, leader, margin);
  }

  /** Agrees with ComputeOutcome on every input, up to the sign of a loss. */
  method ComputeClientOutcome(parties: map<Party, int>, columns: seq<Party>, client: Option<Party>) returns (o: Outcome)
    ensures o == Signed(Judged(parties, columns, client))
  {
    hide Top, With;
    var max := MaxVotes(parties, columns);
    if max <= 0 {
      return Outcome(Pending, None, 0);
    }
    var leaders := FindLeaders(parties, columns, max);
    var leader := if |leaders| > 0 then Some(leaders[0]) else None;
    var clientVotes := if NoClient(client) then 0 else Votes(parties, client.value);
    if NoClient(client) {
      return Outcome(Pending, leader, max - clientVotes);
    }
    if client.value in leaders && |leaders| > 1 {
      return Outcome(Tie, client, 0);
    }
    if leader == client {
      var second := SecondVotes(parties, columns, client.value);
      return Outcome(Win, client, clientVotes - second);
    }
    return Outcome(Loss, leader, clientVotes - max);
  }

  // ---------------------------------------------------------------- what the outcome means

  lemma {:induction false} WithHasNoRepeats(columns: seq<Party>, keep: Party -> bool)
    requires NoRepeats(columns)
    ensures NoRepeats(With(columns, keep))
  {
    if columns == [] {
    } else {
      var rest, last := columns[..|columns| - 1], columns[|columns| - 1];
      WithHasNoRepeats(rest, keep);
      assert last !in With(rest, keep);
    }
  }

  /** The client leads together with another column. */
  ghost predicate Shared(parties: map<Party, int>, columns: seq<Party>, client: Party) {
    exists c :: c in columns && c != client && Votes(parties, c) == Votes(parties, client)
  }

  /** No column has more votes than the client, who has some. */
  ghost predicate Leads(parties: map<Party, int>, columns: seq<Party>, client: Party) {
    Votes(parties, client) > 0 && forall c :: c in columns ==> Votes(parties, c) <= Votes(parties, client)
  }

  lemma LeadsExactly(parties: map<Party, int>, columns: seq<Party>, client: Party)
    requires client in columns
    ensures Leads(parties, columns, client) <==> Top(parties, columns) > 0 && client in Leaders(parties, columns)
  {
  }

  lemma SharedExactly(parties: map<Party, int>, columns: seq<Party>, client: Party)
    requires NoRepeats(columns) && client in Leaders(parties, columns)
    ensures Shared(parties, columns, client) <==> |Leaders(parties, columns)| > 1
  {
    var leaders := Leaders(parties, columns);
    WithHasNoRepeats(columns, c => Votes(parties, c) == Top(parties, columns));
    if |leaders| > 1 {
      var other := if leaders[0] == client then leaders[1] else leaders[0];
      assert other in leaders && other != client;
    }
    if Shared(parties, columns, client) {
      var c :| c in columns && c != client && Votes(parties, c) == Votes(parties, client);
      assert c in leaders;
    }
  }

  /**
   * With distinct columns that contain the client: WIN exactly if the client has votes and every other
   * column fewer, TIE exactly if the lead is shared, LOSS exactly if another column has more.
   */
  lemma OutcomeExactly(parties: map<Party, int>, columns: seq<Party>, client: Party)
    requires NoRepeats(columns) && client in columns && client != ""
    ensures
      var o := Judged(parties, columns, Some(client));
      && (o.verdict == Win <==> Leads(parties, columns, client) && !Shared(parties, columns, client))
      && (o.verdict == Tie <==> Leads(parties, columns, client) && Shared(parties, columns, client))
      && (o.verdict == Loss <==>
            exists c :: c in columns && Votes(parties, c) > 0 && Votes(parties, c) > Votes(parties, client))
      && (o.verdict == Pending <==> forall c :: c in columns ==> Votes(parties, c) <= 0)
      && (o.verdict == Win || o.verdict == Loss ==> o.margin > 0)
  {
    hide With;
    LeadsExactly(parties, columns, client);
    var leaders := Leaders(parties, columns);
    if client in leaders {
      SharedExactly(parties, columns, client);
    }
    if leaders != [] {
      assert leaders[0] in leaders;
    }
    assert |leaders| == 1 && client in leaders ==> leaders[0] == client;
  }

  /** The column is the first of those with the most votes. */
  ghost predicate IsFirstLeader(parties: map<Party, int>, columns: seq<Party>, leader: Party) {
    exists i :: 0 <= i < |columns| && columns[i] == leader
      && (forall c :: c in columns ==> Votes(parties, c) <= Votes(parties, leader))
      && (forall j :: 0 <= j < i ==> Votes(parties, columns[j]) < Votes(parties, leader))
  }

  /** The most votes of a column other than the client's; none below zero count. */
  ghost predicate IsBestOther(parties: map<Party, int>, columns: seq<Party>, client: Party, votes: int) {
    && votes >= 0
    && (forall c :: c in columns && c != client ==> Votes(parties, c) <= votes)
    && (votes > 0 ==> exists c :: c in columns && c != client && Votes(parties, c) == votes)
  }

  lemma {:induction false} FirstOfWith(columns: seq<Party>, keep: Party -> bool) returns (i: nat)
    requires With(columns, keep) != []
    ensures i < |columns| && columns[i] == With(columns, keep)[0] && keep(columns[i])
    ensures forall j :: 0 <= j < i ==> !keep(columns[j])
    decreases |columns|
  {
    var rest := columns[..|columns| - 1];
    if With(rest, keep) == [] {
      i := |columns| - 1;
      assert forall c :: c in rest ==> !(c in With(rest, keep));
      forall j | 0 <= j < i
        ensures !keep(columns[j])
      {
        assert rest[j] in rest;
      }
    } else {
      i := FirstOfWith(rest, keep);
      assert forall j :: 0 <= j < i ==> rest[j] == columns[j];
    }
  }

  lemma LeaderIsFirst(parties: map<Party, int>, columns: seq<Party>)
    requires Top(parties, columns) > 0
    ensures Leaders(parties, columns) != [] && IsFirstLeader(parties, columns, Leaders(parties, columns)[0])
  {
    var top := Top(parties, columns);
    var c :| c in columns && Votes(parties, c) == top;
    assert c in Leaders(parties, columns);
    var i := FirstOfWith(columns, c => Votes(parties, c) == Top(parties, columns));
    assert columns[i] in columns;
    assert forall j :: 0 <= j < i ==> columns[j] in columns;
  }

  /**
   * Leader and margin: the first column with the most votes leads, unless the client shares the lead;
   * a win counts by how much the client is ahead of the best other column, a loss by how much behind.
   */
  lemma OutcomeInFigures(parties: map<Party, int>, columns: seq<Party>, client: Option<Party>)
    ensures
      var o := Judged(parties, columns, client);
      && ((forall c :: c in columns ==> Votes(parties, c) <= 0) ==> o == Outcome(Pending, None, 0))
      && ((exists c :: c in columns && Votes(parties, c) > 0) ==> o.leader.Some?)
      && (o.verdict == Tie ==> o.leader == client && o.margin == 0)
      && (o.verdict == Win ==>
            && o.leader == client && IsFirstLeader(parties, columns, client.value)
            && IsBestOther(parties, columns, client.value, Votes(parties, client.value) - o.margin))
      && (o.verdict == Loss ==>
            && IsFirstLeader(parties, columns, o.leader.value)
            && o.margin == Votes(parties, o.leader.value) - Votes(parties, client.value))
      && (o.verdict == Pending && o.leader.Some? ==>
            && NoClient(client)
            && IsFirstLeader(parties, columns, o.leader.value) && o.margin == Votes(parties, o.leader.value))
  {
    hide With, Top, IsFirstLeader, IsBestOther;
    if Top(parties, columns) > 0 {
      LeaderIsFirst(parties, columns);
      if client.Some? {
        BestOther(parties, columns, client.value);
      }
    }
  }

  lemma BestOther(parties: map<Party, int>, columns: seq<Party>, client: Party)
    ensures IsBestOther(parties, columns, client, Top(parties, With(columns, c => c != client)))
  {
    var others := With(columns, c => c != client);
    assert forall c :: c in others <==> c in columns && c != client;
  }

  // ---------------------------------------------------------------- race tallies

  datatype Tally = Tally(wins: nat, losses: nat, ties: nat, pending: nat)

  /** The first `n` units with a verdict. */
  function UnitsWith(os: seq<Outcome>, n: nat, v: Verdict): set<nat>
    requires n <= |os|
  {
    set i: nat | i < n && os[i].verdict == v
  }

  lemma CountNext(os: seq<Outcome>, i: nat, v: Verdict)
    requires i < |os|
    ensures |UnitsWith(os, i + 1, v)| == |UnitsWith(os, i, v)| + if os[i].verdict == v then 1 else 0
  {
    assert UnitsWith(os, i + 1, v) == if os[i].verdict == v then UnitsWith(os, i, v) + {i} else UnitsWith(os, i, v);
  }

  /** Every unit is counted once. */
  method TallyRace(os: seq<Outcome>) returns (t: Tally)
    ensures t == Tally(
      |UnitsWith(os, |os|, Win)|, |UnitsWith(os, |os|, Loss)|,
      |UnitsWith(os, |os|, Tie)|, |UnitsWith(os, |os|, Pending)|)
    ensures t.wins + t.losses + t.ties + t.pending == |os|
  {
    t := Tally(0, 0, 0, 0);
    for i := 0 to |os|
      invariant t == Tally(
        |UnitsWith(os, i, Win)|, |UnitsWith(os, i, Loss)|, |UnitsWith(os, i, Tie)|, |UnitsWith(os, i, Pending)|)
      invariant t.wins + t.losses + t.ties + t.pending == i
    {
      CountNext(os, i, Win);
      CountNext(os, i, Loss);
      CountNext(os, i, Tie);
      CountNext(os, i, Pending);
      if os[i].verdict == Win {
        t := t.(wins := t.wins + 1);
      } else if os[i].verdict == Loss {
        t := t.(losses := t.losses + 1);
      } else if os[i].verdict == Tie {
        t := t.(ties := t.ties + 1);
      } else {
        t := t.(pending := t.pending + 1);
      }
    }
  }
}
