/** Completing what was read off a form from the form's own sums, and how far it is then trusted. */
module ExtractFinishing {
  import opened Wrappers
  import opened Sheets
  import opened SheetChecks

  /** The fields that were read; a field that was not is missing. */
  type Figures = map<Field, int>

  function At(fields: Figures, f: Field): Option<int> {
    if f in fields then Some(fields[f]) else None
  }

  ghost function ReadSum(parties: map<Party, int>): Option<int> {
    PartySum(Some(map p | p in parties :: Some(parties[p])))
  }

  /** The party scores replace valid votes that are missing or too small to be a total. */
  predicate TakesPartySum(valid: Option<int>, sum: Option<int>) {
    sum.Some? && sum.value >= 10 && (valid.None? || valid.value < 10)
  }

  /** Each figure as it is after completion. */
  ghost predicate Completed(r: Figures, fields: Figures, sum: Option<int>) {
    && (forall f :: f !in {VotesCast, UsedBallotPapers, BallotPapersIssued} ==> At(r, f) == At(fields, f))
    && At(r, VotesCast) == (if TakesPartySum(At(fields, VotesCast), sum) then sum else At(fields, VotesCast))
    && At(r, UsedBallotPapers) == (
         if UsedBallotPapers in fields then At(fields, UsedBallotPapers)
         else if VotesCast in r then Some(At(r, SpoiledBallotPapers).Or(0) + At(r, InvalidVotes).Or(0) + r[VotesCast])
         else At(r, AccreditedVoters))
    && At(r, BallotPapersIssued) == (
         if BallotPapersIssued in fields then At(fields, BallotPapersIssued)
         else if UsedBallotPapers in r && UnusedBallotPapers in r then Some(r[UsedBallotPapers] + r[UnusedBallotPapers])
         else None)
  }

  method SumRead(parties: map<Party, int>) returns (sum: Option<int>)
    ensures sum == ReadSum(parties)
  {
    sum := PartyVotesSum(Some(map p | p in parties :: Some(parties[p])));
  }

  method ReconcileExtract(fields: Figures, parties: map<Party, int>) returns (r: Figures)
    ensures Completed(r, fields, ReadSum(parties))
  {
    hide ReadSum;
    r := fields;
    var partySum := SumRead(parties);
    if partySum.Some? && partySum.value >= 10 {
      if VotesCast !in r || r[VotesCast] < 10 || r[VotesCast] == partySum.value {
        r := r[VotesCast := partySum.value];
      }
    }
    r := FillUsed(r);
    if BallotPapersIssued !in r && UsedBallotPapers in r && UnusedBallotPapers in r {
      r := r[BallotPapersIssued := r[UsedBallotPapers] + r[UnusedBallotPapers]];
    }
  }

  /** Used ballots from their parts, or else from the accredited voters. */
  method FillUsed(fields: Figures) returns (r: Figures)
    ensures r == if UsedBallotPapers in fields then fields
      else if VotesCast in fields
      then fields[UsedBallotPapers :=
        At(fields, SpoiledBallotPapers).Or(0) + At(fields, InvalidVotes).Or(0) + fields[VotesCast]]
      else if AccreditedVoters in fields then fields[UsedBallotPapers := fields[AccreditedVoters]]
      else fields
  {
    r := fields;
    var spoiled := At(r, SpoiledBallotPapers).Or(0);
    var rejected := At(r, InvalidVotes).Or(0);
    if VotesCast in r && UsedBallotPapers !in r {
      r := r[UsedBallotPapers := spoiled + rejected + r[VotesCast]];
    }
    if AccreditedVoters in r && UsedBallotPapers !in r {
      r := r[UsedBallotPapers := r[AccreditedVoters]];
    }
  }

  /** Completion is done after one pass: a second changes nothing. */
  lemma CompletionIsFixed(fields: Figures, once: Figures, twice: Figures, sum: Option<int>)
    requires Completed(once, fields, sum) && Completed(twice, once, sum)
    ensures twice == once
  {
    assert At(twice, VotesCast) == At(once, VotesCast);
    assert At(twice, UsedBallotPapers) == At(once, UsedBallotPapers);
    assert At(twice, UnusedBallotPapers) == At(once, UnusedBallotPapers);
    assert At(twice, BallotPapersIssued) == At(once, BallotPapersIssued);
    assert forall f :: f in twice <==> At(twice, f).Some?;
    assert forall f :: f in once <==> At(once, f).Some?;
  }

  /** Figures that were filled in make the form's own sums come out, and no figure that was read is lost. */
  lemma FilledFiguresBalance(fields: Figures, r: Figures, sum: Option<int>)
    requires Completed(r, fields, sum)
    ensures fields.Keys <= r.Keys && forall f :: f in fields && f != VotesCast ==> r[f] == fields[f]
    ensures UsedBallotPapers !in fields && SpoiledBallotPapers in fields && InvalidVotes in fields && VotesCast in r
      ==> r[UsedBallotPapers] == fields[SpoiledBallotPapers] + fields[InvalidVotes] + r[VotesCast]
    ensures BallotPapersIssued !in fields && BallotPapersIssued in r
      ==> UnusedBallotPapers in fields && r[BallotPapersIssued] == r[UsedBallotPapers] + fields[UnusedBallotPapers]
    ensures VotesCast in r && (VotesCast !in fields || r[VotesCast] != fields[VotesCast])
      ==> sum == Some(r[VotesCast]) && r[VotesCast] >= 10 && (VotesCast in fields ==> fields[VotesCast] < 10)
  {
    forall f | f in fields
      ensures f in r && (f != VotesCast ==> r[f] == fields[f])
    {
      assert f !in {VotesCast, UsedBallotPapers, BallotPapersIssued} ==> At(r, f) == At(fields, f);
    }
    assert At(r, SpoiledBallotPapers) == At(fields, SpoiledBallotPapers);
    assert At(r, InvalidVotes) == At(fields, InvalidVotes);
    assert At(r, UnusedBallotPapers) == At(fields, UnusedBallotPapers);
    assert At(r, VotesCast).Some? <==> VotesCast in r;
    assert At(r, UsedBallotPapers).Some? <==> UsedBallotPapers in r;
    assert At(r, BallotPapersIssued).Some? <==> BallotPapersIssued in r;
  }

  // ---------------------------------------------------------------- confidence

  predicate PartsMakeTotal(fields: Figures) {
    && UsedBallotPapers in fields && SpoiledBallotPapers in fields && InvalidVotes in fields && VotesCast in fields
    && fields[UsedBallotPapers] == fields[SpoiledBallotPapers] + fields[InvalidVotes] + fields[VotesCast]
  }

  datatype Trust = Trust(confidence: Option<real>, unreadable: bool)

  predicate IdentitiesHold(fields: Figures, sum: Option<int>) {
    (sum.Some? && At(fields, VotesCast) == sum) || PartsMakeTotal(fields)
  }

  /**
   * Nothing read, no trust; full trust where one of the form's own sums comes out; otherwise one
   * sixteenth for each value read, up to 65 percent, and at seven values or fewer the form is unreadable.
   */
  ghost predicate IsTrust(t: Trust, fields: Figures, parties: map<Party, int>) {
    var count, identities := |fields| + |parties|, IdentitiesHold(fields, ReadSum(parties));
    && (t.confidence.None? <==> count == 0)
    && (count > 0 && identities ==> t.confidence == Some(1.0))
    && (count > 0 && !identities && 10 * count >= 104 ==> t.confidence == Some(0.65))
    && (count > 0 && !identities && 10 * count < 104 ==>
          t.confidence.Some? && 16.0 * t.confidence.value == count as real)
    && (t.unreadable <==> count == 0 || (!identities && count <= 7))
  }

  method FinishExtract(fields: Figures, parties: map<Party, int>) returns (t: Trust)
    ensures IsTrust(t, fields, parties)
  {
    hide ReadSum;
    var count := |fields| + |parties|;
    var partySum := SumRead(parties);
    var identitiesHold :=
      (partySum.Some? && VotesCast in fields && partySum.value == fields[VotesCast]) || PartsMakeTotal(fields);
    var share := count as real / 16.0;
    var confidence := if count == 0 then None else if identitiesHold then Some(1.0)
      else Some(if share < 0.65 then share else 0.65);
    t := Trust(confidence, count == 0 || (confidence.Some? && confidence.value < 0.45));
  }

  /** A form whose valid votes were not read is trusted in full once its party scores stand in for them. */
  lemma PartySumEarnsTrust(fields: Figures, r: Figures, parties: map<Party, int>, t: Trust)
    requires Completed(r, fields, ReadSum(parties)) && TakesPartySum(At(fields, VotesCast), ReadSum(parties))
    requires IsTrust(t, r, parties)
    ensures t == Trust(Some(1.0), false)
  {
    hide ReadSum;
    assert At(r, VotesCast) == ReadSum(parties);
    assert VotesCast in r.Keys;
  }
}
