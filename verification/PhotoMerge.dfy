/** Checking a typed sheet against what was read off the photo of its EC8A form. */
module PhotoMerge {
  import opened Wrappers
  import opened Sheets
  import opened SheetChecks

  /**
   * What was read off a photo.  A field that was not read is not in `fields`; `codes` lists the
   * parties of `partyResults` in the order they are gone through.
   */
  datatype Extract = Extract(
    fields: map<Field, int>,
    partyResults: map<Party, int>,
    codes: seq<Party>,
    confidence: Option<real>,
    unreadable: bool,
    error: Option<string>)

  /** The codes are those of the party map, each once. */
  ghost predicate Listed(x: Extract) {
    && (forall p :: p in x.partyResults <==> p in x.codes)
    && NoRepeats(x.codes)
  }

  const FORM_FIELDS: seq<Field> := [
    RegisteredVoters, AccreditedVoters, BallotPapersIssued, UnusedBallotPapers,
    SpoiledBallotPapers, InvalidVotes, VotesCast, UsedBallotPapers]

  /** The figure typed for a field; no figure for a party that is missing or null. */
  function Typed(s: Sheet, f: Field): Option<int> {
    match f
    case RegisteredVoters => s.registeredVoters
    case AccreditedVoters => s.accreditedVoters
    case BallotPapersIssued => s.ballotPapersIssued
    case UnusedBallotPapers => s.unusedBallotPapers
    case SpoiledBallotPapers => s.spoiledBallotPapers
    case InvalidVotes => s.invalidVotes
    case VotesCast => s.votesCast
    case UsedBallotPapers => s.usedBallotPapers
    case PartyVotes(code) =>
      if s.partyResults.Some? && code in s.partyResults.value then s.partyResults.value[code] else None
  }

  /** The figure read for a field. */
  function Read(x: Extract, f: Field): Option<int> {
    match f
    case PartyVotes(code) => if code in x.partyResults then Some(x.partyResults[code]) else None
    case _ => if f in x.fields then Some(x.fields[f]) else None
  }

  ghost function PhotoSum(x: Extract): Option<int> {
    PartySum(Some(map p | p in x.partyResults :: Some(x.partyResults[p])))
  }

  // ---------------------------------------------------------------- differences

  /** Both sides have the figure, and it is not the same. */
  predicate Disagree(s: Sheet, x: Extract, f: Field) {
    Typed(s, f).Some? && Read(x, f).Some? && Typed(s, f) != Read(x, f)
  }

  function ReadingDiff(s: Sheet, x: Extract, f: Field): seq<Diff> {
    if Disagree(s, x, f)
    then [Diff(f, Typed(s, f).value, Read(x, f).value, PhotoReads(f, Typed(s, f).value, Read(x, f).value))]
    else []
  }

  /** The differences in a list of fields, in its order. */
  function ReadingDiffs(s: Sheet, x: Extract, fields: seq<Field>): seq<Diff> {
    if fields == [] then []
    else ReadingDiffs(s, x, fields[..|fields| - 1]) + ReadingDiff(s, x, fields[|fields| - 1])
  }

  /** The photo's party scores do not add up to the typed valid votes. */
  ghost predicate SumDisagrees(s: Sheet, x: Extract) {
    PhotoSum(x).Some? && s.votesCast.Some? && PhotoSum(x) != s.votesCast
  }

  /** Reported unless the valid votes read off the photo were reported already. */
  ghost function SumDiff(s: Sheet, x: Extract): seq<Diff> {
    if SumDisagrees(s, x) && !Disagree(s, x, VotesCast)
    then
      var typed, total := s.votesCast.value, PhotoSum(x).value;
      [Diff(VotesCast, typed, total, PhotoPartiesTotal(typed, total))]
    else []
  }

  function PartyFields(codes: seq<Party>): seq<Field> {
    seq(|codes|, i requires 0 <= i < |codes| => PartyVotes(codes[i]))
  }

  ghost function PhotoDiffs(s: Sheet, x: Extract): seq<Diff> {
    ReadingDiffs(s, x, FORM_FIELDS) + ReadingDiffs(s, x, PartyFields(x.codes)) + SumDiff(s, x)
  }

  function PhotoFlag(d: Diff): Flag {
    if d.message.PhotoReads? then OcrMismatch(d.message.field) else OcrPartySumNeValid
  }

  /** The flags of photo differences. */
  predicate PhotoFlags(diffs: seq<Diff>, flags: seq<Flag>) {
    |flags| == |diffs| && forall i | 0 <= i < |diffs| :: !diffs[i].message.Fails? && flags[i] == PhotoFlag(diffs[i])
  }

  /** One field on both sides: report a difference. */
  method CompareField(s: Sheet, x: Extract, f: Field, diffs: seq<Diff>, flags: seq<Flag>)
    returns (newDiffs: seq<Diff>, newFlags: seq<Flag>)
    requires PhotoFlags(diffs, flags)
    ensures newDiffs == diffs + ReadingDiff(s, x, f) && PhotoFlags(newDiffs, newFlags)
  {
    newDiffs, newFlags := diffs, flags;
    var read, typed := Read(x, f), Typed(s, f);
    if read.Some? && typed.Some? && read.value != typed.value {
      newDiffs := diffs + [Diff(f, typed.value, read.value, PhotoReads(f, typed.value, read.value))];
      newFlags := flags + [OcrMismatch(f)];
    }
  }

  method CompareFields(s: Sheet, x: Extract, fields: seq<Field>, diffs: seq<Diff>, flags: seq<Flag>)
    returns (newDiffs: seq<Diff>, newFlags: seq<Flag>)
    requires PhotoFlags(diffs, flags)
    ensures newDiffs == diffs + ReadingDiffs(s, x, fields) && PhotoFlags(newDiffs, newFlags)
  {
    hide PhotoFlags, ReadingDiff;
    newDiffs, newFlags := diffs, flags;
    for i := 0 to |fields|
      invariant newDiffs == diffs + ReadingDiffs(s, x, fields[..i]) && PhotoFlags(newDiffs, newFlags)
    {
      newDiffs, newFlags := CompareField(s, x, fields[i], newDiffs, newFlags);
      assert fields[..i + 1][..i] == fields[..i];
    }
    assert fields[..|fields|] == fields;
  }

  // ---------------------------------------------------------------- the merged verdict

  predicate SameComplaint(a: Diff, b: Diff) {
    a.field == b.field && a.message == b.message
  }

  predicate Repeats(earlier: seq<Diff>, d: Diff) {
    exists e | e in earlier :: SameComplaint(e, d)
  }

  /** `ds` without the differences that repeat an earlier one. */
  function Firsts(ds: seq<Diff>): seq<Diff> {
    if ds == [] then []
    else
      var rest, d := ds[..|ds| - 1], ds[|ds| - 1];
      Firsts(rest) + if Repeats(rest, d) then [] else [d]
  }

  method UniqueDiffs(diffs: seq<Diff>) returns (unique: seq<Diff>)
    ensures unique == Firsts(diffs)
  {
    unique := [];
    for i := 0 to |diffs|
      invariant unique == Firsts(diffs[..i])
    {
      var first := 0;
      while !SameComplaint(diffs[first], diffs[i])
        invariant 0 <= first <= i
        invariant forall j | 0 <= j < first :: !SameComplaint(diffs[j], diffs[i])
        decreases i - first
      {
        first := first + 1;
      }
      assert diffs[..i + 1][..i] == diffs[..i];
      assert first < i ==> diffs[first] in diffs[..i];
      if first == i {
        unique := unique + [diffs[i]];
      }
    }
    assert diffs[..|diffs|] == diffs;
  }

  function Without(flags: seq<Flag>, flag: Flag): seq<Flag> {
    if flags == [] then []
    else
      var rest, last := flags[..|flags| - 1], flags[|flags| - 1];
      Without(rest, flag) + if last == flag then [] else [last]
  }

  predicate Unusable(x: Extract) {
    x.unreadable || (x.error.Some? && x.error.value != "")
  }

  function ErrorText(x: Extract): Option<string> {
    if x.error.Some? then x.error
    else if x.unreadable then Some("Could not read digits from the EC8A photo") else None
  }

  /** Everything that was read is passed on; a score in the party map counts before one in the fields. */
  ghost predicate PassesOn(fields: Option<map<Field, int>>, x: Extract) {
    fields.Some? && forall f ::
      (if f in fields.value then Some(fields.value[f]) else None)
      == if Read(x, f).Some? then Read(x, f) else if f in x.fields then Some(x.fields[f]) else None
  }

  /** The merged verdict: the arithmetic one, or both sides together where the photo can be read. */
  ghost predicate Merged(v: Verification, s: Sheet, photos: nat, x: Extract, a: Verification) {
    v.engine == Ocr && v.confidence == x.confidence && v.photoCount == photos && PassesOn(v.ocrFields, x) &&
    if Unusable(x) then
      && v.status == (if a.recommendation == Return then Mismatch else Unreadable)
      && v.recommendation == (if a.recommendation == Return then Return else CheckPhoto)
      && v.ocrError == ErrorText(x) && v.flags == Without(a.flags, OcrPending)
      && v.diffs == a.diffs && v.rejectReason == a.rejectReason
    else
      && v.recommendation == (if a.recommendation == Return || PhotoDiffs(s, x) != [] then Return else Approve)
      && v.status == (if v.recommendation == Return then Mismatch else Match)
      && v.ocrError == None
      && v.diffs == Firsts(a.diffs + PhotoDiffs(s, x)) && v.rejectReason == Reason(v.diffs)
      && exists flags :: PhotoFlags(PhotoDiffs(s, x), flags) && v.flags == Without(a.flags, OcrPending) + flags
  }

  method WithoutFlag(flags: seq<Flag>, flag: Flag) returns (kept: seq<Flag>)
    ensures kept == Without(flags, flag)
  {
    kept := [];
    for i := 0 to |flags|
      invariant kept == Without(flags[..i], flag)
    {
      if flags[i] != flag {
        kept := kept + [flags[i]];
      }
      assert flags[..i + 1][..i] == flags[..i];
    }
    assert flags[..|flags|] == flags;
  }

  method CopyFields(x: Extract) returns (ocrFields: map<Field, int>)
    ensures PassesOn(Some(ocrFields), x)
  {
    ocrFields := x.fields + map p | p in x.partyResults :: PartyVotes(p) := x.partyResults[p];
  }

  method MergeVisionWithArithmetic(s: Sheet, photos: nat, x: Extract, a: Verification) returns (v: Verification)
    requires Listed(x)
    ensures Merged(v, s, photos, x, a)
  {
    hide PhotoFlags, ReadingDiffs, Reason, Firsts, Without, PartySum, ErrorText, PassesOn;
    var ocrFields := CopyFields(x);
    var kept := WithoutFlag(a.flags, OcrPending);
    if x.unreadable || (x.error.Some? && x.error.value != "") {
      return a.(
        engine := Ocr,
        status := if a.recommendation == Return then Mismatch else Unreadable,
        recommendation := if a.recommendation == Return then Return else CheckPhoto,
        confidence := x.confidence,
        photoCount := photos,
        ocrError := ErrorText(x),
        ocrFields := Some(ocrFields),
        flags := kept);
    }
    var found: seq<Diff>, flags: seq<Flag> := [], [];
    assert PhotoFlags(found, flags) by { NoPhotoFlags(); }
    found, flags := CompareFields(s, x, FORM_FIELDS, found, flags);
    found, flags := CompareFields(s, x, PartyFields(x.codes), found, flags);
    var photoSum := PartyVotesSum(Some(map p | p in x.partyResults :: Some(x.partyResults[p])));
    FlaggedFields(s, x, found, flags);
    if photoSum.Some? && s.votesCast.Some? && photoSum.value != s.votesCast.value && OcrMismatch(VotesCast) !in flags {
      found, flags := AddSumDiff(found, flags, s.votesCast.value, photoSum.value);
    }
    assert found == PhotoDiffs(s, x);
    assert (flags == []) == (found == []) by { NoPhotoFlags(); FlagEach(found, flags); }
    var wrong := a.recommendation == Return || |flags| > 0;
    var unique := UniqueDiffs(a.diffs + found);
    var reason := SuggestReason(unique);
    v := Verification(
      if wrong then Mismatch else Match,
      if wrong then Return else Approve,
      Ocr, x.confidence, kept + flags, unique, reason, photos, None, Some(ocrFields));
  }

  method AddSumDiff(diffs: seq<Diff>, flags: seq<Flag>, typed: int, total: int)
    returns (newDiffs: seq<Diff>, newFlags: seq<Flag>)
    requires PhotoFlags(diffs, flags)
    ensures newDiffs == diffs + [Diff(VotesCast, typed, total, PhotoPartiesTotal(typed, total))]
    ensures PhotoFlags(newDiffs, newFlags)
  {
    newDiffs := diffs + [Diff(VotesCast, typed, total, PhotoPartiesTotal(typed, total))];
    newFlags := flags + [OcrPartySumNeValid];
  }

  lemma NoPhotoFlags()
    ensures PhotoFlags([], [])
  {
  }

  lemma FlagEach(diffs: seq<Diff>, flags: seq<Flag>)
    requires PhotoFlags(diffs, flags)
    ensures |flags| == |diffs|
  {
  }

  ghost predicate IsReadingDiff(s: Sheet, x: Extract, fields: seq<Field>, d: Diff) {
    exists f :: f in fields && Disagree(s, x, f) && d == ReadingDiff(s, x, f)[0]
  }

  lemma {:induction false} ReadingDiffsExactly(s: Sheet, x: Extract, fields: seq<Field>)
    ensures forall d :: d in ReadingDiffs(s, x, fields) <==> IsReadingDiff(s, x, fields, d)
  {
    if fields == [] {
    } else {
      var rest, last := fields[..|fields| - 1], fields[|fields| - 1];
      ReadingDiffsExactly(s, x, rest);
      assert fields == rest + [last];
    }
  }

  /** The valid votes are flagged exactly if they were found to disagree. */
  lemma FlaggedFields(s: Sheet, x: Extract, diffs: seq<Diff>, flags: seq<Flag>)
    requires PhotoFlags(diffs, flags)
    requires diffs == [] + ReadingDiffs(s, x, FORM_FIELDS) + ReadingDiffs(s, x, PartyFields(x.codes))
    ensures OcrMismatch(VotesCast) in flags <==> Disagree(s, x, VotesCast)
  {
    ReadingDiffsExactly(s, x, FORM_FIELDS);
    ReadingDiffsExactly(s, x, PartyFields(x.codes));
    assert FORM_FIELDS[6] == VotesCast;
    if Disagree(s, x, VotesCast) {
      var d := ReadingDiff(s, x, VotesCast)[0];
      assert d in diffs;
      var i :| 0 <= i < |diffs| && diffs[i] == d;
      assert flags[i] == OcrMismatch(VotesCast);
    }
    if OcrMismatch(VotesCast) in flags {
      var i :| 0 <= i < |flags| && flags[i] == OcrMismatch(VotesCast);
      assert diffs[i] in diffs;
    }
  }

  // ---------------------------------------------------------------- no difference is reported twice

  /** What a difference is about. */
  datatype Topic = AboutRelation(relation: Relation) | AboutReading(field: Field) | AboutPartySum

  function TopicOf(d: Diff): Topic {
    match d.message
    case Fails(relation, _, _) => AboutRelation(relation)
    case PhotoReads(field, _, _) => AboutReading(field)
    case PhotoPartiesTotal(_, _) => AboutPartySum
  }

  ghost predicate OwnTopics(ds: seq<Diff>) {
    forall i, j :: 0 <= i < j < |ds| ==> TopicOf(ds[i]) != TopicOf(ds[j])
  }

  ghost predicate Strangers(a: seq<Diff>, b: seq<Diff>) {
    forall d, e :: d in a && e in b ==> TopicOf(d) != TopicOf(e)
  }

  lemma OwnTopicsTogether(a: seq<Diff>, b: seq<Diff>)
    requires OwnTopics(a) && OwnTopics(b) && Strangers(a, b)
    ensures OwnTopics(a + b)
  {
    var ds := a + b;
    forall i, j | 0 <= i < j < |ds|
      ensures TopicOf(ds[i]) != TopicOf(ds[j])
    {
      if i < |a| <= j {
        assert ds[i] in a && ds[j] in b;
      }
    }
  }

  lemma LastTopic(ds: seq<Diff>)
    requires ds != [] && OwnTopics(ds)
    ensures OwnTopics(ds[..|ds| - 1])
    ensures !Repeats(ds[..|ds| - 1], ds[|ds| - 1])
  {
  }

  lemma {:induction false} OwnTopicsStay(ds: seq<Diff>)
    requires OwnTopics(ds)
    ensures Firsts(ds) == ds
  {
    if ds == [] {
    } else {
      hide OwnTopics, Repeats;
      LastTopic(ds);
      OwnTopicsStay(ds[..|ds| - 1]);
    }
  }

  ghost predicate OnlyAbout(ds: seq<Diff>, topics: set<Topic>) {
    OwnTopics(ds) && forall d :: d in ds ==> TopicOf(d) in topics
  }

  lemma OnlyAboutTogether(a: seq<Diff>, b: seq<Diff>, x: set<Topic>, y: set<Topic>)
    requires OnlyAbout(a, x) && OnlyAbout(b, y) && x !! y
    ensures OnlyAbout(a + b, x + y)
  {
    OwnTopicsTogether(a, b);
  }

  lemma ComplaintTopics(s: Sheet)
    ensures OwnTopics(AllComplaints(s))
    ensures forall d :: d in AllComplaints(s) ==> TopicOf(d).AboutRelation?
  {
    forall r
      ensures OnlyAbout(Complaints(r, s), {AboutRelation(r)})
    {
    }
    hide OwnTopics, Complaints;
    var a, b, c, d, e := AboutRelation(AccreditedWithinRegistered), AboutRelation(PartiesMakeValidVotes),
      AboutRelation(PartsMakeUsedBallots), AboutRelation(UsedAndUnusedMakeIssued), AboutRelation(AccreditedAreUsed);
    var all := Complaints(a.relation, s);
    OnlyAboutTogether(all, Complaints(b.relation, s), {a}, {b});
    all := all + Complaints(b.relation, s);
    OnlyAboutTogether(all, Complaints(c.relation, s), {a} + {b}, {c});
    all := all + Complaints(c.relation, s);
    OnlyAboutTogether(all, Complaints(d.relation, s), {a} + {b} + {c}, {d});
    all := all + Complaints(d.relation, s);
    OnlyAboutTogether(all, Complaints(e.relation, s), {a} + {b} + {c} + {d}, {e});
  }

  lemma {:induction false} ReadingTopics(s: Sheet, x: Extract, fields: seq<Field>)
    requires NoRepeats(fields)
    ensures OwnTopics(ReadingDiffs(s, x, fields))
  {
    if fields == [] {
    } else {
      var rest, f := fields[..|fields| - 1], fields[|fields| - 1];
      ReadingTopics(s, x, rest);
      ReadingDiffsExactly(s, x, rest);
      OwnTopicsTogether(ReadingDiffs(s, x, rest), ReadingDiff(s, x, f));
    }
  }

  lemma ReadingsAbout(s: Sheet, x: Extract, fields: seq<Field>, d: Diff)
    requires d in ReadingDiffs(s, x, fields)
    ensures TopicOf(d).AboutReading? && TopicOf(d).field in fields
  {
    ReadingDiffsExactly(s, x, fields);
    assert IsReadingDiff(s, x, fields, d);
  }

  lemma ReadingsAreStrangers(s: Sheet, x: Extract)
    ensures Strangers(ReadingDiffs(s, x, FORM_FIELDS), ReadingDiffs(s, x, PartyFields(x.codes)))
  {
    hide ReadingDiffs;
    forall d, e | d in ReadingDiffs(s, x, FORM_FIELDS) && e in ReadingDiffs(s, x, PartyFields(x.codes))
      ensures TopicOf(d) != TopicOf(e)
    {
      ReadingsAbout(s, x, FORM_FIELDS, d);
      ReadingsAbout(s, x, PartyFields(x.codes), e);
    }
  }

  lemma PhotoTopicsAreOwn(s: Sheet, x: Extract)
    requires Listed(x)
    ensures OwnTopics(PhotoDiffs(s, x))
  {
    var form, party := ReadingDiffs(s, x, FORM_FIELDS), ReadingDiffs(s, x, PartyFields(x.codes));
    ReadingTopics(s, x, FORM_FIELDS);
    ReadingTopics(s, x, PartyFields(x.codes));
    ReadingsAreStrangers(s, x);
    OwnTopicsTogether(form, party);
    OneTopic(SumDiff(s, x));
    SumIsAStranger(s, x);
    hide ReadingDiffs, OwnTopics, Strangers, SumDiff;
    OwnTopicsTogether(form + party, SumDiff(s, x));
  }

  lemma PhotoTopics(s: Sheet, x: Extract, d: Diff)
    requires d in PhotoDiffs(s, x)
    ensures !TopicOf(d).AboutRelation?
  {
    hide ReadingDiffs;
    if d in ReadingDiffs(s, x, FORM_FIELDS) {
      ReadingsAbout(s, x, FORM_FIELDS, d);
    } else if d in ReadingDiffs(s, x, PartyFields(x.codes)) {
      ReadingsAbout(s, x, PartyFields(x.codes), d);
    }
  }

  lemma SumIsAStranger(s: Sheet, x: Extract)
    ensures Strangers(ReadingDiffs(s, x, FORM_FIELDS) + ReadingDiffs(s, x, PartyFields(x.codes)), SumDiff(s, x))
  {
    hide ReadingDiffs;
    forall d | d in ReadingDiffs(s, x, FORM_FIELDS) + ReadingDiffs(s, x, PartyFields(x.codes))
      ensures TopicOf(d) != AboutPartySum
    {
      if d in ReadingDiffs(s, x, FORM_FIELDS) {
        ReadingsAbout(s, x, FORM_FIELDS, d);
      } else {
        ReadingsAbout(s, x, PartyFields(x.codes), d);
      }
    }
  }

  lemma OneTopic(ds: seq<Diff>)
    requires |ds| <= 1
    ensures OwnTopics(ds)
  {
  }

  /** Removing repeats removes nothing: every difference found is reported, once. */
  lemma NothingIsDropped(s: Sheet, photos: nat, x: Extract, a: Verification)
    requires Listed(x) && Checked(a, s, photos)
    ensures Firsts(a.diffs + PhotoDiffs(s, x)) == a.diffs + PhotoDiffs(s, x)
  {
    ComplaintTopics(s);
    PhotoTopicsAreOwn(s, x);
    forall d | d in PhotoDiffs(s, x)
      ensures !TopicOf(d).AboutRelation?
    {
      PhotoTopics(s, x, d);
    }
    hide OwnTopics, PhotoDiffs, AllComplaints, Firsts;
    OwnTopicsTogether(a.diffs, PhotoDiffs(s, x));
    OwnTopicsStay(a.diffs + PhotoDiffs(s, x));
  }

  // ---------------------------------------------------------------- what the verdict means

  /** Nothing on the sheet contradicts the photo. */
  ghost predicate Agree(s: Sheet, x: Extract) {
    (forall f :: !Disagree(s, x, f)) && !SumDisagrees(s, x)
  }

  lemma NoPhotoDiffsExactly(s: Sheet, x: Extract)
    requires Listed(x)
    ensures PhotoDiffs(s, x) == [] <==> Agree(s, x)
  {
    ReadingDiffsExactly(s, x, FORM_FIELDS);
    ReadingDiffsExactly(s, x, PartyFields(x.codes));
    if f :| Disagree(s, x, f) {
      var d := ReadingDiff(s, x, f)[0];
      IsOnTheForm(x, f);
      assert d in PhotoDiffs(s, x);
    }
    if PhotoDiffs(s, x) != [] {
      assert PhotoDiffs(s, x)[0] in PhotoDiffs(s, x);
    }
  }

  lemma IsOnTheForm(x: Extract, f: Field)
    requires Listed(x) && Read(x, f).Some?
    ensures f in FORM_FIELDS || f in PartyFields(x.codes)
  {
    match f
    case PartyVotes(code) =>
      var i :| 0 <= i < |x.codes| && x.codes[i] == code;
      assert PartyFields(x.codes)[i] == f;
    case RegisteredVoters => assert FORM_FIELDS[0] == f;
    case AccreditedVoters => assert FORM_FIELDS[1] == f;
    case BallotPapersIssued => assert FORM_FIELDS[2] == f;
    case UnusedBallotPapers => assert FORM_FIELDS[3] == f;
    case SpoiledBallotPapers => assert FORM_FIELDS[4] == f;
    case InvalidVotes => assert FORM_FIELDS[5] == f;
    case VotesCast => assert FORM_FIELDS[6] == f;
    case UsedBallotPapers => assert FORM_FIELDS[7] == f;
  }

  /**
   * With a readable photo: APPROVE exactly if no relation fails and photo and sheet agree, RETURN
   * exactly if some difference is reported, and the differences are all those of either check.
   */
  lemma MergeVerdictExactly(v: Verification, s: Sheet, photos: nat, x: Extract, a: Verification)
    requires Listed(x) && Checked(a, s, photos) && Merged(v, s, photos, x, a) && !Unusable(x)
    ensures v.recommendation == Approve <==> (forall r :: Holds(r, s)) && Agree(s, x)
    ensures v.recommendation == Return <==> v.diffs != []
    ensures v.diffs == AllComplaints(s) + PhotoDiffs(s, x)
  {
    ComplaintsExactly(s);
    NoPhotoDiffsExactly(s, x);
    NothingIsDropped(s, photos, x, a);
  }

  /** The photo gives the figure that was typed, where both are there. */
  predicate Same(typed: Option<int>, fields: map<Field, int>, f: Field) {
    typed.Some? && f in fields ==> fields[f] == typed.value
  }

  /** Sheet and photo agree, figure by figure and party by party, and so do the photo's scores and its total. */
  ghost predicate AgreeInFigures(s: Sheet, x: Extract) {
    && Same(s.registeredVoters, x.fields, RegisteredVoters)
    && Same(s.accreditedVoters, x.fields, AccreditedVoters)
    && Same(s.ballotPapersIssued, x.fields, BallotPapersIssued)
    && Same(s.unusedBallotPapers, x.fields, UnusedBallotPapers)
    && Same(s.spoiledBallotPapers, x.fields, SpoiledBallotPapers)
    && Same(s.invalidVotes, x.fields, InvalidVotes)
    && Same(s.votesCast, x.fields, VotesCast)
    && Same(s.usedBallotPapers, x.fields, UsedBallotPapers)
    && (s.partyResults.Some? ==> forall p ::
          p in x.partyResults && p in s.partyResults.value && s.partyResults.value[p].Some? ==>
            x.partyResults[p] == s.partyResults.value[p].value)
    && (x.partyResults != map[] && s.votesCast.Some? ==> PartyTotal(x.partyResults) == s.votesCast.value)
  }

  lemma PhotoSumExactly(x: Extract)
    ensures PhotoSum(x) == if x.partyResults == map[] then None else Some(PartyTotal(x.partyResults))
  {
    var m := map p | p in x.partyResults :: Some(x.partyResults[p]);
    assert Numbers(m) == x.partyResults;
  }

  lemma AgreeExactly(s: Sheet, x: Extract)
    ensures Agree(s, x) <==> AgreeInFigures(s, x)
  {
    hide PartyTotal, PhotoSum;
    PhotoSumExactly(x);
    if Agree(s, x) {
      assert !Disagree(s, x, RegisteredVoters) && !Disagree(s, x, AccreditedVoters);
      assert !Disagree(s, x, BallotPapersIssued) && !Disagree(s, x, UnusedBallotPapers);
      assert !Disagree(s, x, SpoiledBallotPapers) && !Disagree(s, x, InvalidVotes);
      assert !Disagree(s, x, VotesCast) && !Disagree(s, x, UsedBallotPapers);
      forall p | p in x.partyResults && s.partyResults.Some? && p in s.partyResults.value
        ensures s.partyResults.value[p].Some? ==> x.partyResults[p] == s.partyResults.value[p].value
      {
        assert !Disagree(s, x, PartyVotes(p));
      }
    }
    if AgreeInFigures(s, x) {
      forall f
        ensures !Disagree(s, x, f)
      {
      }
    }
  }

  /**
   * With a readable photo the sheet is approved exactly if its own figures balance and every figure and
   * score that is on both sides is the same.
   */
  lemma ApprovedExactly(v: Verification, s: Sheet, photos: nat, x: Extract, a: Verification)
    requires Listed(x) && Checked(a, s, photos) && Merged(v, s, photos, x, a) && !Unusable(x)
    ensures v.recommendation == Approve <==> Balances(s) && AgreeInFigures(s, x)
  {
    hide Merged, Checked, AgreeInFigures, Balances, Agree;
    MergeVerdictExactly(v, s, photos, x, a);
    RelationsExactly(s);
    AgreeExactly(s, x);
  }

  /** What a difference from the photo says: the field, the figure typed in it, and what the photo gives. */
  ghost predicate SaysWhatDiffers(s: Sheet, x: Extract, d: Diff) {
    match d.message
    case Fails(_, _, _) => false
    case PhotoPartiesTotal(typed, total) =>
      && d == Diff(VotesCast, typed, total, d.message) && s.votesCast == Some(typed)
      && x.partyResults != map[] && PartyTotal(x.partyResults) == total
    case PhotoReads(field, typed, read) =>
      d == Diff(field, typed, read, d.message) && typed != read &&
      match field
      case RegisteredVoters => s.registeredVoters == Some(typed) && field in x.fields && x.fields[field] == read
      case AccreditedVoters => s.accreditedVoters == Some(typed) && field in x.fields && x.fields[field] == read
      case BallotPapersIssued => s.ballotPapersIssued == Some(typed) && field in x.fields && x.fields[field] == read
      case UnusedBallotPapers => s.unusedBallotPapers == Some(typed) && field in x.fields && x.fields[field] == read
      case SpoiledBallotPapers => s.spoiledBallotPapers == Some(typed) && field in x.fields && x.fields[field] == read
      case InvalidVotes => s.invalidVotes == Some(typed) && field in x.fields && x.fields[field] == read
      case VotesCast => s.votesCast == Some(typed) && field in x.fields && x.fields[field] == read
      case UsedBallotPapers => s.usedBallotPapers == Some(typed) && field in x.fields && x.fields[field] == read
      case PartyVotes(code) =>
        && s.partyResults.Some? && code in s.partyResults.value && s.partyResults.value[code] == Some(typed)
        && code in x.partyResults && x.partyResults[code] == read
  }

  lemma PhotoDiffsSayWhatDiffers(s: Sheet, x: Extract, d: Diff)
    requires d in PhotoDiffs(s, x)
    ensures SaysWhatDiffers(s, x, d)
  {
    hide ReadingDiffs, PartyTotal, PhotoSum;
    PhotoSumExactly(x);
    ReadingDiffsExactly(s, x, FORM_FIELDS);
    ReadingDiffsExactly(s, x, PartyFields(x.codes));
  }

  /** A photo that cannot be read never withdraws an arithmetic RETURN, and never approves. */
  lemma UnreadablePhotoNeverApproves(v: Verification, s: Sheet, photos: nat, x: Extract, a: Verification)
    requires Checked(a, s, photos) && Merged(v, s, photos, x, a) && Unusable(x)
    ensures v.recommendation == Return <==> exists r :: !Holds(r, s)
    ensures v.recommendation != Approve && v.diffs == AllComplaints(s)
  {
    ComplaintsExactly(s);
  }

  lemma NothingTypedAgrees(s: Sheet, x: Extract)
    requires !HasAnyFigures(s)
    ensures Agree(s, x)
  {
    forall f
      ensures Typed(s, f).None?
    {
      if f.PartyVotes? && s.partyResults.Some? && f.code in s.partyResults.value {
        AnyNumber(s.partyResults.value);
      }
    }
  }

  /** A sheet without any figure is approved on the strength of any readable photo. */
  lemma EmptySheetIsApproved(v: Verification, s: Sheet, photos: nat, x: Extract, a: Verification)
    requires Listed(x) && Checked(a, s, photos) && Merged(v, s, photos, x, a) && !Unusable(x)
    requires !HasAnyFigures(s)
    ensures a.recommendation == CheckPhoto && v.recommendation == Approve && v.status == Match
  {
    ComplaintsExactly(s);
    NothingTypedAgrees(s, x);
    NoPhotoDiffsExactly(s, x);
  }
}
