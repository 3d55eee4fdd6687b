# Verification of the collation backend

This project models, in Dafny, how an election-collation backend turns polling-unit result sheets into
published ward, LGA and state totals, how it reads and checks the photographed EC8A forms behind those
sheets, and several figures that it computes in two different ways. It states what must hold of these
parts for all inputs and all runs, and proves it.

`dafny verify dfyconfig.toml` checks everything.

## How the model is laid out

**Workflow.** A table maps (contest, level, scope) to a result row: eight figures, a party map, a status,
a rejection reason, flagged polling units and wards, photos and the row's action log. `Workflow` specifies
each service call as a function from tables to tables, with its errors; the class
`CollationService.Service` carries the calls out step by step, with the program's loops and updates in
place, and each of its methods is proved to leave exactly the specified table. `Runs` puts the calls
together into runs from the empty table. `Effects` reduces every call to the operations it performs on
single rows, which gives one induction principle (`Effects.CallRelated`) for everything that is said
about rows; `Invariants`, `Transitions`, `Conservation` and `BulkReturns` hold the results, and
`Scenarios` the runs from the empty table that reach what the documentation rules out. Independently of
how the calls are specified, `Authority` says who may make which call, `RowEffects` and `ReturnEffects`
what each accepted call leaves in every row, field by field, `Publication` which rows a published row adds
up, in every table, and `TypedFigures` that figures typed over a DRAFT row go nowhere.

**Number words and score columns.** `NumberParser` is the greedy parser, `Spelling` the canonical
spelling of 0 to 999,999 and the exact condition under which two numbers in a row are told apart,
`ScoreColumn` the reader of a whole column, `NumberWords` the word tables on real strings.

**Checks of a sheet.** `SheetChecks` is the arithmetic check with its five relations, `CheckedRollups`
carries it up through the roll-ups of every run, `PhotoMerge` compares a typed sheet with what was read
off the photo, `FieldAssignment` deals numbers out to labels, `ExtractFinishing` completes an extract.

**Two ways to one figure.** `Grouping` adds up records in any commutative monoid, by group or at once;
`Pipelines`, `Coverage` and `Incidents` use it, and each has a method that runs both ways. `Outcomes` has
the two outcome functions, `Attention` the IReV accounting and the top-eight lists.

**Register.** `RegisterLists`, `RegisterAlignment` and `RegisterFiles` are the in-place corrections of
five wards, `Roster` the validator of Assembly seats and the assignment loop it guards, `RowClusters` the
grouping of scanned words into rows. `Sorting` is the stable sort they share.

## What was found

- The resubmission of a ward is documented as possible once every polling unit is APPROVED again
  (src/modules/collation/collation.service.ts:2255-2258). The code does not look at the units:
  `Transitions.WardResubmissionChecksNoUnits` proves that a returned ward's resubmission is accepted in
  every case and that its units are all approved afterwards exactly if they were before, and
  `Scenarios.WardIsApprovedOverRejectedUnit` is a run that ends with an APPROVED ward over a REJECTED unit.
- An LGA or state officer may save over a returned roll-up; the row becomes a DRAFT that no later roll-up
  counts (`Publication.WrittenRowsShow`, and over runs `TypedFigures.TypedFiguresStayOut`). `Conservation.SaveKeepsConservationExactly` gives the exact condition under which a save leaves
  every published total right whatever is typed.
- A submission by an LGA officer leaves flagged wards on a row that is no longer REJECTED
  (`Scenarios.FlagsOutliveTheReturn` is such a run). `Invariants.CallKeepsBooksExactly` and
  `Invariants.RunIsBookkeptExactly` say which calls break the rejection bookkeeping of a table and of a run:
  accepted submissions of rows with flagged wards and accepted saves over a roll-up, and no others.
- The figures of a state differ from the sums over its LGAs as soon as a polling unit has rows in two
  contests, since only one of the two routes asks for the contest: `Coverage.CoverageAgreesExactly` and
  `Pipelines.PipelinesAgreeExactly` give the exact conditions, `Coverage.OtherContestIsCounted` and
  `Pipelines.OtherContestIsCounted` an input each.
- An incomplete sheet can pass the arithmetic check and make every roll-up above it fail
  (`SheetChecks.IncompleteSheetMayFailAbove`); `SheetChecks.PublishedMatchesExactly` and
  `CheckedRollups.RollupVerdictExactly` say when a roll-up passes.
- A typed sheet without a single figure is recommended for approval on the strength of any readable photo
  (`PhotoMerge.EmptySheetIsApproved`).
- The parts of a delimitation are taken one place too early when a record is cloned
  (`RegisterLists.PartsAreShifted`), since the first part is skipped and the rest is given to the state.
- Without its template units the alignment may change records when it is applied again, though not the
  delimitations and names (`RegisterAlignment.WithoutModelRecordsMayChange`);
  `RegisterAlignment.AlignmentIsFixedExactly` says exactly when it does not.
- `getParentLevel` returns the level below, not above (shared/src/collation.ts:199-202); the model takes
  it as it is (`Hierarchy.SubordinateIsPredecessor`).

## Model

| member | source | states |
|---|---|---|
| Sheets.SumOfGroups | src/modules/collation/collation.service.ts:2870-2893 | adding up sheets that each add up a group is adding up the members of all groups, party by party and figure by figure |
| Sheets.SumTakeOut | src/modules/collation/collation.service.ts:2870-2893 | the total of a set of sheets does not depend on the order in which they are added |
| Sheets.PublishedShowsTotals | src/modules/collation/collation.service.ts:2870-2931 | each of the eight figures of a published total is the sum of that figure of the sheets, a missing one counting as zero, and a party is in it iff some sheet names it, with the sum of its scores |
| CollationService.Service.SumFigures | src/modules/collation/collation.service.ts:2870-2893 | the loop over the children computes the total of the eight figures, a missing figure counting as zero |
| CollationService.Service.AggregatePartyResults | src/modules/collation/collation.service.ts:2804-2816 | the loop over the children computes the merged party map |
| CollationService.Service.AddParties | src/modules/collation/collation.service.ts:2804-2816 | one sheet's scores are added party by party to the totals so far, null scores as zero |
| CollationService.Service.RollupToParent | src/modules/collation/collation.service.ts:2818-2988 | a roll-up writes the sum of the counted children, with the status, reason and flags that follow from what was there; nothing is written where there is neither a row nor a child; a ward, LGA or state row shows afterwards, figure by figure, the sum over its APPROVED units, or over its SUBMITTED, APPROVED and REJECTED wards or LGAs |
| CollationService.Service.PublishAncestryRollups | src/modules/collation/collation.service.ts:2990-3071 | publication rolls up the ward, then its LGA, then its state, starting at the level of the changed row, and never the nation |
| CollationService.Service.UpsertResult | src/modules/collation/collation.service.ts:1720-1797 | a save makes the officer's own row a DRAFT and is refused to ward officers and on submitted or approved rows; in the returned row each of the eight figures, the party map and the photos is the given value where one was given and the stored one otherwise |
| CollationService.Service.AttachEc8aPhoto | src/modules/collation/collation.service.ts:1799-1819 | a photo is appended to the officer's own row while it is open for editing, else the error says why not |
| CollationService.Service.SubmitResult | src/modules/collation/collation.service.ts:1832-1923 | a submission needs the own row, open for editing, and a photo for a polling unit; it logs the step and changes no figure |
| CollationService.Service.ApproveResult | src/modules/collation/collation.service.ts:1925-2000 | an approval is accepted iff the row is a SUBMITTED polling unit and the user is an officer of the ward it lies in by the register; it republishes the ward with its rejection cleared |
| CollationService.Service.AutoReturnChildResults | src/modules/collation/collation.service.ts:2675-2751 | the submitted and approved rows among the given children are returned and logged, all others stay |
| CollationService.Service.MarkReturned | src/modules/collation/collation.service.ts:2066-2134 | the row becomes REJECTED with reason, log entry and flags, and its flagged children are returned with it |
| CollationService.Service.RejectResult | src/modules/collation/collation.service.ts:2002-2189 | a return marks the row and its flagged children and republishes above it, keeping a returned roll-up REJECTED; flags that are no children are refused |
| CollationService.Service.Republish | src/modules/collation/collation.service.ts:2259-2343 | a resubmission by the officer of a REJECTED roll-up republishes it with the rejection cleared, returns the row as published, and logs the step |
| CollationService.Service.ResubmitWardToLga | src/modules/collation/collation.service.ts:2259-2343 | the ward officer's resubmission of the returned ward |
| CollationService.Service.ResubmitLgaToState | src/modules/collation/collation.service.ts:1554-1631 | the LGA officer's resubmission of the returned LGA |
| CollationService.Service.CommentResult | src/modules/collation/collation.service.ts:2191-2253 | a comment of at least three characters by an LGA, state or national officer or an admin adds a log entry and nothing else |
| CollationService.Service.ReturnedWards | src/modules/collation/collation.service.ts:2365-2384 | the contests in which the ward was returned with flagged units are found, each once |
| CollationService.Service.ReturnLgaFlaggedPus | src/modules/collation/collation.service.ts:2349-2421 | in every reachable table the bulk return leaves the specified table; it reports how many flagged units were SUBMITTED or APPROVED when it began, how many were flagged, and the reason given for the last contest |
| CollationService.Service.ReturnUnits | src/modules/collation/collation.service.ts:2398-2413 | the inner loop returns every open flagged unit in any order, and none of its inner calls fails |
| Workflow.FlaggedContestsAreReturned | src/modules/collation/collation.service.ts:2365-2384 | each contest taken up by a bulk return is one in which the ward is REJECTED with flagged units, and no contest is taken up twice |
| Authority.PostingIsPosted | shared/src/collation.ts:30-58 | which roles are posted at which level and which administer, role by role |
| Authority.SaveIsAccepted | src/modules/collation/collation.service.ts:1720-1747 | an officer may save the own row, except at ward level, iff it is missing, DRAFT or REJECTED; each error exactly |
| Authority.NobodyElseSaves | src/modules/collation/collation.service.ts:1720-1730 | a user without a post saves nothing |
| Authority.PhotoIsAccepted | src/modules/collation/collation.service.ts:1799-1807 | a photo is accepted iff the row is there, the own and DRAFT or REJECTED; each error exactly |
| Authority.SubmissionIsAccepted | src/modules/collation/collation.service.ts:1832-1864 | a submission is accepted iff the row is there, not a ward's, the own, DRAFT or REJECTED and, of a polling unit, with a photo; each error exactly |
| Authority.ApprovalIsAccepted | src/modules/collation/collation.service.ts:1925-1942 | an approval is accepted iff the row is a SUBMITTED polling unit and the user is posted at the ward it lies in; when the row is missing or has another status is said exactly |
| Authority.ReturnIsAccepted | src/modules/collation/collation.service.ts:2002-2073 | a return is accepted iff the row is SUBMITTED or APPROVED, every flag that is set is blank or a place directly below the row, and the user administers or is posted: for a unit at its ward (once APPROVED only if the ward was returned) or at its LGA, for a ward at its LGA, for an LGA at its state, for a state nationally |
| Authority.ResubmissionIsAccepted | src/modules/collation/collation.service.ts:2259-2282 | a ward or LGA officer may resubmit exactly the own row, if it is REJECTED |
| Authority.BulkReturnIsAccepted | src/modules/collation/collation.service.ts:2349-2390 | a bulk return is accepted iff a ward officer asks and in some contest the own ward is REJECTED with flagged units |
| Authority.CommentIsAccepted | src/modules/collation/collation.service.ts:2191-2213 | a comment is accepted iff it has three characters when trimmed, the row is there, and the user administers, is posted nationally, or at an LGA or state the row is of or lies in |
| Authority.CleanIdsExactly | src/modules/collation/collation.service.ts:2423-2426 | the flags kept are the given ids, trimmed, without blanks, each once |
| Authority.TrimExactly | src/modules/collation/collation.service.ts:2191-2195 | trimming takes off exactly the blanks at the two ends |
| Publication.PublicationShows | src/modules/collation/collation.service.ts:2818-2988 | in every table, each ward, LGA and state row a publication writes shows the sum over exactly the rows below it that are APPROVED units, or SUBMITTED, APPROVED or REJECTED wards or LGAs |
| Publication.OutsideTheChain | src/modules/collation/collation.service.ts:2990-3071 | a publication changes no row but those of the ward, LGA and state above the changed one |
| Publication.WrittenRowsShow | src/modules/collation/collation.service.ts:2836-2988 | in every table, saves over roll-ups made before included: a ward, LGA or state row whose figures a call other than a save writes shows that sum afterwards |
| TypedFigures.CallIsAlike | src/modules/collation/collation.service.ts:1720-3071 | two tables that differ in the figures of one DRAFT row alone still do after any call but its accepted submission |
| TypedFigures.TypedFiguresStayOut | src/modules/collation/collation.service.ts:2836-2843 | so the figures typed over a DRAFT row enter no other row in any run in which no submission of it is accepted |
| RowEffects.SaveWrites | src/modules/collation/collation.service.ts:1748-1797 | an accepted save changes the own row alone: field by field the given value or the stored one, DRAFT, no reason, all else kept |
| RowEffects.PhotoWrites | src/modules/collation/collation.service.ts:1799-1819 | an accepted upload changes the photos of the row alone, by the new one at the end |
| RowEffects.SubmissionWrites | src/modules/collation/collation.service.ts:1871-1923 | an accepted submission changes the row alone, to SUBMITTED without a reason and with one log entry |
| RowEffects.CommentWrites | src/modules/collation/collation.service.ts:2215-2253 | an accepted comment changes the log of the row alone |
| RowEffects.PublicationWrites | src/modules/collation/collation.service.ts:2894-2988 | a publication leaves the row it starts with APPROVED, without reason, comment and flags when the rejection is cleared; a row that was REJECTED otherwise stays so with reason and flags, and any other becomes APPROVED without flags; photos and logs stay |
| RowEffects.ApprovalWrites | src/modules/collation/collation.service.ts:1946-2000 | an accepted approval makes the unit APPROVED with its comment and one log entry and keeps its figures; its ward is published with the rejection cleared, its LGA and state as they stand, and no other row changes |
| RowEffects.OnlyOwnWardApproves | src/modules/collation/collation.service.ts:2572-2591 | a call that makes a polling unit APPROVED that was not is its accepted approval by an officer of the ward the unit lies in |
| RowEffects.EveryApprovalIsByOwnWard | src/modules/collation/collation.service.ts:1925-2000 | in every run, a polling unit APPROVED at the end was approved, from SUBMITTED, by such an officer in some call of the run |
| ReturnEffects.ReturnWrites | src/modules/collation/collation.service.ts:2066-2189 | an accepted return makes the row and every flagged row that was SUBMITTED or APPROVED REJECTED with the reason and one log entry each, sets the flags that were given, and changes other rows only as a publication above it does |
| ReturnEffects.BulkReturnWrites | src/modules/collation/collation.service.ts:2385-2421 | an accepted bulk return makes exactly the flagged units REJECTED that were SUBMITTED or APPROVED in a contest in which the ward was returned; the reason is the one given, else that of the ward, else a standard one; no other unit changes |
| ReturnEffects.WardResubmissionWrites | src/modules/collation/collation.service.ts:2283-2343 | an accepted resubmission makes the ward APPROVED without reason, comment and flags and logs the step; other rows change only as a publication does |
| ReturnEffects.LgaResubmissionWrites | src/modules/collation/collation.service.ts:1579-1631 | the same of an LGA |
| ReturnEffects.RejectedExactly | src/modules/collation/collation.service.ts:2002-2421 | a row that was not REJECTED becomes so iff the call is an accepted return of the row or of the row it is flagged on, or an accepted bulk return of its ward |
| ReturnEffects.EveryReturnIsAuthorized | src/modules/collation/collation.service.ts:2002-2421 | in every run, a row REJECTED at the end was returned by such an accepted call of the run |
| Effects.CallRelated | src/modules/collation/collation.service.ts:1720-3071 | a reflexive, transitive relation on rows that holds for each row operation of a call holds between every row before and after the call |
| Effects.PublishOnlyRolls | src/modules/collation/collation.service.ts:2990-3071 | a publication rewrites only ward, LGA and state rows of its own contest, and only as roll-ups do |
| Effects.PublishKeepsUnits | src/modules/collation/collation.service.ts:2990-3071 | a publication leaves every polling-unit row as it is |
| Invariants.RunKeeps | src/modules/collation/collation.service.ts:1720-3071 | a row property that no operation of any call breaks holds of every row in every reachable table |
| Invariants.EveryRunIsEvidenced | src/modules/collation/collation.service.ts:1848-1894 | in every reachable table a polling-unit row that is not DRAFT has a photo and the status of its last log entry, and units flagged on a ward lie in it |
| Invariants.OperationsKeepBooks | src/modules/collation/collation.service.ts:1925-2421 | no operation of a call other than a save or a submission breaks the bookkeeping of reasons, flags and published roll-ups |
| Invariants.SaveKeepsBooksExactly | src/modules/collation/collation.service.ts:1742-1794 | a save keeps a bookkept table bookkept iff it is refused or not made over a roll-up |
| Invariants.SubmissionKeepsBooksExactly | src/modules/collation/collation.service.ts:1832-1923 | a submission keeps a bookkept table bookkept iff it is refused or the row has no flagged wards |
| Invariants.CallKeepsBooksExactly | src/modules/collation/collation.service.ts:1720-3071 | a call keeps a bookkept table bookkept iff it is neither an accepted save over a roll-up nor an accepted submission of a row with flagged wards |
| Invariants.RunIsBookkeptExactly | src/modules/collation/collation.service.ts:1720-3071 | a run is bookkept after each of its calls iff none of them is such a call |
| Invariants.EveryRunIsBookkept | src/modules/collation/collation.service.ts:2066-2085 | in every run without such calls a row has a reason iff it is REJECTED, only REJECTED rows carry flags, and flags lie in their ward or LGA |
| Invariants.EveryRunKeepsRollupsPublished | src/modules/collation/collation.service.ts:2894-2951 | without accepted saves over roll-ups no ward, LGA or state row is ever a DRAFT |
| Invariants.EveryWardIsRegistered | src/modules/collation/collation.service.ts:2990-3071 | every ward row of a reachable table stands for a registered ward |
| Transitions.FiguresChangeOnlyWhileEditable | src/modules/collation/collation.service.ts:1742-1819 | figures and photos of a polling unit change only in DRAFT or REJECTED, and only by a save or upload of its own officer |
| Transitions.HeldFiguresStay | src/modules/collation/collation.service.ts:1742-1819 | through any run in which the row is never open for editing its figures and photos stay the same |
| Transitions.SubmittedFiguresStay | src/modules/collation/collation.service.ts:1848-1894 | from its submission until it is returned a unit shows the submitted figures |
| Transitions.ApprovedFiguresAreSubmitted | src/modules/collation/collation.service.ts:1848-1894 | in every run a polling unit that is SUBMITTED or APPROVED at the end was submitted by some accepted call of the run with the very figures and photos it shows at the end |
| Transitions.OnlySubmissionCloses | src/modules/collation/collation.service.ts:1720-3071 | a unit open for editing, or without a row, is closed by no call but its own accepted submission |
| Transitions.ReturnedWard | src/modules/collation/collation.service.ts:2894-2951 | a returned ward becomes APPROVED by an accepted unit approval in it or by its own accepted resubmission, and stays REJECTED through every other call |
| Transitions.WardResubmissionChecksNoUnits | src/modules/collation/collation.service.ts:2259-2343 | the resubmission of a returned ward succeeds whatever its units' status, and all of them are approved afterwards iff they were before |
| Transitions.ReturnedLga | src/modules/collation/collation.service.ts:1579-1588 | a returned LGA becomes APPROVED by its own accepted resubmission only, DRAFT or SUBMITTED by an accepted save or submission of its own officer only, and stays REJECTED through every other call |
| Transitions.ReturnedState | src/modules/collation/collation.service.ts:2894-2951 | a returned state row stays REJECTED through every call but an accepted save or submission of its own officer |
| Transitions.ContestsDoNotMeet | src/modules/collation/collation.service.ts:1720-3071 | a call leaves the rows of every other contest unchanged |
| Scenarios.WardIsApprovedOverRejectedUnit | src/modules/collation/collation.service.ts:2259-2343 | for every polling unit of every register, a run from the empty table after which its ward is APPROVED and the unit flagged on it REJECTED |
| Scenarios.FlagsOutliveTheReturn | src/modules/collation/collation.service.ts:1832-1923 | for every such unit, a run after which its LGA row is SUBMITTED, without a reason, and still has the ward flagged |
| Conservation.RollupRestores | src/modules/collation/collation.service.ts:2818-2988 | a roll-up makes its own row the sum of its children and can upset only the row above it |
| Conservation.PublishRestores | src/modules/collation/collation.service.ts:2990-3071 | a publication repairs every roll-up that a changed unit, or a returned child, has upset |
| Conservation.VotesAreConserved | src/modules/collation/collation.service.ts:1925-2189 | after any run without accepted saves over roll-ups, every ward, LGA and state row of every contest equals the sum over the approved polling units below it, in all eight figures and the party map, and a missing row stands for no such unit |
| Conservation.FiguresAreConserved | src/modules/collation/collation.service.ts:2818-2988 | the same figure by figure: in those runs each of the eight figures and each party score of a ward, LGA or state row is the sum over the APPROVED units below it |
| Conservation.SaveKeepsConservationExactly | src/modules/collation/collation.service.ts:1742-1794 | a save keeps that law whatever is typed iff the officer's level is neither LGA nor state or the save is refused because the row is not open |
| BulkReturns.RepublishAbsorbs | src/modules/collation/collation.service.ts:2894-2951 | republishing a returned ward over an earlier republication gives the same table as republishing once |
| BulkReturns.OneMoreReturn | src/modules/collation/collation.service.ts:2023-2045 | returning one more flagged unit of the returned ward succeeds and comes to returning all so far together |
| BulkReturns.BulkReturnNeverFailsMidway | src/modules/collation/collation.service.ts:2398-2413 | no inner return of the loop fails, and the result is the same in every order of the units |
| BulkReturns.BulkReturnSettles | src/modules/collation/collation.service.ts:2349-2421 | afterwards no flagged unit is SUBMITTED or APPROVED, and the ward is still REJECTED with the same flags and reason |
| BulkReturns.OtherContestsUntouched | src/modules/collation/collation.service.ts:2390-2414 | the contests still to come are as they were when the bulk return began |
| NumberParser.ParseNumberWords | src/modules/collation/ocr-ec8a-words.ts:127-181 | the parser's loop finds the number at a position and how many words it takes, at least one and never beyond the end |
| NumberParser.ParseFromIsParse | src/modules/collation/ocr-ec8a-words.ts:127-181 | what is parsed at a position depends only on the tokens from there on |
| NumberParser.ParseOfBareMultiplier | src/modules/collation/ocr-ec8a-words.ts:163-174 | a number that begins with "hundred" or "thousand" is read as if "one" stood before it |
| NumberParser.OnlyMultiplier | src/modules/collation/ocr-ec8a-words.ts:163-174 | by themselves they are 100 and 1000 |
| NumberParser.FirstWord | src/modules/collation/ocr-ec8a-words.ts:127-132 | "zero" in front is the number 0 by itself; "and" or a foreign word in front is no number |
| Spelling.ReadsLexemes | src/modules/collation/ocr-ec8a-words.ts:127-181 | the words of a number from 1 to 999,999, with or without "and", are all read and leave exactly that number in the accumulators |
| Spelling.MultiplierAfter | src/modules/collation/ocr-ec8a-words.ts:163-174 | "hundred" or "thousand" behind any number below a thousand multiplies all of it |
| Spelling.StopsBefore | src/modules/collation/ocr-ec8a-words.ts:147-159 | after the words of a, the first word of b ends the number iff a and b are separate in the stated sense |
| Spelling.ParseBeforeNumber | src/modules/collation/ocr-ec8a-words.ts:127-181 | of two numbers in a row the first is read exactly if they are separate, else the number read is larger |
| NumberWords.FiguresAreInert | src/modules/collation/ocr-ec8a-words.ts:111-114 | a token of digits is part of no number in words |
| NumberWords.WordForSpells | src/modules/collation/ocr-ec8a-words.ts:1-51 | every canonical word is in the tables with its value and is changed by no alias |
| NumberWords.RoundTrip | src/modules/collation/ocr-ec8a-words.ts:127-181 | any tokens that the tables read as the words of n parse to n and are all consumed |
| NumberWords.CanonicalRoundTrip | src/modules/collation/ocr-ec8a-words.ts:127-181 | for every n up to 999,999 the canonical words parse to n and are all consumed |
| ScoreColumn.ExtractWordScoresFrom | src/modules/collation/ocr-ec8a-parse.ts:246-276 | the reader's loop collects scores pass by pass, takes digits together with the same number in words, drops one score too many and cuts to the expected count; it terminates |
| ScoreColumn.ColumnIsRead | src/modules/collation/ocr-ec8a-parse.ts:246-276 | a column of n scores is read as exactly those scores iff no two neighbours without a separator run together |
| ScoreColumn.ColumnWithTotalIsRead | src/modules/collation/ocr-ec8a-parse.ts:274-275 | the same when one more number, the total, follows the n scores |
| ScoreColumn.SeparatedColumnIsRead | src/modules/collation/ocr-ec8a-parse.ts:261-271 | with a separator, such as any digits, before each score every list of scores is read back |
| ScoreColumn.AnyCountIsRead | src/modules/collation/ocr-ec8a-parse.ts:246-276 | of a column that can be told apart the first scores are kept, as many as expected; where none is expected the first two, unless there is only one |
| SheetChecks.PartyVotesSum | src/modules/collation/ocr-verification.ts:49-61 | the loop gives the sum of the numeric scores in any order of the parties, or null if there is none |
| SheetChecks.PartyTotalOfMerge | src/modules/collation/ocr-verification.ts:49-61 | the party sum of two merged maps is the sum of their party sums |
| SheetChecks.HasFigures | src/modules/collation/ocr-verification.ts:63-75 | whether any of the eight figures or the party sum is there |
| SheetChecks.ArithmeticVerification | src/modules/collation/ocr-verification.ts:91-211 | the check reports the relations that fail, in order and with both sides, their flags, the verdict and the suggested reason |
| SheetChecks.VerdictExactly | src/modules/collation/ocr-verification.ts:91-211 | PENDING iff there is no figure at all, MATCH iff there is one and all five relations hold, MISMATCH iff one fails |
| SheetChecks.RelationsExactly | src/modules/collation/ocr-verification.ts:119-187 | the five relations hold iff the figures of the sheet balance, said in the figures themselves |
| SheetChecks.ComplaintsSayWhatFails | src/modules/collation/ocr-verification.ts:119-187 | every complaint names two figures of the sheet that should agree and do not |
| SheetChecks.PublishedMatchesExactly | src/modules/collation/ocr-verification.ts:112-190 | a published roll-up passes iff its totals balance, its valid votes being free when it has no party |
| SheetChecks.RollupOfMatchingSheetsMatches | src/modules/collation/collation.service.ts:2870-2893 | the roll-up of complete sheets that all pass the check passes it |
| SheetChecks.IncompleteSheetMayFailAbove | src/modules/collation/ocr-verification.ts:112-123 | a sheet that passes only because a figure is missing, whose roll-up fails |
| CheckedRollups.EveryRollupMatches | src/modules/collation/collation.service.ts:2818-3071 | in every run without accepted saves over roll-ups, if the approved units have complete passing sheets, every ward, LGA and state row passes |
| CheckedRollups.RollupVerdictExactly | src/modules/collation/collation.service.ts:2818-3071 | in every such run a roll-up passes iff the sums of the approved units below it balance |
| PhotoMerge.UniqueDiffs | src/modules/collation/ocr-ec8a-parse.ts:553-556 | differences that repeat the field and message of an earlier one are dropped |
| PhotoMerge.MergeVisionWithArithmetic | src/modules/collation/ocr-ec8a-parse.ts:473-579 | the merged verdict: the arithmetic one for an unreadable photo, else both kinds of differences together; everything that was read is passed on |
| PhotoMerge.NothingIsDropped | src/modules/collation/ocr-ec8a-parse.ts:553-556 | removing repeats removes nothing: every difference of either check is reported, once |
| PhotoMerge.MergeVerdictExactly | src/modules/collation/ocr-ec8a-parse.ts:500-579 | with a readable photo APPROVE iff no relation fails, every field and party on both sides agrees and the photo's party sum is the typed valid votes; RETURN iff differences are reported |
| PhotoMerge.ApprovedExactly | src/modules/collation/ocr-ec8a-parse.ts:467-573 | with a readable photo the recommendation is APPROVE iff the sheet balances, the photo agrees with each of the eight figures by name and each party score wherever both are there, and its party scores add up to the typed valid votes |
| PhotoMerge.PhotoDiffsSayWhatDiffers | src/modules/collation/ocr-ec8a-parse.ts:500-545 | every difference reported names a figure of the sheet and the other one read off the photo |
| PhotoMerge.UnreadablePhotoNeverApproves | src/modules/collation/ocr-ec8a-parse.ts:485-503 | an unreadable photo recommends RETURN iff the arithmetic check does, and never APPROVE |
| PhotoMerge.EmptySheetIsApproved | src/modules/collation/ocr-ec8a-parse.ts:549-552 | a typed sheet without figures is left to the photo by the arithmetic check and approved by the merge |
| FieldAssignment.FindGroupEnd | src/modules/collation/ocr-ec8a-parse.ts:162-169 | a group of labels ends before the first label with a number in front of it |
| FieldAssignment.GroupEndExactly | src/modules/collation/ocr-ec8a-parse.ts:162-168 | the group of a label ends at the first place where a number stands between two neighbouring labels, or with the last label |
| FieldAssignment.TakeCluster | src/modules/collation/ocr-ec8a-parse.ts:173-185 | the numbers behind a group and before the next are dealt to its labels in order, skipping those too small for the label |
| FieldAssignment.AssignClusteredFields | src/modules/collation/ocr-ec8a-parse.ts:149-195 | the fields hold exactly the numbers dealt to their labels; the second test for small numbers changes nothing |
| FieldAssignment.AssignmentIsOrderedInjection | src/modules/collation/ocr-ec8a-parse.ts:149-195 | no number goes to two labels, later labels get later numbers, each number lies behind its group's last label and before the next group, no voter or ballot total is below 10 |
| FieldAssignment.GroupTakesInOrder | src/modules/collation/ocr-ec8a-parse.ts:162-191 | each label of a group takes the first number behind the group that fits it and stands behind the number of the label before it; if that label got none, it gets none |
| FieldAssignment.LargeNumbersGoInOrder | src/modules/collation/ocr-ec8a-parse.ts:162-191 | where at least as many numbers of ten or more as labels stand behind a group, its labels get the first of them in order |
| FieldAssignment.DealWastesNothing | src/modules/collation/ocr-ec8a-parse.ts:173-185 | a number of the group's stretch is dealt out, too small for a label of the group, or left because all labels have one |
| FieldAssignment.WrittenExactly | src/modules/collation/ocr-ec8a-parse.ts:186-191 | a field holds a number iff its label was given it |
| ExtractFinishing.ReconcileExtract | src/modules/collation/ocr-ec8a-parse.ts:373-397 | valid votes, used and issued ballots are completed from the form's own sums, all other figures stay |
| ExtractFinishing.CompletionIsFixed | src/modules/collation/ocr-ec8a-parse.ts:373-397 | completing twice is completing once |
| ExtractFinishing.FilledFiguresBalance | src/modules/collation/ocr-ec8a-parse.ts:373-398 | no figure read is lost, used and issued ballots that are filled in make the sums of the form come out, and valid votes give way only below ten, to a party sum of ten or more |
| ExtractFinishing.FinishExtract | src/modules/collation/ocr-ec8a-parse.ts:417-441 | no confidence if nothing was read, full confidence if one of the two identities holds, else a sixteenth for each value read up to 0.65; unreadable iff nothing was read or no identity holds and at most seven values were |
| ExtractFinishing.PartySumEarnsTrust | src/modules/collation/ocr-ec8a-parse.ts:373-441 | where the party sum stands in for the valid votes the extract is readable and its confidence is 1 |
| Grouping.TotalOfGroups | src/modules/collation/collation-readiness.service.ts:262-291 | adding up the totals of groups is adding up their records, in any commutative monoid |
| Pipelines.LoadApprovalPipelineByLga | src/modules/collation/collation-readiness.service.ts:192-259 | the loop counts every unit in its LGA's pipeline at the stages its status has reached |
| Pipelines.AggregatePipelineToState | src/modules/collation/collation-readiness.service.ts:262-291 | a state's pipeline is the field-by-field sum over its LGAs |
| Pipelines.LoadApprovalPipelineByState | src/modules/collation/collation-readiness.service.ts:297-373 | the loops make of the two grouped queries each state's pipeline, with what is not started as the rest, if any |
| Pipelines.PipelineInFigures | src/modules/collation/collation-readiness.service.ts:216-258 | adding units one by one gives the cardinalities of the units by status, and not started is total less submitted |
| Pipelines.PipelinesAgreeExactly | src/modules/collation/collation-readiness.service.ts:192-373 | summing the LGA pipelines of a state equals the pipeline from grouped counts, in every field, iff no unit of the state has a second row that is not a DRAFT |
| Pipelines.OtherContestIsCounted | src/modules/collation/collation-readiness.service.ts:326-339 | a unit approved in one contest and submitted in another gives its state two submitted units out of one |
| Pipelines.LoadBothWays | src/modules/collation/collation-readiness.service.ts:192-373 | the three loops run on one register and one set of rows give equal pipelines for a state under exactly that condition |
| Coverage.LoadPuReportingMaps | src/modules/collation/collation-browse.service.ts:3336-3430 | the two loops count units, reports, approvals and the last report of each LGA and each ward, and collect the sets of their units |
| Coverage.LoadPuReportingByState | src/modules/collation/collation-browse.service.ts:3468-3518 | the loops give each state the figures of its rows in the two grouped queries, or zeros |
| Coverage.WardsAgreeWithLgas | src/modules/collation/collation-browse.service.ts:3370-3425 | within an LGA the entries of its wards add up to its own, in every field |
| Coverage.CoverageInFigures | src/modules/collation/collation-browse.service.ts:3370-3425 | adding units one by one gives the numbers of units, reports and approvals, and the latest stamp, of the contest's own rows |
| Coverage.CoverageAgreesExactly | src/modules/collation/collation-browse.service.ts:3336-3518 | the LGA entries of a state add up to the grouped query's figures, in every field, iff no unit of the state has reported in another contest |
| Coverage.OtherContestIsCounted | src/modules/collation/collation-browse.service.ts:3489-3505 | a unit that reports in two contests counts once in its LGA and twice in its state |
| Coverage.LoadBothWays | src/modules/collation/collation-browse.service.ts:3336-3518 | both loaders run on one register and one set of rows agree on a state under exactly that condition |
| Incidents.AggregateIncidentsByScope | src/modules/collation/collation-browse.service.ts:3600-3656 | reports in any order give each LGA, each ward and each polling unit the pressure of exactly its reports |
| Incidents.AggregateIncidentsByState | src/modules/collation/collation-browse.service.ts:3564-3597 | reports in any order give each state the pressure of exactly its reports |
| Incidents.MergeIntoStates | src/modules/collation/collation-browse.service.ts:3699-3722 | LGA buckets in any order are merged into the sums of their states |
| Incidents.IncidentPressureAgrees | src/modules/collation/collation-browse.service.ts:3564-3734 | merging LGA buckets gives every state the same count, urgent count, weight and worst severity as counting directly |
| Incidents.PressureInFigures | src/modules/collation/collation-browse.service.ts:143-179 | the bucket of a set of reports holds their number, the number that are urgent, HIGH or CRITICAL, the weights 4, 3, 2 and 1 added up and the worst severity |
| Incidents.ReportsOfPlace | src/modules/collation/collation-browse.service.ts:3583-3649 | the reports of an LGA, ward, unit or state: the ward a report names decides over the unit it names |
| Incidents.IncidentHotspots | src/modules/collation/collation-browse.service.ts:3666-3722 | the LGA count and its merge, run next to the state count, give every state asked for the same bucket |
| Incidents.WardsAgreeWithLgas | src/modules/collation/collation-browse.service.ts:3600-3656 | where reports name wards and units of the register, the ward buckets of an LGA add up to its own |
| Outcomes.ComputeOutcome | src/modules/collation/collation-browse.service.ts:181-211 | the outcome, leader and margin of the client |
| Outcomes.ComputeClientOutcome | src/modules/collation/collation.service.ts:70-99 | the same outcome, leader and margin on every input, with the margin of a loss negated |
| Outcomes.OutcomeExactly | src/modules/collation/collation-browse.service.ts:181-211 | with distinct columns: WIN iff the client has votes and more than every other column, TIE iff the lead is shared, LOSS iff another column has more, PENDING iff nobody has votes |
| Outcomes.OutcomeInFigures | src/modules/collation/collation-browse.service.ts:181-211 | the leader is the first column with the most votes; the margin of a win is the lead over the best other column, that of a loss the distance behind the leader, that without a client the votes of the leader |
| Outcomes.TallyRace | src/modules/collation/collation-browse.service.ts:2218-2244 | each tally is the number of units with that outcome, and the four add up to all units |
| RegisterLists.PartsAreShifted | db/prisma/gombe-inec-alignment.ts:59-74 | a cloned record gets every part of its delimitation one place too early and units 000, so its parts are right iff all four are 000 |
| RegisterLists.CloneExactly | db/prisma/gombe-inec-alignment.ts:59-74 | a cloned record has the given name and delimitation, an id made of it, the remark and location of its source or their defaults, and every other field of its source |
| RegisterLists.FindUpserted | db/prisma/gombe-inec-alignment.ts:76-85 | an update puts the new record at its delimitation and leaves what is found at every other, sort included |
| Sorting.SortSorts | db/prisma/gombe-inec-alignment.ts:84-84 | the stable sort puts elements in order for any total preorder |
| RegisterFiles.WardFile.UpsertPu | db/prisma/gombe-inec-alignment.ts:76-85 | the first record of the delimitation is overwritten in place, or a new one is added and the list sorted |
| RegisterFiles.ApplyGombeInecAlignment | db/prisma/gombe-inec-alignment.ts:88-162 | the five named wards hold the specified lists afterwards and no other ward object changes |
| RegisterAlignment.AlignmentIsFixed | db/prisma/gombe-inec-alignment.ts:88-162 | applied to its own output it shows the same delimitations and names in the same order, and in Wuro Tale, Zange and Lapan the same records |
| RegisterAlignment.KaltungoIsFixedExactly | db/prisma/gombe-inec-alignment.ts:152-159 | a second correction of Kaltungo West changes nothing iff the list is empty, has the template unit or the corrected one, or the record added from its first unit holds all that the first unit after the sort would give it |
| RegisterAlignment.LalaipidoIsFixedExactly | db/prisma/gombe-inec-alignment.ts:116-128 | a second correction of Lalaipido changes nothing iff the list is empty, has its template under a name, or both corrected records hold all that the unit the second pass copies from would give them |
| RegisterAlignment.AlignmentIsFixedExactly | db/prisma/gombe-inec-alignment.ts:88-162 | the whole register is the same after a second pass iff both conditions hold |
| RegisterAlignment.AlignmentIsFixedInFull | db/prisma/gombe-inec-alignment.ts:88-162 | so all records are the same when the template units 15/10/09/012, with a name, and 15/07/03/031 are there |
| RegisterAlignment.WithoutModelRecordsMayChange | db/prisma/gombe-inec-alignment.ts:152-159 | without its template unit a second application can change a record |
| RegisterAlignment.AlignedUnits | db/prisma/gombe-inec-alignment.ts:88-162 | moved and misplaced codes are gone from their wards and INEC's units are there under their names wherever a template is |
| RegisterAlignment.LapanRecord | db/prisma/gombe-inec-alignment.ts:131-146 | each unit of Lapan is written from the unit there, else from the one misplaced in Lalaipido, else from the template |
| RegisterAlignment.ZangeRecord | db/prisma/gombe-inec-alignment.ts:100-102 | the unit moved to Zange is taken from Wuro Tale, else from Zange itself, else not written |
| Roster.ValidateGombeShaRoster | db/prisma/gombe-sha-constituencies.ts:314-428 | the report is ok iff the seats are well formed, no two entries claim the same ward and, unless partial, no seat is empty, every register ward is listed and every listed ward registered |
| Roster.ValidRosterIsPartition | db/prisma/gombe-sha-constituencies.ts:314-428 | a complete valid roster lists every ward of a non-empty register by exactly one seat, and every listed name is a ward of the register |
| Roster.AssignWards | db/prisma/scripts/sha-apply.ts:58-70 | exactly the wards some seat takes are assigned, each to the last seat that takes it |
| Roster.LgaForIsFirst | db/prisma/scripts/sha-apply.ts:44-44 | the LGA of a seat is the first that matches it |
| Roster.WardForIsFirst | db/prisma/scripts/sha-apply.ts:62-63 | the ward of a listed name is the first of that name |
| Roster.SeatOrderDoesNotMatter | db/prisma/scripts/sha-apply.ts:58-70 | for a roster without clashes the assignment is the same in every order of the seats |
| RowClusters.ClusterRows | src/modules/collation/ocr-ec8a-layout.ts:71-89 | before each is sorted from left to right, the rows follow one another in the sorted tokens; each token joined within tolerance of the row's mean at that moment and each row began outside that of the row before |
| RowClusters.ToleranceExactly | src/modules/collation/ocr-ec8a-layout.ts:73-75 | the tolerance is seven tenths of a height that at least half of the tokens with a height do not exceed and at least half reach, but at least 18 |
| RowClusters.ClustersAreDetermined | src/modules/collation/ocr-ec8a-layout.ts:77-87 | that description determines the rows: two clusterings of the same tokens that meet it are equal |
| RowClusters.RowsLoseNothing | src/modules/collation/ocr-ec8a-layout.ts:71-89 | the rows hold every token as often as it was found, run from left to right, and no token of an earlier row lies below one of a later row |
| Attention.SummarizeVotesAtRisk | src/modules/irev/irev-attention.ts:255-282 | votes at risk are the sum of the counted differences in the agents' favour, votes against the sum of those in IReV's, and each counter is the number of its rows |
| Attention.RiskLessAgainst | src/modules/irev/irev-attention.ts:260-272 | votes at risk less votes against is the sum of all differences counted |
| Attention.MoreUrgentExactly | src/modules/irev/irev-attention.ts:276-279 | one unit comes before another iff it was replaced and the other not, or both or neither were and its figures differ by at least as much |
| Attention.EligibleExactly | src/modules/irev/irev-attention.ts:274-275 | eligible are the replaced results and those whose figures differ by five or more |
| Attention.TopUnitsAreMostUrgent | src/modules/irev/irev-attention.ts:274-281 | at most eight eligible units are kept, replaced results first and then by how much the figures differ, and none left out comes before one kept |
| Attention.ClusterByWard | src/modules/irev/irev-attention.ts:309-326 | each ward's cluster holds the names of its first row and the totals of its rows, together the clusters hold the totals of all rows with a ward, and the wards are in order of first occurrence |
| Attention.TotalsInFigures | src/modules/irev/irev-attention.ts:321-325 | totals are the numbers of rows compared, mismatched and replaced, and the positive votes at risk added up |
| Attention.GraverExactly | src/modules/irev/irev-attention.ts:328-332 | one ward comes before another iff it has more votes at risk, or as many and no fewer mismatched and replaced units |
| Attention.ClusterAttentionRows | src/modules/irev/irev-attention.ts:295-334 | what is returned is the first eight of the flagged wards' clusters in stable order of gravity |
| Attention.ShownWardsAreGravest | src/modules/irev/irev-attention.ts:328-334 | the wards returned are flagged wards of the input, at most eight, none twice, each with the totals of its rows, gravest first; a flagged ward is left out only behind eight that are no less grave |

## Left out

- Conservation.VotesAreConserved: runs with accepted saves by LGA or state officers over a roll-up are excluded, since such a save breaks the law; the exact condition is proved as Conservation.SaveKeepsConservationExactly.
- Invariants.EveryRunIsBookkept: runs with accepted saves over roll-ups or accepted submissions of rows with flagged wards are excluded, since exactly these break it (Invariants.CallKeepsBooksExactly).
- Roster.ValidateGombeShaRoster: a ward's key is a pair of normalized names where the program joins them with "::"; names that contain "::" are not told apart from that.
- Concurrency: each service call is one atomic step; the calls use no transaction, and interleavings of the steps of two calls are not modelled.
- The scope type of an officer or row is taken to match its level; the CONSTITUENCY level and the Assembly hierarchy, which these calls do not roll up, are dropped.
- One campaign is modelled; the current contest of a call is a parameter.
- Row ids, actors, time stamps, stored OCR and IReV verification, notifications, triage and pulse events, caches, audit and metrics are left out of rows and calls; the action log is kept with each row.
- The database's 32-bit integer columns: figures are unbounded integers, and null is the only party score that is not a number.
- The contests of a bulk return come as a list in any order, as the database returns them.
- Text recognition: regular expressions, tokenizing and OCR_WORD_SPLITS, the search for labels and numbers, the choice between windows of text and the party table are inputs of the model.
- Floating point: confidences, means and tolerances are real numbers.
- SQL queries are given by the counts, maxima and groups they ask for; the party results that the reporting loader passes through are left out.
- The headlines of attention clusters are left out.
- resolveOcrVerification, ocrVerificationWrite and countPuVerifications, getWardPuReadinessMap and getLgaWardReadinessMap, layoutSummary and layoutParties, attachAttention and partyDeltaFromVerification: straightforward case distinctions and counters that would add only easy members.
- Labels, wording and headlines of messages: a message is modelled by what it says and the numbers in it.
- Trimming knows four blanks: space, tab, line feed and carriage return.
- localeCompare is any total preorder, and Array.sort is a stable sort.
- Dashboards, listings, pagination, controllers, authentication and seeding are not part of this model.
