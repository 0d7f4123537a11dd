# A verified model of the llamenos fleet gates and data tooling

This project models the parts of the llamenos repository whose correctness depends on order,
crashes, retries or sets of labels, and proves what they promise:

- **The migration runner** (`Database`, `Migrations`, `MigrationBoot`): a ledger of applied files,
  a reservation loop for a database that predates the ledger, and a catch-up mode that asks the
  live database before every destructive statement. `Migrations.Step` is one database operation;
  `Crash` may come between any two; a run is any sequence of actions. `MigrationBoot.Runner` is the
  boot as the script writes it, loop by loop, proved to perform exactly such actions.
- **The dispatch scheduler** (`Ledger`, `Circuit`, `KillSwitch`, `HaltState`, `Select`, `Review`, `Pipeline`,
  `Fleet`, `Schedule`, `Tick`, `Worktree`): the append-only ledger and what is read back from it, the
  breakers and the self-clearing quota halt, selection and claiming across lanes, the
  verify-review-revise loop, the pipeline of one live dispatch, one whole pass, histories of passes,
  and the settling of a worker's worktree. A `Pipeline.DispatchPlan` says of every call of a dispatch
  whether it throws, and whether a request to GitHub took effect; `Pipeline` says which calls each
  plan leads to and what follows for every plan, and the methods of `Fleet` are proved to make exactly
  those calls. `Fleet.World` keeps ledger, armed PRs and halt files, and logs every read of a pass,
  so that `Tick.RunTick` says by its first events why a pass went on or stopped, and by its last how
  it ended.
- **The review gate and its verdict cache** (`ReviewCache`, `ReviewGate`): who may ask, which
  reviews a PR needs, the gate, and every history of pushes, label changes and review requests
  against a cache keyed by PR, diff and review set.
- **Per-worktree databases** (`DatabaseNames`, `Sweep`, `Templates`): names, the two-phase orphan
  sweep, and content-addressed template publishing under crashes.
- **Scope, impact and the board** (`Fragments`, `Scope`, `Impact`, `Board`): globs, longest-match
  ownership with label grants, tiers, containment between the gates, and the PR board.

Pure code is modelled as functions, code that changes things step by step as methods over classes
and loops, each proved against a specification function about which the lemmas speak. A call into
GitHub, git, the clock, PostgreSQL or a model is a method or an argument whose answer is arbitrary;
where it may fail, every place it may fail is in the model.

## What does not hold

Promises the code or its comments make that the code does not keep in full; the lemma named gives the
condition, or the case that fails.

- *A crash during reservation is not harmless* (the comment at `scripts/run-migrations.ts:332-337`
  says a half-finished catch-up is safe to resume). The next boot sees the ledger table and never
  finishes the loop, so the unreserved files run strictly. Later boots keep all data if and only if
  every file had been reserved: `Migrations.ReservationMustFinish`.
- *A recorded rejection can be forgotten* (the comment at `orchestrator/src/ci.ts:1195-1203` says
  removing a label does not un-find a defect). A later PASS of any other set on the same diff
  outranks it: `ReviewGate.GeneralLookup`, `ReviewGate.RejectionIsForgotten`.
- *A named review set is never cached under its own name.* `review-cache.ts:261-265` writes the
  artifact name to one step output once per namespace, the last being the general one, and the
  workflow uploads a single artifact under that name (`.github/workflows/fleet-review.yml:1288-1298`).
  A step output written twice is taken to keep its last value. "At most one review per PR, diff and
  set" therefore holds for the general set, and for named sets only if every record were uploaded:
  `ReviewGate.AtMostOneSubstantiveRun`, `ReviewGate.NamedSetsAreReviewedAgain`.
- *A live dispatch can end without its final row and its settle* (the comment at
  `orchestrator/src/tick.ts:252-253` says exactly one terminal row, and a settle even when something
  threw), if and only if appending a row throws or logging a failed disarm does: `Pipeline.WorkIsConserved`.
- *A PR can stay armed unreviewed* when `dispatch` throws after requesting auto-merge at PR open, if and
  only if that request took effect: `Pipeline.ThrownDispatchArms`, `Pipeline.ThrownDispatchCanLeaveArmed`;
  otherwise an armed PR was reviewed: `Pipeline.LastDispatchDecides`.
- *A failed salvage push is not retried by the next settle*, which finds nothing uncommitted and
  removes the worktree, leaving the commit on a local branch only: `Worktree.CommittedWorkNeedsATrigger`,
  `Worktree.FailedPushThenSettleLeavesItLocal`.
- *An unrestricted lane's exclusions are dropped by the grant-aware scope check*: `Scope.NoGrantsAgree`.
- *Two `fleet/review` checks on one head*: only the first is read, unlike every other context:
  `Board.SecondReviewCheckIsNotRead`.
- *Equal timestamps*: on a ledger in time order the failure streak is the running counter if and only if,
  among the rows stamped like the newest SUCCESS, as many come before the first SUCCESS as after the
  last one: `Circuit.StreakIsRunningCounter`, `Circuit.TiedTimesDisagree`.
- *The printed resume time of a quota halt reads back* if and only if the engine's name does not
  itself contain the marker: `KillSwitch.QuotaReasonReadsBack`.
- *A human's halt can be cleared by a pass*, if and only if some pass had read the halt files before it
  was written and was still to act on that read: it resumes the halt it read, or its quota breaker
  overwrites the reason by one that clears itself. A halt set while a pass is already dispatching holds:
  `HaltState.HaltHoldsUnlessAPassIsChecking`.
- *A human's typed reason can clear itself* (the comment at `orchestrator/src/circuit.ts:68-71` says never),
  if and only if it starts like the quota breaker's and carries a readable time:
  `KillSwitch.ClearedFromItsTimeOn`, `KillSwitch.TypedReasonIsCleared`.
- *An interrupted `ensure` does not always heal by itself*: a crash between cloning and recording
  leaves a database no later `ensure` adopts: `Templates.RetryHeals`, `Templates.CrashBeforeTheRecordBlocks`.

## Model

| member | source | states |
|---|---|---|
| `Database.UnguardedKeepsCell` | scripts/run-migrations.ts:131-174 | a statement the guard lets through keeps every non-NULL cell, under the table's new name if it renamed it |
| `Migrations.RunsKeepOrder` | scripts/run-migrations.ts:386-462 | over every sequence of boots with a crash anywhere, the applied files are a prefix of the sorted list and no statement runs after one of a later file |
| `Migrations.AppliedFileNeverRunsAgain` | scripts/run-migrations.ts:390-404 | an applied file stays applied and no later event is for it or an earlier file |
| `Migrations.StrictPassesOnlyWhatIsThere` | scripts/run-migrations.ts:193-231 | in a first application, a statement the database cannot carry out is passed over if and only if its effect is there already: the table or column present for an addition, absent for a drop, the row id present for an INSERT; any other ends the boot and changes nothing |
| `Migrations.FailuresPassedOver` | scripts/run-migrations.ts:193-231 | for every error the environment may answer: a first application passes it exactly if it says there is nothing to do for a statement of that kind, the catch-up pass exactly the five errors about objects present or absent and a foreign key that could not be added again |
| `Migrations.MissingTableStopsTheBoot` | scripts/run-migrations.ts:176-192 | no statement about a missing table, but a drop, passes in a first application |
| `Migrations.CreateAndDropRerun` | scripts/run-migrations.ts:74-102 | bare CREATE and DROP TABLE never fail and are idempotent |
| `Migrations.WithheldMeansLoss` | scripts/run-migrations.ts:131-174 | catch-up withholds a statement if and only if it is an UPDATE, DELETE or TRUNCATE or would lose a row or a non-NULL cell now; a first application withholds nothing |
| `Migrations.ResurrectedTableGoes` | scripts/run-migrations.ts:249-309 | a rename found already made is remembered, and the empty table the replay brought back is dropped at the end unless the database refuses |
| `Migrations.NewDatabaseRunsStrictly` | scripts/run-migrations.ts:338-357 | with neither ledger nor schema, over every run nothing is reserved or withheld and every file is recorded as a strict application |
| `Migrations.CatchUpKeepsEveryCell` | scripts/run-migrations.ts:418-424 | once every file is reserved, no run loses a non-NULL cell, following renames, and every file is applied in catch-up mode on every retry |
| `Migrations.LegacyDataSurvives` | scripts/run-migrations.ts:338-357 | a database that predates the ledger keeps every cell through everything that follows, if its first boot finishes the reservation loop |
| `Migrations.FirstBootReserves` | scripts/run-migrations.ts:348-357 | after any number of steps of the loop exactly that many files are reserved and no data was touched |
| `Migrations.ReservationMustFinish` | scripts/run-migrations.ts:332-357 | after a crash in the loop, later boots never lose data if and only if every file was already reserved |
| `Migrations.UnreservedFileLosesData` | scripts/run-migrations.ts:406-409 | an unreserved file runs strictly and can drop a populated column |
| `Migrations.RecordedFileWasPartitioned` | scripts/run-migrations.ts:411-458 | a file is recorded only after an attempt that dealt with all its statements in order, each executed or withheld; the row holds exactly the withheld ones and the checksum |
| `Migrations.UnchangedFilesNeverRefused` | scripts/run-migrations.ts:391-401 | with unchanged files no boot ever refuses |
| `Migrations.EditedFileBlocksEveryBoot` | scripts/run-migrations.ts:391-401 | once an applied file was edited, no boot runs a statement, changes the database or completes |
| `Migrations.CompletedBootIsFinal` | scripts/run-migrations.ts:386-466 | after a boot that completes, no later boot with the same files executes a statement or changes database or ledger |
| `MigrationBoot.Runner.OpenLedger` | scripts/run-migrations.ts:327-348 | creating the ledger table, and deciding whether to reserve, is the Open action |
| `MigrationBoot.Runner.ReserveAll` | scripts/run-migrations.ts:351-357 | the reservation loop, cut short after any number of database operations, performs only run actions |
| `MigrationBoot.Runner.PerformNext` | scripts/run-migrations.ts:418-441 | one statement is withheld, executed, passed over or fatal, as the Perform action says; in a first application what the database cannot do is passed exactly if it is in place |
| `MigrationBoot.Runner.ApplyFile` | scripts/run-migrations.ts:411-458 | the statement loop performs one run action per statement and records the file only at its end |
| `MigrationBoot.Runner.CleanUp` | scripts/run-migrations.ts:273-309 | the clean-up loop ends with nothing noted, or crashed, by run actions alone |
| `MigrationBoot.Runner.Boot` | scripts/run-migrations.ts:318-466 | a whole boot, crashing after any number of operations, is a sequence of run actions; completed means every file is applied |
| `Ledger.NewestFirstIsStableSort` | orchestrator/src/ledger.ts:139-147 | the sort readers use is a permutation, newest first, keeping ledger order among equal times |
| `Ledger.FailedAttemptsIn` | orchestrator/src/ledger.ts:139-147 | the loop counts an item's terminal failures newer than its last SUCCESS |
| `Ledger.AppendChangesCountByOne` | orchestrator/src/ledger.ts:136-147 | for any clock reading, one appended row moves an item's count by at most one, and QUOTA, UNVERIFIED, SHADOW and DISPATCHED rows never move it |
| `Ledger.NewestRowMovesCount` | orchestrator/src/ledger.ts:136-147 | a row newer than its item's others: SUCCESS starts the count over, FAILED, TIMEOUT, BLOCKED and REJECTED add one, every other outcome nothing |
| `Circuit.RateTripsMeans` | orchestrator/src/circuit.ts:57-62 | the rate breaker trips exactly when more than the limit of DISPATCHED rows are at most an hour old |
| `Circuit.FailureBreaker` | orchestrator/src/circuit.ts:137-150 | trips exactly when the streak since the last resume reaches the limit |
| `Circuit.NewestRowMovesStreak` | orchestrator/src/circuit.ts:137-150 | a row newer than every other: FAILED and TIMEOUT lengthen the streak, SUCCESS ends it, nothing else moves it, nor any row no newer than the resume |
| `Circuit.StreakIsRunningCounter` | orchestrator/src/circuit.ts:137-150 | on a ledger in time order filtering, sorting and counting equals the incremental counter if and only if, among the rows stamped like the newest SUCCESS, as many come before the first SUCCESS as after the last |
| `Circuit.DistinctTimesAgree` | orchestrator/src/circuit.ts:137-150 | in particular when no two rows that matter are stamped alike |
| `Circuit.TiedTimesDisagree` | orchestrator/src/circuit.ts:137-150 | after any older rows, a failure and a SUCCESS stamped alike leave the streak at 1 and the counter at 0 |
| `Circuit.GroupQuotaRows` | orchestrator/src/circuit.ts:118-127 | the rows are grouped by engine, with the engines named once each, in order of their first row |
| `Circuit.QuotaBreaker` | orchestrator/src/circuit.ts:118-135 | trips exactly when some engine has two QUOTA rows since the last resume, naming of all such engines the one whose first row came first, and its resume time |
| `Circuit.QuotaTripsMeans` | orchestrator/src/circuit.ts:118-135 | it trips exactly when since the resume some engine has at least two QUOTA rows, whatever their lanes |
| `Circuit.QuotaHaltResumes` | orchestrator/src/circuit.ts:118-135 | it resumes at the latest reset any of that engine's rows reported, or an hour from now if none did |
| `Circuit.LatestResetIsMaximum` | orchestrator/src/circuit.ts:118-135 | the resume time is the latest reported reset, if any row reported one |
| `Circuit.ResumeForgetsOldRows` | orchestrator/src/circuit.ts:118-150 | rows no newer than the resume can trip neither the quota nor the failure breaker |
| `Circuit.CooldownMeansRecentQuota` | orchestrator/src/circuit.ts:217-220 | a lane cools down exactly while one of its own QUOTA rows is recent |
| `KillSwitch.QuotaReasonReadsBack` | orchestrator/src/circuit.ts:76-91 | the halt reason gives back its printed time if and only if the engine's name does not contain the marker |
| `KillSwitch.ClearedFromItsTimeOn` | orchestrator/src/tick.ts:545-570 | a halt is cleared at some time if and only if its reason starts like the quota breaker's and carries a readable time, and then at every time from that one on |
| `KillSwitch.QuotaHaltLifecycle` | orchestrator/src/tick.ts:555-565 | the halt the breaker writes is cleared exactly from the time it printed |
| `KillSwitch.TypedReasonIsCleared` | orchestrator/src/circuit.ts:72-74 | so is any reason a person types that reads like it |
| `KillSwitch.OtherHaltsNeverCleared` | orchestrator/src/circuit.ts:68-74 | the halts of the two other breakers, of a tampering verifier, of a GitHub issue and of a file without a reason never clear themselves, whatever detail they carry |
| `HaltState.FirmHaltHolds` | orchestrator/src/killswitch.ts:43-50 | over every sequence of halts, issue changes and passes, a halt that never clears itself stops every later pass until a person resumes, unless it was written while a pass was between reading the files and its breakers |
| `HaltState.HaltHoldsUnlessAPassIsChecking` | orchestrator/src/killswitch.ts:111-125 | such a halt holds for ever if and only if no pass was between reading the files and its breakers, or about to resume what it read |
| `HaltState.QuotaHaltHistory` | orchestrator/src/tick.ts:545-581 | over every history before the printed time a quota halt stays and no pass goes ahead; the first decision from then on clears it and stamps the resume |
| `HaltState.PassGoesOn` | orchestrator/src/killswitch.ts:43-50 | the halt file stops a pass unless its reason's own time has come; without it an open issue stops it exactly while it can be read |
| `Select.JudgeMeans` | orchestrator/src/select.ts:33-40 | an item is accepted if and only if its labels were read, hold the required label and the lane's own and no veto, and its body has 200 characters; otherwise the reason is the first test it fails, the veto before the lane |
| `Select.SelectForLane` | orchestrator/src/select.ts:42-55 | the candidates are exactly the items the lane may have, in order; the rejections exactly the others, in order, each with the first test it fails |
| `Select.CandidatesStayDistinct` | orchestrator/src/select.ts:42-55 | selection neither duplicates nor invents items |
| `Select.ClaimAcrossLanes` | orchestrator/src/tick.ts:220-228 | the map filled by the nested loops gives every item's first lane, and nothing else |
| `Select.OwnerIsFirst` | orchestrator/src/tick.ts:215-228 | an item's owner is the first lane that has it |
| `Review.PassWasVerifiedAndReviewed` | orchestrator/src/review.ts:1386-1478 | a PASS ends the round it was given in, on a diff that had just passed verification |
| `Review.LoopIsBounded` | orchestrator/src/review.ts:1386-1478 | no review without a mechanical pass just before it, nothing after a PASS, a failed verification or tampering, and never more reviews than rounds |
| `Fleet.ArmStandardAutoMergeAtOpen` | orchestrator/src/automerge.ts:97-116 | asks to arm the given PR exactly on the right, eligible branch; a failed request is swallowed by its log line, a failed log line is not |
| `Pipeline.LoopIsLegal` | orchestrator/src/review.ts:1386-1478 | for every pattern of throws what the review loop did is a legal trace |
| `Pipeline.LoopEndsExactly` | orchestrator/src/review.ts:1386-1478 | the loop ends with a result in round n if and only if every earlier round sent the work back for revision and the n-th is one that ends it so |
| `Pipeline.RevisionIsFollowedByVerification` | orchestrator/src/review.ts:1445-1478 | a verdict other than PASS on work that could be revised is followed at once by the next round's verification; ending on one before the last round means a revision nobody took or tampering |
| `Fleet.RunReviewLoop` | orchestrator/src/review.ts:1386-1478 | the loop makes exactly the calls of its plan, ends as the plan says, and halts the fleet for nothing but tampering |
| `Fleet.ReviewAndArm` | orchestrator/src/tick.ts:314-440 | the end of the review leads to exactly the calls and the outcome of the plan: a request to arm comes only after a passed review |
| `Pipeline.AttemptIsLegal` | orchestrator/src/tick.ts:278-495 | wherever it throws, a dispatch reviews only a SUCCESS on the right branch with branch, PR and worktree, arms only after a PASS of that review, and if nothing threw its outcome is that of reply and review |
| `Pipeline.HandsOverExactly` | orchestrator/src/tick.ts:288-475 | if nothing threw, a human gets exactly the wrong branch, the unverifiable SUCCESS, the missing verdict and the arming that was not clean |
| `Pipeline.ThrownIsTheLastCall` | orchestrator/src/tick.ts:278-495 | a dispatch counts as thrown if and only if its very last call threw uncaught |
| `Pipeline.ClaimedSuccessIsRecorded` | orchestrator/src/tick.ts:288-475 | a claimed SUCCESS is recorded FAILED on the wrong branch, as it is with a human told when it cannot be verified, and otherwise as its review ended |
| `Pipeline.WorkerOutcomeIsRecorded` | orchestrator/src/engines.ts:131-141 | BLOCKED and QUOTA are recorded as reported, with the reset time, and anything that is no terminal status as FAILED |
| `Pipeline.ArmsAtOpenExactly` | orchestrator/src/automerge.ts:97-116 | at PR open arming is asked for exactly on an eligible PR on the right branch |
| `Fleet.TryDispatch` | orchestrator/src/tick.ts:278-495 | everything inside the try makes exactly the calls of its plan, up to the first that throws |
| `Fleet.CloseDispatch` | orchestrator/src/tick.ts:497-522 | after the try: disarm unless this run armed, then the final row, then the settle, each only if the one before did not throw |
| `Fleet.RunLiveDispatch` | orchestrator/src/tick.ts:255-523 | a dispatch makes exactly the calls of its plan, so ledger and armed PRs end as the plan's do |
| `Pipeline.WorkIsConserved` | orchestrator/src/tick.ts:255-523 | the DISPATCHED row comes before the worker and nothing happens without it; then one final row and one settle happen, and never two, if and only if both appends and the log line of a failed disarm work |
| `Pipeline.SettleFollowsFinalRow` | orchestrator/src/tick.ts:512-522 | the settle comes right after the final row, with the outcome recorded |
| `Pipeline.EscapeIsTheEnd` | orchestrator/src/tick.ts:493-522 | an exception leaves the pipeline if and only if its very last call failed |
| `Pipeline.FinalRowIsTerminal` | orchestrator/src/engines.ts:131-141 | a final row is never DISPATCHED or SHADOW and is stamped like its first row |
| `Pipeline.ArmedExactly` | orchestrator/src/tick.ts:497-510 | for every pattern of throws, exactly which PRs are armed afterwards |
| `Pipeline.StillArmedMeansReviewed` | orchestrator/src/tick.ts:497-510 | if the disarm asked for took effect, the PR is armed afterwards exactly when this run acknowledged arming it, right after its last verification and its last review passed |
| `Pipeline.LastDispatchDecides` | orchestrator/src/tick.ts:497-510 | over any chain of dispatches, a PR's arming is decided by the last dispatch that came back with it |
| `Pipeline.ThrownDispatchArms` | orchestrator/src/automerge.ts:97-116 | when `dispatch` threw, a PR is newly armed if and only if the request made at its opening took effect |
| `Pipeline.ThrownDispatchCanLeaveArmed` | orchestrator/src/cli.ts:446-455 | a plan that does: the request works, both log lines after it throw; the dispatch is recorded FAILED and settled, with no verification, no review and no disarm |
| `Schedule.HourlyBound` | orchestrator/src/circuit.ts:57-62 | over every history of passes, a closed one-hour window holds at most the hourly limit plus one pass's live lane caps of DISPATCHED rows |
| `Schedule.AttemptBudget` | orchestrator/src/tick.ts:628-631 | over every history and for any clock, an item's failures since its last SUCCESS never exceed the budget |
| `Schedule.EachItemOncePerPass` | orchestrator/src/tick.ts:613-688 | an item is dispatched or shadowed at most once per pass, by the lane that owns it, with attempts left |
| `Schedule.QuotaRowsCoolLanesDown` | orchestrator/src/tick.ts:616-622 | a live lane that ran anything had no QUOTA row of its own within the cool-down |
| `Schedule.ClearAfterResume` | orchestrator/src/tick.ts:572-581 | right after a resume only the rate breaker can stop a pass |
| `Schedule.PassExtendsHistory` | orchestrator/src/tick.ts:535-701 | a legal pass over the ledger so far extends the history |
| `Tick.TrippedBreaker` | orchestrator/src/circuit.ts:175-213 | nothing trips exactly when all three breakers are clear; rate comes before quota before failures |
| `Tick.CheckBreakers` | orchestrator/src/circuit.ts:175-213 | a breaker that trips halts the fleet with its own reason, the quota breaker's carrying its time; nothing else is written |
| `Tick.PassHalt` | orchestrator/src/tick.ts:545-570 | what was read decides: a halt that never clears itself stops the pass without a look at the clock; one that does stops it exactly while the clock reads earlier, and is resumed otherwise; ending in an error needs a read that threw |
| `Tick.QuotaHaltStage` | orchestrator/src/tick.ts:555-565 | a pass that finds the quota breaker's halt stays halted exactly if its clock reads before the printed time |
| `Tick.HaltStageIsDecide` | orchestrator/src/tick.ts:545-570 | what a pass does about a halt is the decision of the halt-state machine, file for file |
| `Tick.ResumedPassTripsOnlyOnRate` | orchestrator/src/tick.ts:572-581 | a pass that resumed the fleet and finds no newer rows can be stopped again by the rate alone |
| `Tick.QuotaHaltFromPassToPass` | orchestrator/src/circuit.ts:194-203 | from the pass that trips to a later one: halted until the printed time, then resumed and not tripped again over the same rows |
| `Tick.ReadAllLabels` | orchestrator/src/tick.ts:600-602 | the label cache gets an entry for every item, holds exactly what was read, and no item is read twice |
| `Tick.SelectAll` | orchestrator/src/tick.ts:588-606 | each lane's items are its candidates in the listing read for it, judged by the one label cache; only an unreadable source or a throw ends the pass here |
| `Tick.ListingsMakeWellListed` | orchestrator/src/tick.ts:588-608 | duplicate-free lanes and listings give duplicate-free candidate lists |
| `Tick.TryItem` | orchestrator/src/tick.ts:634-686 | a candidate is taken only through its own halt check, clock reading, open-PR read and fresh label read, and then writes its rows and one mark stamped with that reading; one left out has its excuse on record |
| `Tick.EverySentWasWanted` | orchestrator/src/tick.ts:634-686 | the labels read just before every dispatch hold the required label and the lane's own, and no veto |
| `Tick.RunLane` | orchestrator/src/tick.ts:613-688 | a lane's rows and marks are those of a legal run: owned items in order, within its cap, with attempts left, none while cooling down; every eligible candidate gets its halt check and, up to the cap or a stop, is taken or has its excuse on record |
| `Tick.RunLanes` | orchestrator/src/tick.ts:608-690 | the lanes run in order; the pass finishes only when every lane is done, and stops only at a halt it read or a call that threw |
| `Tick.RunTick` | orchestrator/src/tick.ts:535-701 | a pass appends exactly the rows of one legal pass, its dispatches and shadows are exactly its entries in order, every one let through by fresh checks just before it; its first events decide lock, halt, resume and breakers, with the resume it read or made itself, and its last event shows why it ended |
| `Worktree.Workspace.SalvageUncommittedWork` | orchestrator/src/worktree.ts:66-76 | the salvage, for every way its git commands may fail |
| `Worktree.Workspace.SettleItem` | orchestrator/src/worktree.ts:202-237 | salvage first; teardown only if it did not fail |
| `Worktree.SettleKeepsUncommitted` | orchestrator/src/worktree.ts:202-226 | whichever command fails, uncommitted changes are in a standing worktree or all on the pushed salvage branch |
| `Worktree.SettlesHold` | orchestrator/src/worktree.ts:66-95 | over any number of settles git never loses a change |
| `Worktree.CommittedWorkNeedsATrigger` | orchestrator/src/worktree.ts:66-76 | a settle that goes through pushes the worktree's work if and only if something was uncommitted or it was pushed already |
| `Worktree.FailedPushThenSettleLeavesItLocal` | orchestrator/src/worktree.ts:66-76 | a failed push followed by another settle leaves the change on a local branch only |
| `ReviewCache.SortDistinctIsCanonical` | orchestrator/src/review-cache.ts:104-108 | sorting without duplicates keeps exactly the names, strictly ascending |
| `ReviewCache.TagNamesTheSet` | orchestrator/src/review-cache.ts:94-108 | for one-line names, tags are equal if and only if the sets are |
| `ReviewCache.LineBreakCollides` | orchestrator/src/review-cache.ts:104-108 | a name with a line break would share a longer set's tag |
| `ReviewCache.ArtifactNameIsInjective` | orchestrator/src/review-cache.ts:79-92 | the artifact name determines PR, diff hash, set and verdict |
| `ReviewGate.AuthorNeverAsksItself` | orchestrator/src/ci.ts:207-311 | every PR has somebody to ask, never its author; a push asks for nothing |
| `ReviewGate.AskersAre` | orchestrator/src/ci.ts:207-311 | the fleet's login may ask on every PR but its own, the release login on the fleet's PRs and the release branch but not on its own, and nobody else |
| `ReviewGate.RequestedMeans` | orchestrator/src/ci.ts:207-311 | a review is asked for by hand or by a request to one of them that is no push |
| `ReviewGate.ReviewerLabelMeans` | orchestrator/src/specialist.ts:57-59 | a reviewer label is any name followed by the suffix in any mixture of cases |
| `ReviewGate.DecideReviewSet` | orchestrator/src/ci.ts:812-841 | refuses exactly when labels are unreadable or a wanted review cannot run; otherwise the set is what labels and content ask for |
| `ReviewGate.EveryEntryIsEarned` | orchestrator/src/ci.ts:1180-1212 | every cached verdict was recorded by a run of that diff in which every reviewer answered |
| `ReviewGate.CachedPassIsSound` | orchestrator/src/ci.ts:1058-1083 | in every history a cached PASS for a set means a run reviewed that diff with a set containing it and all passed |
| `ReviewGate.CachedFailIsARejection` | orchestrator/src/review-cache.ts:232-249 | a cached FAIL means a reviewer rejected that diff, for a named set in a run of exactly that set |
| `ReviewGate.CacheAgreesWithReviewingAgain` | orchestrator/src/ci.ts:1058-1083 | with consistent reviewers a cached verdict is what reviewing again would give, except a FAIL of the general namespace |
| `ReviewGate.GreenIsEarned` | orchestrator/src/ci.ts:1335-1434 | every green conclusion rests on such a review, or on the two exemptions, which a named reviewer overrides |
| `ReviewGate.GreenExactly` | orchestrator/src/ci.ts:1335-1434 | after any history the check is green if and only if the set is resolved and a PASS is seen, or the PR is exempt with no verdict seen, or a review was due and the review step saw a PASS or had every reviewer pass |
| `ReviewGate.EngineRunsExactly` | orchestrator/src/ci.ts:1414-1433 | after any history an event adds its run if and only if a review was due (set resolved, no verdict seen, not exempt, asked for, no push) and the step reached its reviewers, whatever the set, the empty one included |
| `ReviewGate.PushesNeverReachTheEngine` | orchestrator/src/ci.ts:1414-1433 | pushes run no reviewer and change no cache entry, after any history |
| `ReviewGate.AtMostOneSubstantiveRun` | orchestrator/src/ci.ts:1044-1083 | with working lookups and kept records, a diff is reviewed to a verdict at most once per set, for the general set or if every record is uploaded |
| `ReviewGate.NamedSetsAreReviewedAgain` | orchestrator/src/review-cache.ts:250-266 | with the workflow's single upload the same named set reviews the same diff twice |
| `ReviewGate.GeneralVerdictIsAnyPass` | orchestrator/src/ci.ts:1182-1212 | the general namespace holds a PASS exactly when some set passed the diff and a FAIL exactly when some set was rejected |
| `ReviewGate.GeneralLookup` | orchestrator/src/review-cache.ts:220-249 | its lookup answers PASS if and only if some set passed, whatever was rejected |
| `ReviewGate.RejectionIsForgotten` | orchestrator/src/ci.ts:1195-1203 | a rejection by one set is overridden for the general set by another set's later PASS |
| `ReviewGate.ReviewCheck.Compose` | orchestrator/src/ci.ts:1103-1153 | the verdict is PASS exactly when every reviewer passes and is recordable exactly when every reviewer answered |
| `ReviewGate.ReviewCheck.RecordVerdict` | orchestrator/src/ci.ts:1204-1211 | the loop over namespaces stores the entries the upload policy keeps |
| `ReviewGate.ReviewCheck.ReviewStep` | orchestrator/src/ci.ts:1000-1217 | looks up, reviews and records as one step of the history |
| `ReviewGate.ReviewCheck.Handle` | orchestrator/src/ci.ts:1335-1434 | one workflow run is one step of the history |
| `DatabaseNames.SanitiseCleans` | scripts/worktree-db.ts:72-77 | only [a-z0-9] with single inner underscores remain, and sanitising again changes nothing |
| `DatabaseNames.SanitiseKeepsText` | scripts/worktree-db.ts:72-77 | no letter or digit is lost or moved, and a clean name stays as it is |
| `DatabaseNames.DerivedNameShowsDirectory` | scripts/worktree-db.ts:95-105 | a clean directory name that fits appears whole between the tool's prefix and the hash |
| `DatabaseNames.ProductPrefixGoes` | scripts/worktree-db.ts:95-105 | the product's own prefix is left out |
| `DatabaseNames.NamelessDirectory` | scripts/worktree-db.ts:95-105 | a directory without a letter or digit is called worktree |
| `DatabaseNames.DerivedNameIsSafe` | scripts/worktree-db.ts:95-105 | every derived name fits the identifier limit, needs no quoting, has the tool's prefix and is never protected |
| `DatabaseNames.NameDeterminesHash` | scripts/worktree-db.ts:79-94 | equal names have equal path hashes, however directory names collide |
| `Sweep.DropNeedsEverything` | scripts/worktree-db.ts:215-237 | a drop is decided if and only if all the documented conditions hold |
| `Sweep.OtherVerdicts` | scripts/worktree-db.ts:239-296 | when exactly a database is marked, waited for, unmarked or refused |
| `Sweep.OrphanGoes` | scripts/worktree-db.ts:239-296 | two acting sweeps that both find it gone, the grace apart, remove it |
| `Sweep.SightingClearsTheMark` | scripts/worktree-db.ts:239-296 | a sweep that sees the worktree, and the worktree's own ensure, take the mark away; its own drop takes the database |
| `Sweep.OwnerTouchesOnlyItsOwn` | scripts/worktree-db.ts:738-752 | an ensure claims, and a drop removes, nothing another worktree recorded |
| `Sweep.DropsAreTwoPhase` | scripts/worktree-db.ts:239-296 | over every sequence of sweeps, crashes, claims and teardowns, a drop with a positive grace follows a mark at least that old with no sighting or claim in between |
| `Sweep.NoGraceDropsAtOnce` | scripts/worktree-db.ts:286-295 | an unmarked orphan is dropped by one sweep if and only if the grace is not positive |
| `Sweep.DryRunChangesNothing` | scripts/worktree-db.ts:946-947 | without --drop nothing changes |
| `Sweep.Instance.RunSweep` | scripts/worktree-db.ts:907-961 | the loop over a listing taken once does what the history's sweep step says, also when cut short |
| `Templates.Provisioner.EnsureTemplate` | scripts/worktree-db.ts:665-703 | returning means the template is published and sealed; every path asks only for operations of one run |
| `Templates.Provisioner.Ensure` | scripts/worktree-db.ts:714-799 | refuse, update or create: each operation may throw, a migration half way, and what is left behind is what one run of the steps leaves; refused changes nothing; if every operation works the end is ready or refused; ready means the record names this worktree and schema, the schema ran through, and no orphan mark is left |
| `Templates.OwnDatabaseIsKept` | scripts/worktree-db.ts:714-799 | however an ensure ends, a worktree's own database is neither dropped nor rebuilt and keeps every migration that ran through, and no other database changes |
| `Templates.RecordsStayTrue` | scripts/worktree-db.ts:665-792 | under crashes at every operation, a template's record means exactly that complete schema and a worktree's recorded schema ran through on it |
| `Templates.NeverAdopted` | scripts/worktree-db.ts:738-752 | a database whose record is missing or names another worktree is refused and nothing changes |
| `Templates.PublishedTemplateStays` | scripts/worktree-db.ts:656-703 | a published template is never modified or dropped |
| `Templates.RetryHeals` | scripts/worktree-db.ts:714-799 | an undisturbed ensure ends ready if and only if the worktree's database is absent or its own, whatever crashes left behind, and then with its record complete and no orphan mark |
| `Templates.CrashBeforeTheRecordBlocks` | scripts/worktree-db.ts:756-771 | a crash between clone and record leaves a database no ensure adopts |
| `Fragments.GlobMeansFillers` | orchestrator/src/fragments.ts:105-114 | a glob matches if and only if each star can be replaced by a slash-free filler |
| `Fragments.PatternMeans` | orchestrator/src/fragments.ts:140-199 | what every pattern matches: anchored, about the last segment, or about the path; a directory, a glob filled or a literal begun |
| `Fragments.DirectoryCoversSubtree` | orchestrator/src/fragments.ts:191-199 | a directory, anchored or not, covers exactly what is beneath it |
| `Fragments.SecretTemplateMeans` | orchestrator/src/fragments.ts:241-246 | a template is a name followed by one of the three suffixes |
| `Fragments.DepthDoesNotMatter` | orchestrator/src/fragments.ts:140-175 | a pattern without a slash sees a file alike at any depth, for owned paths and for secrets |
| `Scope.FindLongestMatch` | orchestrator/src/scope.ts:3-9 | the loop finds the longest match, the first on a tie |
| `Scope.WithinMeansOwnedLongest` | orchestrator/src/scope.ts:62-68 | a file is within a lane if and only if an owned pattern is longer than every matching exclusion, or the lane owns nothing and excludes nothing matching |
| `Scope.CheckScope` | orchestrator/src/scope.ts:51-72 | the loop splits the files as specified |
| `Scope.CheckScopeAcross` | orchestrator/src/scope.ts:112-143 | the loop over own lane, exclusions and grants splits the files as specified |
| `Scope.ResultsPartition` | orchestrator/src/scope.ts:112-143 | the results are disjoint order-keeping subsequences, and any other file is allowed for a stated reason |
| `Scope.StrayedExactly` | orchestrator/src/scope.ts:112-143 | exactly which files are forbidden and which stray, alone and with grants, in terms of the matching patterns |
| `Scope.GrantNamesLane` | orchestrator/src/ci.ts:857-896 | a grant label names its lane after the prefix, blanks aside |
| `Scope.NoGrantsAgree` | orchestrator/src/scope.ts:112-143 | without grants it equals the plain check if and only if the lane owns something or no allowed file meets an exclusion |
| `Scope.GrantsOnlyShrinkStrayed` | orchestrator/src/scope.ts:127-141 | more grants never change what is forbidden and only remove strayed files, each through a new grant that owns it |
| `Scope.EmptyGrantIsNothing` | orchestrator/src/scope.ts:84-91 | granting a lane that owns nothing changes nothing |
| `Scope.ExcludedOnlyByOwnLane` | orchestrator/src/scope.ts:131-139 | a grant-excluded path passes a restricted lane if and only if it is no secret and that lane owns it |
| `Scope.ResolveGrantedLanes` | orchestrator/src/ci.ts:869-896 | exactly the known lanes with owned paths, other than the PR's own, that a label names, each once; none when labels are unreadable |
| `Impact.ClassifyImpact` | orchestrator/src/impact.ts:177-215 | the reasons are exactly the high-impact hits, secret hits and size limits, and high means there is one |
| `Impact.HighImpactMeans` | orchestrator/src/impact.ts:177-198 | an entry meets a file that begins with it or has it right after a slash |
| `Impact.SecretHitMeans` | orchestrator/src/impact.ts:199-205 | a file is a secret, at any depth, exactly by how its last segment begins or ends |
| `Impact.ForbiddenMeans` | orchestrator/src/fragments.ts:293-297 | the write gate forbids exactly these but for templates of the two kinds that have them |
| `Impact.FileTierMeans` | orchestrator/src/impact.ts:535-559 | the tier of one file: 1 for the two root files, 0 for harmless prose, 2 for everything else |
| `Impact.TierFor` | orchestrator/src/impact.ts:584-592 | the loop computes the tier of the diff |
| `Impact.TierIsMaximum` | orchestrator/src/impact.ts:566-592 | the tier is the maximum over the files |
| `Impact.AddingFilesNeverLowersTier` | orchestrator/src/impact.ts:584-592 | adding files never lowers the tier |
| `Impact.NeverWriteIsHighImpactAndTier2` | orchestrator/src/impact.ts:185-205 | every file the never-write gate can forbid is high-impact and Tier 2 |
| `Impact.SecretsAreNeverLowTier` | orchestrator/src/ci.ts:1402-1412 | a diff holding such a file never concludes as low-tier |
| `Impact.BelowTier2IsHarmless` | orchestrator/src/impact.ts:535-559 | a diff is below Tier 2 if and only if it holds only the two root files and unlisted prose |
| `Board.DeriveBranchRuleset` | orchestrator/src/board.ts:255-301 | refuses malformed rules and an empty required set; otherwise the union of contexts and the strictest demands |
| `Board.CodeOwnersOf` | orchestrator/src/board.ts:326-338 | the backward loop finds the owners of the last matching rule |
| `Board.LastMatchWins` | orchestrator/src/board.ts:326-338 | a later matching rule takes a path from every earlier one |
| `Board.ApprovalsMean` | orchestrator/src/board.ts:326-338 | the author's own approval never counts, and who must have approved a file is decided by the last matching rule |
| `Board.BeforeTheReview` | orchestrator/src/board.ts:501-550 | drafts and release PRs are the operator's, an unknown gate decides nothing, a failed required context must be fixed, one not green is waited for |
| `Board.FailedContextsAreNamed` | orchestrator/src/board.ts:523-543 | what must be fixed names exactly the required contexts that failed on the head |
| `Board.WithoutAReview` | orchestrator/src/board.ts:556-574 | with no review on the head, a surviving reviewer label is stale and a PR without one is a candidate |
| `Board.WithAReview` | orchestrator/src/board.ts:576-634 | with a review on the head, the exact action for each state; a failed review is rerun only if its own verdict did not fail and it was never rerun |
| `Board.MergeMeans` | orchestrator/src/board.ts:501-634 | MERGE if and only if ruleset, head checks, first head review, reviews and GitHub's state all allow it |
| `Board.StaleChecksNeverMatter` | orchestrator/src/board.ts:349-351 | checks on any other commit never change a classification |
| `Board.SecondReviewCheckIsNotRead` | orchestrator/src/board.ts:556-556 | a second fleet/review check on the head does not take MERGE back |
| `Board.BuildBoard` | orchestrator/src/board.ts:652-691 | choosing and sorting compute the specified board |
| `Board.BoardIsSortedPermutation` | orchestrator/src/board.ts:652-691 | the rows are a sorted permutation of the PRs' rows |
| `Board.MostActionableFirst` | orchestrator/src/board.ts:638-650 | the order of the actions, then of the numbers |
| `Board.OneReviewAtATime` | orchestrator/src/board.ts:659-681 | a review is asked for on exactly the candidate with the smallest number |
| `Board.BoardAsksForOneReview` | orchestrator/src/board.ts:659-681 | for distinct numbers at most one row of the board asks for a review, and one does if and only if there is a candidate |
| `Board.BoardIgnoresInputOrder` | orchestrator/src/board.ts:643-651 | for distinct numbers the board does not depend on input order |
| `Board.StaleChecksNeverMoveARow` | orchestrator/src/board.ts:340-351 | changing checks off the head moves no row |

## Left out

Assumptions:

- One scheduler at a time, one boot at a time, one `ensure` or sweep at a time: the locks themselves
  (`orchestrator/src/lock.ts`, the advisory locks) are not modelled, and nobody else appends to the ledger during a pass.
- SHA-256 and its truncations are injective: the contents stand for the checksum, the diff for its hash, a symbolic digest for a tag.
- Clock printing and parsing round-trip on one line (`KillSwitch.RoundTrips`).
- A diff, a file list and a migration set do not change while one run uses them.
- Nobody else writes the halt files between a pass's own halt check and the end of its breakers in `Tick`;
  `HaltState` models exactly that interference.

Not modelled:

- PostgreSQL and the SQL text: statements start as a datatype, one per chunk. Chunks of several statements,
  `ON CONFLICT DO UPDATE`, data-modifying CTEs and drops of several targets, which the text guard does not see, are left out.
- The text of log lines and comments, labels written to GitHub, report text, notes in ledger rows, notifications.
  Whether a log line or comment throws is modelled inside a dispatch, and not in the rest of a pass.
- Which branches are eligible for auto-merge and which content asks for the crypto reviewer: arguments.
- Decoding engine output, `finalLine` and `parseVerdict`: the model starts at a verdict.
- Quota detection in worker logs and the polling of worker status: the model starts at the worker's outcome.
- Non-ASCII lower-casing; the trimmed length of an issue body is a number, and a halt reason is what trimming leaves.
- The curated list of high-impact paths is an argument: what is proved holds for every list.
- The CODEOWNERS pattern matcher is an argument; only that the last match wins is fixed.
- Retrying around busy databases (`withoutSessions`): a database operation works or fails.
- Parsing lane fragments, briefs, digests, model invocation, command-line handling.
- Files git ignores: they are in no `git status` listing and go with the worktree.
- Tick.CheckBreakers: what the rate and failure breakers write after their prefix is left open; the quota breaker's reason is exact.
- Schedule.HourlyBound: needs rows stamped no earlier than their own pass's clock reading; with a clock running backwards inside a pass the breaker bounds nothing.
- Schedule.AttemptBudget: needs lane ids and listings without duplicates, because a pass counts attempts in the ledger it read at its start.
- Sweep.Instance.RunSweep: a database named twice on one command line is not modelled.
- Templates.RecordsStayTrue: `ensure` is one process at a time also while it migrates outside the lock.
- Board.BoardIgnoresInputOrder: PR numbers are distinct, as GitHub's are.
