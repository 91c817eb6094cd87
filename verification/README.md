# Verified model of the GUMMY backend

The backend is a personal assistant: it routes a chat request to specialist agents and records what
they do, fires scheduled automations, keeps files as citable chunks, extracts memories from threads,
and guards accounts and consequential actions. This project models the parts of it whose correctness
rests on state and arithmetic, and proves what they promise for all inputs and all runs.

`dafny verify dfyconfig.toml` checks everything.

## The parts

- **Automations** (`Schedule`, `Automations`, `ClaimProtocol`, `ClaimProgress`, `Scheduler`). A slot
  fires when its row is inserted under a unique pair (automation, slot). `ClaimProtocol` is a step
  system of any number of workers that hold row copies for a whole tick, write back only the columns
  they changed, and may roll back or stop at any point; users create, delete and toggle, and a toggle
  reads and writes in two steps. Clocks are arbitrary. `Scheduler` has the service's own operations on
  a mutable table, for the one process that the application starts.
- **Orchestration** (`RunTraces`, `Orchestrator`, `TraceLaws`, `TaskLaws`). Handlers are an oracle: each
  dispatch is answered at some cost or refused with an error. The theorems say what every plan and every
  pattern of answers leaves in the trace, and what each agent is asked and given.
- **Routing** (`Splitting`, `Scoring`, `Planning`, `LeadingClauses`, `OrderedRequests`, `RoutedTurns`). The
  connective scanner, the argmax scorer that is written twice, the planner that folds clauses into steps in
  place, when the steps must run one after another, and what a turn on a planned request can run into.
- **Files** (`Text`, `Chunking`, `Extraction`). Overlapping windows inside segments with provenance.
- **Accounts and approvals** (`Credentials`, `Approvals`). Refresh-token rotation, single-use resets,
  approve-then-run. Each request is taken to run alone: the code takes no row lock, so two requests
  for the same token or approval at the same moment are outside these two modules.
- **Caches and watermarks** (`QueryCache`, `Watermarks`, `Search`). The LRU query cache against a
  recency list, the message and extraction watermarks, and folding and ranking of search hits.

Classes and methods follow the code statement by statement and are proved against functions on values.
The lemmas then say what those functions mean, and the main ones without naming them: predicates such as `RecordsFiring`,
`Carries`, `ComesAfter`, `CutInOrder` or `ShowsHits` describe an answer by what goes in, with the
constants written out.

## What the proofs found

- A schedule can get stuck. A worker may write back a slot that another worker has fired; the automation
  then stays due and never fires again until a user touches it (`ClaimProgress.StaleCopyCanStick`,
  `StuckStaysStuck`). The exact condition is about clocks: a schedule stays ahead of its fired slots all
  along a run if and only if no commit and no slot-moving resume is made with a clock that lies behind a
  slot already fired for that recurring automation (`StaysBehindIff`, `ClocksInTimeLoseNoClaim`). The code
  does not compare the two. One scheduler process with toggles between ticks, and any number of workers
  without a resume under a queued copy, meet the condition (`OrderlyRunsLoseNoClaim`,
  `OrderlyRunsAreInTime`). A slot never fires twice in any case.
- The step that answers a pipeline never receives the hand-offs of the steps before it:
  `orchestrate_stream` rebuilds the scratch with outputs only, while `_run_sequential` would have handed
  them on (`TraceLaws.TerminalTaskLosesHandoffs`).
- The planner's comment says that a clause without a specialist is not dropped silently. Leading clauses
  are: "keep it short; find jobs; learn python" is planned without its first clause
  (`LeadingClauses.LeadingClauseIsDropped`, `KeepItShortIsDropped`). A plan takes up every clause exactly
  when the first one names a specialist and there is no fourth block (`Planning.EveryClauseIsTakenUpIff`).
- The connective list is described as longest-first. It is not, literally, but no connective is a proper
  prefix of a later one, which is what the scan needs (`Splitting.ConnectivesAreLongestFirst`).
- The cost cap stops the next dispatch, never the current one: the cost of the last step, or any cost in a
  fan-out, has no influence on how the turn ends (`TraceLaws.CostCapIsCheckedBeforeDispatch`).
- An approved action is audited only after it has run. If the process stops before the commit, or the audit
  row cannot be inserted or committed, the action has happened and no row says so
  (`Approvals.AuditRowCanBeLost`); executions without a row are exactly these (`ExecutionsAreAudited`).

## Model

| member | source | states |
|---|---|---|
| `Schedule.NextOccurrenceIsStepLoop` | backend/app/services/automation/automation_service.py:68-92 | the one-jump slot arithmetic equals the loop that steps one period at a time until past `after` |
| `Schedule.NextOccurrenceIsLeastSlot` | backend/app/services/automation/automation_service.py:71-92 | the next slot is the least one of anchor + k periods strictly after `after` |
| `Schedule.ReanchorOnce` | backend/app/services/automation/automation_service.py:256-258 | anchoring at a returned slot gives the same next slot as the original anchor, in whichever order the two clock readings come |
| `Schedule.SchedulesNeverDrift` | backend/app/services/automation/automation_service.py:73-76 | after any history of firing times, sorted or not, the slot is the one that the latest time gives from the original anchor |
| `Schedule.NextStaysOnGrid` | backend/app/services/automation/automation_service.py:256-258 | a next slot taken from a slot on the original grid is on that grid and later than now; there is none exactly for a one-off |
| `Automations.FiredIsNotDue` | backend/app/services/automation/automation_service.py:223-261 | a fired automation is not due at the instant it fired, whether rendering succeeded or failed |
| `Automations.ResumedIsNotDue` | backend/app/services/automation/automation_service.py:161-179 | resuming never leaves a due automation; it ends COMPLETED exactly for a one-off whose moment has passed |
| `Automations.FiringIsRecorded` | backend/app/services/automation/automation_service.py:231-258 | a firing is recorded with its clock and either the rendered text or the first 500 characters of the error; the row counts, parks, ends or goes on accordingly and gets its next slot |
| `Automations.ToggleKeepsSlots` | backend/app/services/automation/automation_service.py:153-182 | a pause only switches off; a resume clears the count, keeps a slot still to come, replaces a missed one, and ends a missed one-off |
| `Automations.NewRowIsDue` | backend/app/services/automation/automation_service.py:98-119 | a new automation is due exactly from its run time on |
| `ClaimProtocol.EverySlotFiresAtMostOnce` | backend/app/services/automation/automation_service.py:215-285 | main result: for every interleaving of any number of workers with stale copies, arbitrary clocks, toggles, deletions, rollbacks and stops, a slot fires at most once for ever, every fired slot is the original run time plus whole periods and had arrived, and a one-off fires at most once |
| `ClaimProtocol.EveryRunKeepsInv` | backend/app/repositories/automation_repository.py:113-138 | the invariant of the claim protocol holds after every run: committed firings are distinct, held claims are free and held once, rows and stale copies stay on the grid |
| `ClaimProtocol.HoldersApart` | backend/app/models/automation.py:172-177 | two workers never hold an uncommitted claim of the same (automation, slot) |
| `ClaimProtocol.HeldClaimStaysFree` | backend/app/repositories/automation_repository.py:130-137 | a held claim is not committed by anybody else and its automation still exists |
| `ClaimProtocol.NewFiringFits` | backend/app/services/automation/automation_service.py:223-264 | a commit fires a slot on the grid that has arrived and that no earlier commit fired |
| `ClaimProtocol.FiredFits` | backend/app/database/session.py:119-123 | writing back only the changed columns of a stale copy keeps the row on its grid |
| `ClaimProtocol.ToggledFits` | backend/app/services/automation/automation_service.py:153-182 | the same for a pause or resume computed from a copy read earlier |
| `ClaimProtocol.CommitRecords` | backend/app/services/automation/automation_service.py:223-264 | a commit adds exactly one run row, for the claim it held, that tells when and how the firing ended; other runs and other automations stay as they were |
| `ClaimProtocol.ChangesSurviveCommit` | backend/app/database/session.py:119-123 | what happens to a row between the read and the commit, a pause for one, survives the commit but for the columns that the firing itself changes |
| `ClaimProtocol.ChangesSurviveToggle` | backend/app/database/session.py:119-123 | the same for a pause or resume that is written after others have changed the row; other rows, runs and workers are untouched |
| `ClaimProgress.OrderlyRunsLoseNoClaim` | backend/app/services/automation/automation_service.py:153-285 | main result: while no resume moves a schedule under a queued copy, the slot shown next is unclaimed and later than every fired slot, and each automation fires in slot order |
| `ClaimProgress.NextNeverMovesBack` | backend/app/services/automation/automation_service.py:256-258 | in such a run the next slot of a surviving row never moves back |
| `ClaimProgress.HeldSlotIsCurrent` | backend/app/repositories/automation_repository.py:113-138 | in such a run a held claim is for the slot that the table still shows |
| `ClaimProgress.GridHasNoSlotBetween` | backend/app/services/automation/automation_service.py:82-92 | the next slot written at clock `now` is later than another slot of the grid exactly when that slot is not later than `now` |
| `ClaimProgress.StepStaysBehindIff` | backend/app/services/automation/automation_service.py:168-179 | one action keeps every automation ahead of its fired slots if and only if it moves no slot or the clock of the worker or request that moves it is not behind a slot already fired for that recurring automation |
| `ClaimProgress.StaysBehindIff` | backend/app/services/automation/automation_service.py:153-285 | along any run at all, staying ahead all the way is equivalent to that clock condition at every write that moves a slot |
| `ClaimProgress.ClocksInTimeLoseNoClaim` | backend/app/services/automation/automation_service.py:215-285 | main result without any restriction on workers or resumes: while no such clock is behind, the slot shown next is unclaimed and later than every fired slot |
| `ClaimProgress.OrderlyRunsAreInTime` | backend/app/services/automation/automation_service.py:153-285 | every orderly run meets the clock condition, so that condition is the wider one |
| `ClaimProgress.StaleCopyCanStick` | backend/app/services/automation/automation_service.py:215-285 | a concrete run: a resume moves the slot while a worker still holds the old copy, another worker fires the new slot, and the first writes it back with an earlier clock; the automation is due at a slot that is already taken |
| `ClaimProgress.StuckStaysStuck` | backend/app/services/automation/automation_service.py:223-226 | such an automation is never fired or changed again, whatever workers and other requests do, until a user pauses, resumes or deletes that automation |
| `Scheduler.AutomationStore.ListDue` | backend/app/repositories/automation_repository.py:89-110 | the due list: enabled, active, arrived rows, earliest first, at most `limit`, and nothing earlier left out |
| `Scheduler.AutomationStore.ClaimRun` | backend/app/repositories/automation_repository.py:113-138 | the run row is inserted unless the pair is taken, in which case nothing changes |
| `Scheduler.AutomationStore.FireOnce` | backend/app/services/automation/automation_service.py:215-264 | firing one automation: the whole new table, and fired exactly when the slot was free; `BatchIsRecorded` says what that table is |
| `Scheduler.AutomationStore.RunDue` | backend/app/services/automation/automation_service.py:267-285 | one tick: the whole new table and the list of executed automations, where a database failure undoes only its own item; `BatchIsRecorded` says what they are |
| `Scheduler.AutomationStore.SetEnabled` | backend/app/services/automation/automation_service.py:153-182 | pause and resume: the whole new table; a missing automation changes nothing |
| `Scheduler.BatchEffect` | backend/app/services/automation/automation_service.py:276-284 | a batch of due automations with no spent slot fires exactly its members without a database failure and leaves no slot spent, with one run row for each firing |
| `Scheduler.BatchIsRecorded` | backend/app/services/automation/automation_service.py:223-285 | whatever the tables hold: a batch fires, in its order, exactly its members that meet no fault and whose shown slot is free; the run table gains exactly one row per firing, for that slot, finished at `now` as the rendering ended; old runs and all other automations stay as they were |
| `Scheduler.OneSchedulerStaysSound` | backend/app/services/automation/automation_service.py:153-285 | main result for one process: every claimed slot is earlier than the slot shown next, the failure counter is the number of failing runs since the last success or resume, and no automation ever makes a fourth failing run in a row; the run rows are exactly the firings |
| `Scheduler.EveryFiringHasItsRun` | backend/app/services/automation/automation_service.py:215-285 | main result: along every history of one scheduler the run rows of an automation that still exists are its firings, one row each, in slot order, and each row tells when and how that firing ended |
| `Scheduler.TickTakesBatch` | backend/app/services/automation/automation_service.py:267-285 | a tick without database failures takes min(due, limit) automations out of the due set and adds none |
| `Scheduler.BacklogDrains` | backend/app/workers/automation_scheduler.py:106-121 | after k ticks at one instant exactly max(0, n - 20 k) of n due automations remain |
| `RunTraces.RunRecorder.OpenStep` | backend/app/services/agents/run_recorder.py:57-71 | appends one running step with the next number, and its task hop |
| `RunTraces.RunRecorder.CloseStepSuccess` | backend/app/services/agents/run_recorder.py:74-92 | closes that step as succeeded, adds its cost to the run, appends the result hop |
| `RunTraces.RunRecorder.CloseStepFailure` | backend/app/services/agents/run_recorder.py:95-102 | closes that step as failed at no cost, appends the error hop |
| `Ordinals.NextOrdinalKeepsCount` | backend/app/repositories/agent_step_repository.py:23-28 | "greatest number so far plus one" numbers rows 1, 2, 3, ... without a gap |
| `Orchestrator.RunGuard.CheckBeforeDispatch` | backend/app/services/agents/orchestrator_service.py:227-233 | refuses a dispatch exactly when the steps would exceed 8 or the recorded cost has reached 60000 tokens |
| `Orchestrator.RunStep` | backend/app/services/agents/orchestrator_service.py:336-400 | one dispatch of the loop: trace, guard, dispatched task, result, findings and stop reason are those of the step function |
| `Orchestrator.RunSequential` | backend/app/services/agents/orchestrator_service.py:316-401 | the loop leaves the trace, guard, results and stop reason of one in-order pass, with the tasks it dispatched |
| `Orchestrator.LaunchBranches` | backend/app/services/agents/orchestrator_service.py:429-446 | every branch is opened, with its task hop, and its task made, before any is closed |
| `Orchestrator.GatherBranches` | backend/app/services/agents/orchestrator_service.py:466-485 | every branch is closed in dispatch order with its own answer; a failing one stops no other |
| `Orchestrator.RunParallel` | backend/app/services/agents/orchestrator_service.py:404-497 | the fan-out leaves the trace, guard, results, failures and stop reason of opening all branches and then gathering them in order, with the tasks it dispatched |
| `Orchestrator.RunTerminal` | backend/app/services/agents/orchestrator_service.py:527-637 | the terminal step records what any other step records |
| `Orchestrator.Orchestrate` | backend/app/services/agents/orchestrator_service.py:765-892 | one turn: head steps and a terminal step, or a fan-out; an error is recorded on the run and raised; it returns the tasks it dispatched, of which `EveryTaskCarriesItsText` says what they carry |
| `TraceLaws.EveryTurnLeavesACompleteTrace` | backend/app/services/agents/orchestrator_service.py:771-892 | main result: for every plan, message, context outcome and pattern of answers each opened step is closed once with its own task hop before its end hop, steps and hops are numbered without gaps, the run ends once, it is FAILED exactly when it must be, results and failures split the branches in order, run cost = guard total = result cost = sum of step costs, and the cost before the last in-order dispatch is below the cap |
| `TraceLaws.InOrderLeaves` | backend/app/services/agents/orchestrator_service.py:336-401 | every in-order pass leaves one closed step and two adjacent hops per dispatch and stops exactly at the first failing answer or refused dispatch |
| `TraceLaws.HeadThenTerminalIsOnePass` | backend/app/services/agents/orchestrator_service.py:821-873 | head steps plus a separate terminal step leave the same trace, budget, results and stop reason as one in-order pass over the whole plan |
| `TraceLaws.TerminalTaskLosesHandoffs` | backend/app/services/agents/orchestrator_service.py:850-852 | what the split changes, in every turn: a terminal task that is dispatched carries every earlier output but no hand-off, also when the step then fails; the dispatched tasks are those of one pass if and only if the plan has one step or its last step is not dispatched |
| `TraceLaws.GatherLeaves` | backend/app/services/agents/orchestrator_service.py:466-485 | gathering closes every branch once, in dispatch order, after all task hops |
| `TraceLaws.FilteringSplits` | backend/app/services/agents/orchestrator_service.py:466-485 | results and failures partition the branches, each side in dispatch order |
| `TraceLaws.ResultCost` | backend/app/services/agents/orchestrator_service.py:910-914 | the cost shown to the user is the sum of the step costs |
| `TraceLaws.StoppedMustFail` | backend/app/services/agents/orchestrator_service.py:227-233 | an in-order turn stops exactly when a dispatched step fails, the plan is longer than 8, or the cost before the last step reaches the cap |
| `TraceLaws.CostCapIsCheckedBeforeDispatch` | backend/app/services/agents/orchestrator_service.py:230-233 | for every plan the cost of the last in-order step, and every cost in a fan-out, has no influence on the final status, so a run may exceed the cap by any amount |
| `TaskLaws.EveryTaskCarriesItsText` | backend/app/services/agents/orchestrator_service.py:338-343 | main result: in every turn each traced step is one dispatched task, in plan order, for the planned agent; it asks for the step's own intent when there is one that is not empty and otherwise for the message, is given exactly the findings it is due, and its task hop and end hop quote the first 200 characters of what it asked and of what came of it |
| `TaskLaws.FailuresSayWhy` | backend/app/services/agents/orchestrator_service.py:227-233 | the error of a turn is that of the context, of the step that failed, or of the cap that was met |
| `TaskLaws.AllFailedSaysWhy` | backend/app/services/agents/orchestrator_service.py:487-489 | when every branch fails the error quotes the agent and the error of each |
| `Chunking.ChunkText` | backend/app/services/files/chunking_service.py:60-104 | bad sizes are refused, otherwise the chunks are the stripped windows of the stripped text |
| `Chunking.EmitWindows` | backend/app/services/files/chunking_service.py:82-104 | the loop over a stripped text emits exactly its windows that are not blank, and terminates |
| `Chunking.WindowsTile` | backend/app/services/files/chunking_service.py:82-103 | windows run from start to end, share exactly `overlap` characters with their neighbour, and each ends strictly later |
| `Chunking.WindowsReconstruct` | backend/app/services/files/chunking_service.py:66-71 | the first window followed by every later one without its first `overlap` characters is the text |
| `Chunking.EmitNumbers` | backend/app/services/files/chunking_service.py:84-100 | chunk numbers have no gap |
| `Chunking.EmitIsSound` | backend/app/services/files/chunking_service.py:88-100 | every chunk is a stripped window that is not blank |
| `Chunking.EmitIsComplete` | backend/app/services/files/chunking_service.py:88-100 | every window that is not blank gives a chunk |
| `Chunking.EveryCharacterIsInAChunk` | backend/app/services/files/chunking_service.py:66-71 | every character that is not blank is shown by some chunk, at its own place |
| `Chunking.CutSegment` | backend/app/services/files/chunking_service.py:137-146 | the pieces of one segment; the sizes passed on are always acceptable unless the overlap is negative |
| `Chunking.AppendPieces` | backend/app/services/files/chunking_service.py:144-158 | appends one segment's pieces with a running number, its header and its provenance |
| `Chunking.ChunkSegments` | backend/app/services/files/chunking_service.py:112-159 | chunks of all segments; refused exactly when the overlap is negative and some segment is not blank |
| `Chunking.ChunksKeepProvenance` | backend/app/services/files/chunking_service.py:118-133 | each chunk is the header of one segment plus a part of that segment, cites its page, section and rows, is numbered by its place, and is at most max(chunk size, header prefix + 1) long; segments stay in order |
| `Chunking.NoSegmentLosesText` | backend/app/services/files/chunking_service.py:118-133 | every character of a segment that is not blank is shown by a chunk cut from that segment |
| `Chunking.PiecesFillTheBudget` | backend/app/services/files/chunking_service.py:137-146 | the windows of a segment are as long as the size and its header line allow, at least one character, share exactly the overlap asked for or the greatest that fits, and its pieces are those windows, trimmed, in order, all that are not blank |
| `Chunking.SegmentsFollowEachOther` | backend/app/services/files/chunking_service.py:134-159 | the chunks of a document are the pieces of its segments one segment after another, each behind its header, with running numbers and a quarter of its length, at least one, as tokens |
| `Extraction.MarkdownSegments` | backend/app/services/files/extraction_service.py:128-153 | segments are the maximal one-section blocks of lines that are not blank |
| `Extraction.Flush` | backend/app/services/files/extraction_service.py:139-142 | the buffered lines become one segment of the current section, unless they are blank |
| `Extraction.EveryLineKeepsItsSection` | backend/app/services/files/extraction_service.py:128-153 | every line that is not blank lies in exactly one segment, whose section is the last heading at or before it |
| `Extraction.HeadingIff` | backend/app/services/files/extraction_service.py:124-125 | a line is a heading with title t exactly when one to six hashes and a white-space character come before a rest that trims to t |
| `Extraction.CsvSegments` | backend/app/services/files/extraction_service.py:156-185 | row groups of at most 25 rows; a table of only a header gives one segment with it |
| `Extraction.EveryRowIsInOneSegment` | backend/app/services/files/extraction_service.py:172-184 | every row that is not blank lies in exactly one segment, which names exactly the rows of its body |
| `Extraction.MarkdownChunksCiteTheirSection` | backend/app/services/files/chunking_service.py:120-133 | from document to citation: a chunk cites the section of every line it can have been cut from |
| `Splitting.RequestsSplitLosslessly` | backend/app/services/agents/router.py:80-109 | main result: the scan gives the one leftmost-longest split of a request at its connectives, and pieces and connectives in order are the request |
| `Splitting.SplitIsLeftmostLongest` | backend/app/services/agents/router.py:148-155 | scanning from left to right gives a leftmost-longest split |
| `Splitting.SplitIsUnique` | backend/app/services/agents/router.py:148-155 | there is only one leftmost-longest split |
| `Splitting.SplitIsLossless` | backend/app/services/agents/router.py:148-155 | pieces and connectives in order concatenate to the text |
| `Splitting.PiecesHoldNoConnective` | backend/app/services/agents/router.py:148-155 | no piece contains a whole connective |
| `Splitting.ConnectivesAreLongestFirst` | backend/app/services/agents/router.py:80-99 | no listed connective is a proper prefix of a later one |
| `Splitting.FirstMatchIsLongest` | backend/app/services/agents/router.py:101-109 | under that order the first alternative that matches is the longest that matches |
| `Splitting.Segments` | backend/app/services/agents/router.py:148-162 | exactly the clauses of at least eight characters are kept, in order, each with the connective immediately before it |
| `Splitting.ClausesAreUnique` | backend/app/services/agents/router.py:148-162 | a request has exactly one list of kept clauses |
| `OrderedRequests.KeptClausesStand` | backend/app/services/agents/router.py:148-162 | the kept clauses are the trimmed parts between connectives that have at least eight characters, in order, none left out; said without the functions that trim |
| `Scoring.ScoreSpecialist` | backend/app/services/agents/router.py:312-323 | the total weight and list of matching keywords |
| `Scoring.BestSpecialist` | backend/app/services/agents/router.py:180-204 | picks the first agent in catalogue order among those with the greatest (score, priority), with its score and keywords; none exactly when nobody scores |
| `Scoring.ScoreAgents` | backend/app/services/agents/router.py:331-370 | decides by such a pick; General at confidence 0.3 exactly when nobody scores |
| `Scoring.BestIsUnique` | backend/app/services/agents/router.py:180-204 | that rule has one outcome |
| `Scoring.LoopsAgree` | backend/app/services/agents/router.py:331-370 | the two copies of the loop agree on every input and registry: the same agent with the same score and keywords, and General exactly when there is none |
| `Scoring.ConfidenceFor` | backend/app/services/agents/router.py:326-328 | a confidence in [0, 0.95], and at least 0.72 for any agent that clears the bar |
| `Scoring.ScoreCounts` | backend/app/services/agents/router.py:312-323 | the score is one for each keyword that matches and one more for each of them that is a phrase; those keywords are listed in order, trimmed |
| `Scoring.MatchesIff` | backend/app/services/agents/router.py:296-309 | a phrase matches wherever it occurs, a single word only where it stands alone |
| `Scoring.DecisionIsBest` | backend/app/services/agents/router.py:349-370 | General at 0.3 exactly when nobody is ranked, and otherwise the best-ranked agent on the keywords it matched |
| `Scoring.ConfidenceSteps` | backend/app/services/agents/router.py:326-328 | one keyword gives 0.72, two give 0.84, three or more 0.95 |
| `Planning.Resolve` | backend/app/services/agents/router.py:240-266 | folding clause by clause in place gives one step per block of consecutive clauses |
| `Planning.PlanCompound` | backend/app/services/agents/router.py:207-293 | no plan exactly when fewer than two distinct specialists are named; otherwise two or three steps with differing neighbours, in-order blocks covering every clause from the first named one to the cut, PARALLEL exactly when no later kept block opens with a dependent clause; `OrderedRequests` says when a clause is dependent |
| `Planning.PlanRequest` | backend/app/services/agents/router.py:207-293 | the same from the request and the registry: the clauses are those of the one split, each read by the scorer and the back-reference phrases; `OrderedRequests.PipelineIff` says when it is a PIPELINE |
| `Planning.PlansItsClauses` | backend/app/services/agents/router.py:234-240 | a plan of a request is a plan of exactly its clauses |
| `Planning.ScorerGivesReading` | backend/app/services/agents/router.py:240-242 | what the planner takes a clause to name is what the scoring loop picks for it |
| `Planning.StartsAreBlocks` | backend/app/services/agents/router.py:240-266 | every block opens with a named specialist other than its neighbour's and holds only clauses that name that agent or nobody |
| `Planning.OwnerOf` | backend/app/services/agents/router.py:243-266 | every clause from the first named one on lies in exactly one block |
| `Planning.SpecialistCount` | backend/app/services/agents/router.py:268-269 | fewer than two distinct specialists exactly when fewer than two blocks |
| `Planning.WordingReachesAnAgent` | backend/app/services/agents/router.py:244-255 | the text of every clause from the first named one up to the cut stands in the intent of some kept step |
| `Planning.EveryClauseIsTakenUpIff` | backend/app/services/agents/router.py:243-271 | the steps of a plan take up every clause if and only if the first clause names a specialist and there are at most three blocks |
| `OrderedRequests.PipelineIff` | backend/app/services/agents/router.py:275-282 | main result: a plan is PIPELINE if and only if some later kept block opens with a clause whose connective, the part of the split right before it, reads "and then", "then also", "and after that", "after that" or "then" once trimmed and apart from capitals, or whose text refers back |
| `OrderedRequests.StepsAreMadeOfBlocks` | backend/app/services/agents/router.py:240-266 | step j has the agent its block opens with, the texts of exactly the clauses of that block in order with ". " between them, and exactly the keywords they matched |
| `OrderedRequests.PlanMatchesItsSteps` | backend/app/services/agents/router.py:272-292 | the keywords of a plan are exactly those of its steps |
| `OrderedRequests.TwoTasksPlanned` | backend/app/services/agents/router.py:275-282 | any request of two tasks around one connective, with the registry of two agents: two steps in order, and PIPELINE exactly when the connective says so or the second task refers back |
| `OrderedRequests.AndThenIsAPipeline` | backend/app/services/agents/router.py:113-115 | "find data jobs and then learn python" is a PIPELINE although its second task refers to nothing |
| `OrderedRequests.AndIsParallel` | backend/app/services/agents/router.py:275-282 | "find data jobs and learn python" is PARALLEL |
| `OrderedRequests.BasedOnIsAPipeline` | backend/app/services/agents/router.py:125-177 | "find data jobs and learn based on demand" is a PIPELINE for its wording alone |
| `LeadingClauses.LeadingClauseIsDropped` | backend/app/services/agents/router.py:243-255 | for a family of whole requests, read with a given registry: a plan of two steps is made, no step takes up the first clause, and its wording is in none of them |
| `LeadingClauses.KeepItShortIsDropped` | backend/app/services/agents/router.py:243-255 | every plan made of "keep it short; find jobs; learn python" is in two steps, and neither carries "keep it short" |
| `LeadingClauses.FirstOfThreeIsDropped` | backend/app/services/agents/router.py:243-255 | in any request and registry, if of three clauses only the first names nobody, no step takes it up |
| `LeadingClauses.ThreePieces` | backend/app/services/agents/router.py:148-155 | a request with connectives only at its two semicolons is split exactly there |
| `RoutedTurns.PlannedTurnsMeetNoStepCap` | backend/app/services/agents/orchestrator_service.py:734-821 | from the planner to the execution: a turn on a planned request opens at most three steps and never fails for the step cap; it fails exactly when all branches fail, or in order when a step fails or the cost cap is reached before the last one |
| `RoutedTurns.StepsRunTheirOwnIntent` | backend/app/services/agents/orchestrator_service.py:336-338 | task i of a turn on a planned request goes to the agent of planned step i and asks for that step's own text |
| `Credentials.AuthStore.RefreshSession` | backend/app/services/auth/auth_service.py:186-218 | rotation as the request function says: refused, or the old token revoked and a new one issued |
| `Credentials.AuthStore.RevokeSession` | backend/app/services/auth/auth_service.py:221-229 | sign-out as the request function says |
| `Credentials.AuthStore.RequestPasswordReset` | backend/app/services/auth/reset_service.py:98-144 | earlier unspent reset tokens of the user are spent and one new one is added; nothing for an unknown or Google-only address |
| `Credentials.AuthStore.RedeemReset` | backend/app/services/auth/reset_service.py:156-191 | refused, or the password set, the token spent and every session of the user revoked, and nobody else touched (`OthersUntouched`) |
| `Credentials.TokensAreRedeemedOnce` | backend/app/services/auth/auth_service.py:186-218 | in any run a refresh token and a reset token are each redeemed at most once, and a signed-out token never |
| `Credentials.DeadTokensStayDead` | backend/app/services/auth/reset_service.py:170-171 | a revoked or spent token is refused in every later request |
| `Credentials.WhatAStepKills` | backend/app/services/auth/auth_service.py:199-215 | a redeemed token was alive and unexpired and dies with that request |
| `Credentials.NewTokensWorkUntilExpiry` | backend/app/services/auth/auth_service.py:172-183 | a token handed out is redeemable exactly before its expiry |
| `Credentials.RedeemedWithinLifetime` | backend/app/services/auth/auth_service.py:199-205 | in any run a session or reset token handed out at one request is redeemed at a later one only less than its lifetime after it was handed out |
| `Credentials.RotationPreservesSessions` | backend/app/services/auth/auth_service.py:189-194 | rotation replaces one live token of its user by one new token and leaves everybody else's alone |
| `Credentials.OneOpenResetAlways` | backend/app/services/auth/reset_service.py:123-133 | no user ever has two unspent reset tokens |
| `Credentials.ResetEndsEverything` | backend/app/services/auth/reset_service.py:159-188 | after a reset all earlier sessions and reset tokens of the user are dead and the new password is in force; `SessionsLastUntilEnded` says what it leaves alone |
| `Credentials.NothingOldWorksAfterReset` | backend/app/services/auth/reset_service.py:159-188 | in any run no refresh or reset token that the user had before a reset is accepted after it |
| `Credentials.OnlyTheLatestPasswordSignsIn` | backend/app/services/auth/auth_service.py:108-126 | from sign-up or a reset to the next reset of that user, exactly that password signs in |
| `Credentials.WhoIsLetIn` | backend/app/services/auth/auth_service.py:77-218 | when each request is refused, and whom it signs in or resets otherwise |
| `Credentials.SessionsLastUntilEnded` | backend/app/services/auth/reset_service.py:182-186 | main result: in any run a session stays open, unchanged and redeemable until its expiry, exactly as long as no request refreshes it, signs it out, or resets the password of its own user |
| `Credentials.ResetsLastUntilEnded` | backend/app/services/auth/reset_service.py:123-133 | in any run a reset token stays open, unchanged and redeemable until its expiry, exactly as long as no request redeems it or asks for a new one for its own resettable user |
| `Credentials.OthersUntouched` | backend/app/services/auth/reset_service.py:156-191 | a request leaves the password, sessions and reset tokens of every user it is not about as they were |
| `Credentials.AccountsAreApart` | backend/app/services/auth/reset_service.py:98-191 | so does any run of requests about others |
| `Credentials.SessionRowsChange` | backend/app/services/auth/auth_service.py:172-229 | a session row is kept or revoked at the clock of the request, and a new one is unrevoked and lasts its lifetime |
| `Credentials.ResetRowsChange` | backend/app/services/auth/reset_service.py:98-191 | the same of reset rows |
| `Credentials.UserRowsChange` | backend/app/services/auth/reset_service.py:179-181 | only a reset changes a password and only a Google sign-in links a Google account |
| `QueryCache.EmbeddingService.EmbedQuery` | backend/app/services/embeddings/embedding_service.py:99-125 | new cache content, returned vector and provider call are those of the cache step; `AnswersComeFromTheProvider` says which vector that is |
| `QueryCache.CacheRefinesRecencyList` | backend/app/services/embeddings/embedding_service.py:99-125 | main result: after any history the cache holds exactly the last 512 distinct keys, least recent first, each with the vector its last miss fetched, and the provider is called exactly when the key is not among them |
| `QueryCache.AnswersComeFromTheProvider` | backend/app/services/embeddings/embedding_service.py:111-125 | for every history and query the vector returned is what the provider returns now when it is called, and otherwise what the most recent provider call for that key returned |
| `QueryCache.UseMovesWindow` | backend/app/services/embeddings/embedding_service.py:111-124 | using a key moves the last n of the recency list as the cache moves its order |
| `QueryCache.ServeMovesWindow` | backend/app/services/embeddings/embedding_service.py:111-125 | one query keeps order and map of the cache together |
| `Approvals.ApprovalStore.DecideApproval` | backend/app/services/agents/approval_service.py:112-132 | the decision or refusal; a late decision marks the approval expired |
| `Approvals.ApprovalStore.DispatchApproved` | backend/app/services/agents/action_dispatch.py:97-201 | what is executed and what is audited |
| `Approvals.ApprovalStore.ApproveAndRun` | backend/app/api/v1/actions.py:81-103 | the decision is kept first, then the action runs; the refusal returned is that of the decision |
| `Approvals.ActionsExecuteAtMostOnce` | backend/app/services/agents/action_dispatch.py:97-201 | main result: along every run an action executes at most once, only after approval and before expiry, with the stored tool key and arguments, and with exactly one audit row unless its request is cut short before the commit |
| `Approvals.ExecutionsAreAudited` | backend/app/services/agents/action_dispatch.py:186-201 | executions minus audit rows is exactly the number of requests cut short, by a stop or a database failure, after running the action and before the commit |
| `Approvals.AuditRowCanBeLost` | backend/app/services/agents/action_dispatch.py:186-201 | for every approved tool call and each such event, one run in which it executes and leaves no audit row |
| `Approvals.ActionRunsIff` | backend/app/services/agents/action_dispatch.py:109-186 | exactly when a request changes a status and exactly when it runs an action |
| `Approvals.DecisionsAreFinal` | backend/app/services/agents/approval_service.py:119-129 | a decided approval never changes again, and the stored call never changes at all |
| `Approvals.CreatedIsPending` | backend/app/repositories/action_approval_repository.py:16-40 | a new approval is pending, expires a day later, holds what was asked, and disturbs nothing |
| `Approvals.OthersUntouched` | backend/app/services/agents/approval_service.py:112-132 | a request touches no other approval, and of its own only the decision or, when the run is removed, the run |
| `Approvals.RefusedIff` | backend/app/services/agents/approval_service.py:112-132 | when a decision is refused, and for which reason |
| `Approvals.CallsAreExecutedAndAudited` | backend/app/services/agents/action_dispatch.py:146-201 | a request that comes to a tool call executes exactly the stored call, if the tool is still offered, and adds one audit row with its run, tool, arguments, decision and success, if it gets to the end |
| `Approvals.NothingElseRuns` | backend/app/services/agents/action_dispatch.py:97-145 | no other request executes or audits anything |
| `Approvals.AuditRowsTellTheTruth` | backend/app/services/agents/action_dispatch.py:186-201 | along every run each audit row names an approved action, its stored call and its run, and an allowed one was really executed |
| `Watermarks.ThreadStore.ExtractAndStore` | backend/app/services/conversation/memory_extraction_service.py:199-219 | one extraction pass: the watermark moves to the last message of the delta, or back with a rollback |
| `Watermarks.ThreadStore.MaybeRefreshSummary` | backend/app/services/conversation/summary_service.py:60-136 | one summary pass: a new version covering the delta, or nothing |
| `Watermarks.WindowsTileTheThread` | backend/app/services/conversation/memory_extraction_service.py:199-219 | main result: in every run messages are numbered 1 to n and the committed extraction windows, and the summary windows, tile a prefix of them |
| `Watermarks.EveryMessageIsInOneWindow` | backend/app/repositories/message_repository.py:135-158 | each message up to the watermark lies in exactly one committed window |
| `Watermarks.DeltaIsNextBlock` | backend/app/repositories/message_repository.py:135-158 | the delta is the next block of at most 100 messages right after the watermark |
| `Watermarks.SummaryReachesDelta` | backend/app/services/conversation/summary_service.py:45-57 | a new summary moves the summary watermark to the last message it covers |
| `Watermarks.LatestIsLast` | backend/app/repositories/conversation_summary_repository.py:55-79 | the summary with the greatest version is the one added last |
| `Watermarks.ExtractionMakesProgress` | backend/app/services/conversation/memory_extraction_service.py:215-219 | a rolled-back extraction pass changes nothing, a committed one takes up min(waiting, 100) messages |
| `Watermarks.SummariesMakeProgress` | backend/app/services/conversation/summary_service.py:89-94 | a rolled-back summary pass changes nothing, a committed one takes up min(waiting, 100) messages once six wait and the model returns text |
| `Watermarks.SummaryIsAddedIff` | backend/app/services/conversation/summary_service.py:86-136 | a committed pass adds a summary exactly when the model returned text and six messages wait, or fewer that together weigh 500 tokens; it is the next version and reaches to the end of the block, and otherwise nothing changes |
| `Watermarks.TokenSumAdds` | backend/app/services/conversation/summary_service.py:91 | the weight of a list of messages is the sum of theirs |
| `Watermarks.EachTouchesItsOwn` | backend/app/services/conversation/memory_extraction_service.py:199-219 | an append adds the next number, an extraction pass moves its own watermark, and neither touches anything else |
| `Search.FoldKeyword` | backend/app/services/conversation/conversation_search_service.py:39-51 | each conversation with its best rank over the greatest rank and the first message that has it |
| `Search.FoldSemantic` | backend/app/services/conversation/conversation_search_service.py:54-63 | each conversation with its best clamped similarity |
| `Search.NormalizedRanksAreInUnit` | backend/app/services/conversation/conversation_search_service.py:50-51 | normalized ranks lie in [0, 1] when ranks are not negative |
| `Search.ScoreAll` | backend/app/services/conversation/conversation_search_service.py:98-111 | every found conversation once, with its blended score |
| `Search.KeepLive` | backend/app/services/conversation/conversation_search_service.py:115-134 | the first `limit` live rows of a sorted list |
| `Search.TakeLiveKeeps` | backend/app/services/conversation/conversation_search_service.py:115-134 | those rows are distinct and best first, and a live row left out scores no more than any of them |
| `Search.SortSorts` | backend/app/services/conversation/conversation_search_service.py:113 | sorting gives a non-increasing permutation |
| `Search.Rank` | backend/app/services/conversation/conversation_search_service.py:98-134 | distinct live conversations in non-increasing score, at most `limit`, none left out that scores above a listed one |
| `Search.SearchConversations` | backend/app/services/conversation/conversation_search_service.py:66-134 | main result: each side is used only in its modes, and the ranking has that property; with full-text ranks that are not negative every score lies in [0, 1] |
| `Search.SearchShowsItsHits` | backend/app/services/conversation/conversation_search_service.py:39-134 | from the hits themselves: a listed conversation shows its best rank in units of the greatest one with the first message that has it, its greatest clamped similarity, and a score that is the keyword part, the semantic part, or half of each by mode; a live one that was found is left out only when the list is full of at least equal scores |

## Left out

- Two requests for one refresh token, reset token or approval at the same moment: each request is atomic here, and the code takes no row lock that would make it so.
- Sign-up, sign-in and Google sign-in are branches of the request function and have no imperative method; password hashing and rehashing, profile fields, access tokens and mail are left out, and a Google identity arrives already resolved to an account.
- Tokens are fresh and never repeat and their hashes are injective.
- Expiry of ORM objects after a rollback: after a database failure the later items of a tick are taken to run normally.
- The isolation of the database: a unique-key insert blocks on an uncommitted one and a foreign key blocks deletion; other statements see committed rows.
- Datetime overflow and naive timestamps: instants are integers, counted in microseconds.
- `render`, the text of a reminder: it is an outcome that succeeds with a text or fails with an error.
- `automation_service.create`, `get` and list queries beyond the row they create.
- Synthesis and composition of replies, streaming deltas, the tool loop, the context builder and tracing: outcomes of the oracle or absent. An empty plan is not modelled, because the router never returns one.
- Step input and hop payload fields other than the preview; the findings inside a hand-off, of which only the addressee is kept.
- Dollar costs; the ledgers are the token ledgers.
- Abandoned generators and task cancellation in the middle of a step.
- `route`, the recall pipeline, the model-based classifier and rationale texts.
- Planning.PlanCompound: the rationale and the confidence of a plan are left out, and matched keywords are a set, where the code sorts them.
- Planning.PlanRequest: the same; word boundaries in the back-reference phrases are those of ASCII.
- LeadingClauses.LeadingClauseIsDropped: uses a registry of two agents with one keyword each; `FirstOfThreeIsDropped` takes any reading of the clauses.
- OrderedRequests.TwoTasksPlanned: uses the same registry; `PipelineIff` takes any request and any reading of its clauses.
- RunTraces.RunRecorder.CloseStepSuccess: the finish time and the dollar cost of the step are not modelled.
- RunTraces.RunRecorder.CloseStepFailure: the finish time of the step is not modelled.
- Scoring.ScoreSpecialist: lower-casing and word boundaries cover ASCII only.
- The split at connectives is a function, because the code calls a library for it.
- Case folding and word characters outside ASCII.
- The rest of the text extractors: PDF, DOCX and XLSX parsing, the CSV tokenizer, line splitting and decoding; the documents start as lines or rows here.
- `_approx_tokens` beyond its definition, and `as_metadata`.
- Overlapping calls of the query cache, and `sync_memory_embedding`.
- Watermarks.ThreadStore.ExtractAndStore: models the watermark only; parsing, salvaging and storing memories are absent, and a pass that fails after its first commit counts as committed.
- Concurrent appends to one thread, which the unique constraint turns into errors.
- Search.SearchConversations: scores are real numbers, so rounding is not modelled; the two queries and the re-fetch of live conversations are inputs.
- The remaining backend (endpoints, schemas, migrations, knowledge, tools, memory service, mood, notifications) and the frontend.
