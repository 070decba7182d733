# Verified model of the revix job queue, worker and chunker

revix reviews pull requests with a fleet of workers that share one Postgres database. This project
models the three parts of it whose correctness is not visible in any single function, and proves what
holds of them for every input and every interleaving.

**The fenced job queue** (`app/services/db/queue.py`). `QueueTables` gives each repository transaction as
a function on the three tables (`jobs`, `worker_heartbeats`, `review_records`); `JobQueueRepository` has
the object whose methods update those tables in place, each tied to its transaction; `QueueProtocol` lets
any number of clients run the transactions in any order, with stalls, crashes, skipped locked rows, lost
heartbeat rows, a clock, and `update_heartbeat` split into its read and its write. A claim does not bump
the fence and `finalize_job` looks at no status, so safety rests on one invariant over all transactions:
the fence equals the attempt counter while nobody holds the job and is one behind otherwise. `QueueEffects`
says what each transaction does to each row, column by column. `QueueRuns` and `QueueTimed` draw the
consequences for whole runs; `ClaimContest` treats claims that overlap.

**The worker** (`app/worker.py`). `WorkerTasks` is `process_job` as a client of the queue, one task per
claim, able to stop between any two steps; its runs are shown to be queue runs, so every queue theorem
applies to it. `WorkerLoop` is the main loop with its semaphore. `InlineComments`, over the generic
`Ranking`, is the selection of inline comments.

**Diff-scoped chunking** (`app/services/ai.py`). `ChangedLines` is the line tracker, with a model of unified
diffs as text and of applying them (POSIX.1-2008 `diff`, "Diff -u or -U Output Format"); `TextLines` is
`str.splitlines`, with which the tracker cuts that text. `Packing` is the
order-preserving packer and its optimality. `Chunker` is diff-scoped chunking of a syntax tree, `WholeFile`
the unscoped chunking and the entry point that chooses between the two.

## How to read the model

- Instants and delays are whole seconds on one clock. `NOW()` is fixed within a transaction, so a
  heartbeat is written with the instant of its own SELECT and may move a row's age backwards.
- A transaction is one atomic step, except `update_heartbeat`. Rows locked by others are a parameter where
  the SQL says SKIP LOCKED. The last statement of a reconcile does not skip locked rows: it waits for
  their holders, which is the order in which the holder's transaction comes first.
- A rolled-back transaction leaves no trace, so a crash inside one is no step. A crashed or stalled worker
  is one that takes no further steps.
- A run starts from tables with any number of untouched rows (pending, never claimed, created in the past),
  with any priority and any `max_attempts`. Rows enqueued by the model have the defaults of the schema, 0 and 3.
- Tokens given to `finalize_job` and `release_job` are ones that an earlier claim of that job returned.
  `FinalizeJob` itself accepts any token.
- Row ids are numbers that are only compared; a new row gets an unused one.

## Where the code falls short of the obvious claim

Each of these is stated with its exact condition (for the number of reviews: a bound and its tightness),
and, but for the item on the last attempt, reached by a concrete run or input in `QueueShortfalls`,
`WorkerShortfalls`, `InputShortfalls` or `WorkerLoop`.

- The same token may finalize twice and turn SUCCESS into FAILURE (`SecondFinalizeOverwrites`;
  `SuccessBecomesFailure` has a worker do it). What holds is one committing token, not one commit.
- A release with a stale token strips the live owner's heartbeat for as long as its claim lasts, and the next
  reconcile that does not skip the row takes the job (`StaleReleaseOrphans`, `StaleReleaseTakesLiveJob`,
  `FreshClaimIsTaken`). A beating claim is safe only without such releases.
- A row that reconcile reports as recovered may be dead at the end of the same transaction
  (`RecoveredRowMayBeDead`, `RecoveredAndDead`).
- `enqueue_if_new` answers True for a commit that already has a row, dead ones included (`EnqueueAnswers`,
  `RecoveredAndDead`).
- `set_check_run_id` is unfenced: it is the one column of a dead row that can change (`DeadStaysDead`,
  `RecoveredAndDead`).
- A job may be reviewed more than once, up to its number of claims (`PostsBounded`, `PostedTwice`), and as
  often as its `max_attempts` (`PostedUpTo`).
- `release_job` does not look at the attempts: a job released on its last one waits for nothing but its
  expiry (`LastReleaseExhausts`, `ExhaustedForGood`). And a released job whose commit is over an hour old dies
  at the next reconcile, its delay notwithstanding (`ReleasedRowMayDie`).
- When a worker re-claims its own lost job, the end of the older task drops the entry of both, and a shutdown
  does not release the newer one (`Shutdown` says exactly which jobs it releases, `ReclaimedJobIsForgotten`).
- `parse_changed_lines` misplaces a hunk with an empty new range, and every change after a raw line that is
  truly empty; and it records line 0 for the two lines that name the files, where a patch has them
  (`ChangedLinesExact`, `EmptyRangeMisplaced`, `EmptyRawLineMisplaces`). Its docstring promises the line that
  a deletion sits against. Line 0 alone changes no chunk (`ZeroIsHarmless`).
- `str.splitlines` also cuts at form feeds, lone carriage returns and a few more characters. A patch line is
  read as it should be as long as the tracker ignores what follows such a cut, which is what the theorems on
  diffs ask of their texts (`QuietPatch`; it holds of texts without such characters and of CR LF files);
  `InnerBreakMisplaces` is a family of patches that fails it and is misread.
- Scoping drops changed lines: those of an oversized node that only gets a note, and those of an oversized
  class outside its header and its boundary members, once one member is touched (`ChangedLineInView`,
  `FunctionDropped`, `FieldDropped`).
- Whole-file chunking adds non-boundary nodes without looking at the budget, and the members of an oversized
  class too (`WholeFileBudget` says exactly when a chunk exceeds it; `LongStatementOverBudget` and
  `LongMethodOverBudget` show the two ways). A chunk is counted as the code counts it, by the floored estimates
  of its nodes without the file line; `OutTextBounded` says what that leaves for its text.
- A node is touched by row numbers, end point included, so one that ends at the start of a row is touched by
  a change in that row though it has no text there (`NewlineTouched`).
- A cap of zero still selects one inline comment (`SelectionDominates`, `CapOfZeroKeepsOne`).

The documentation differs from the code in three places, and the code is followed: `docs/ARCHITECTURE.md`
speaks of exponential back-off where the code's is linear in the attempts, of recovery within 90 seconds
where the bound is the stale threshold plus the reconcile interval, and of fencing as what prevents a
duplicate review where the review is posted before the fence is checked.

## Model

| member | source | states |
|---|---|---|
| JobQueueRepository.JobQueue.constructor | migrations/versions/0001_initial_schema.py:24-117 | the three tables start empty and in order |
| JobQueueRepository.JobQueue.EnqueueIfNew | app/services/db/queue.py:21-62 | answers False exactly when the commit has a record; otherwise inserts, exactly for a commit without a row, one pending row with the given columns and the schema's defaults; touches nothing else and leaves the tables in order |
| JobQueueRepository.JobQueue.ClaimJob | app/services/db/queue.py:64-97 | returns nothing only if no unlocked row waits; otherwise takes a first one by priority and age, changes its status, worker, start and attempts alone, writes the heartbeat, and returns the row with a token equal to the number of claims before |
| JobQueueRepository.JobQueue.SelectFirst | app/services/db/queue.py:72-80 | finds a waiting unlocked row that none exceeds in priority, nor precedes at the same priority, or none only if there is none |
| JobQueueRepository.ClaimReturns | app/services/db/queue.py:66-97 | a claim keeps the tables in order and returns as its token the number of claims before it |
| JobQueueRepository.FirstExists | app/services/db/queue.py:72-80 | the claim's sub-select has an answer whenever some row is claimable |
| JobQueueRepository.JobQueue.CheckHeld | app/services/db/queue.py:99-110 | goes on exactly for the worker that is processing the job |
| JobQueueRepository.JobQueue.WriteHeartbeat | app/services/db/queue.py:112-120 | refreshes the row only if it still names the worker, and never inserts one |
| JobQueueRepository.JobQueue.SetCheckRunId | app/services/db/queue.py:122-131 | changes the check-run column alone, whoever asks |
| JobQueueRepository.JobQueue.FinalizeJob | app/services/db/queue.py:152-204 | commits exactly when the fence matches and otherwise changes nothing; then status, completion and result of the row are set, the record holds the feedback (`{}` for none) in its one new or updated row, and the heartbeat goes; with a handed-out token the tables stay in order |
| JobQueueRepository.JobQueue.ReleaseJob | app/services/db/queue.py:206-224 | requeues only a processing row under this token, in four columns, but always deletes the heartbeat |
| JobQueueRepository.JobQueue.RequeueStaleRows | app/services/db/queue.py:232-266 | takes and returns exactly the unlocked processing rows with no fresh heartbeat; such a row differs in status, fence, worker and, with an attempt left, schedule, and in no other column; the others are left alone |
| QueueProtocol.PruneRestoresOwnership | app/services/db/queue.py:244-284 | the heartbeats deleted are exactly those of the rows just taken, and afterwards every heartbeat names the holder of a processing job again |
| QueueProtocol.ExpiryKeepsAccounts | app/services/db/queue.py:286-292 | leaves no row pending for over an hour and touches no other; although it bumps no fence, no token handed out fits a row it kills |
| JobQueueRepository.JobQueue.ReconcileStaleJobs | app/services/db/queue.py:226-294 | the three statements together, row by row and column by column: which rows are taken, expired or untouched, what is returned for them, and which heartbeats remain |
| QueueEffects.RowEffect | app/services/db/queue.py:64-294 | every step changes a row in the columns named for it and in no other |
| QueueEffects.NewRowEffect | app/services/db/queue.py:36-62 | a row comes only from an enqueue of a commit without record or row, with the given columns and the defaults |
| QueueEffects.ClaimEffect | app/services/db/queue.py:66-97 | a claim takes a waiting row, best by priority and age among those not locked, and hands out its fence |
| QueueEffects.HeartbeatEffect | app/services/db/queue.py:87-120 | what every step does to a heartbeat row |
| QueueEffects.RecordEffect | app/services/db/queue.py:183-204 | only a successful finalize_job touches a record, its job's, and writes the feedback alone into an existing one |
| QueueProtocol.StepInv | app/services/db/queue.py:21-294 | every transaction keeps the fence accounting, unique commits, owned heartbeats, mirrored records and the tickets handed out |
| QueueProtocol.InvAlways | app/services/db/queue.py:21-294 | so does every run, in every state: pending and dead rows have fence = attempts, processing and finalized ones fence = attempts - 1 |
| QueueProtocol.MatchingTokenIsNewest | app/services/db/queue.py:163-181 | a handed-out token that matches the fence is the newest, and the row is processing or finalized, although no status is checked |
| QueueRuns.StepRow | app/services/db/queue.py:64-294 | the only transitions a row can make in one step |
| QueueRuns.DeadStaysDead | app/services/db/queue.py:163-181 | a dead row never changes again except in its check-run column, even when the one-hour timeout killed it without bumping the fence |
| QueueRuns.FinalizedStaysFinalized | app/services/db/queue.py:152-224 | SUCCESS and FAILURE never go back to pending, processing or dead, and keep fence and attempts |
| QueueRuns.TokensCountClaims | app/services/db/queue.py:66-81 | the k-th claim of a job gets token k - 1, so no two share one, and there are at most max_attempts of them |
| QueueRuns.TicketHasClaim | app/services/db/queue.py:64-97 | every token in circulation was returned by an earlier claim |
| QueueRuns.OneCommittingToken | app/services/db/queue.py:163-181 | all successful finalizations of a job, over any run, carry the same token |
| QueueRuns.CommitCarriesLastToken | app/services/db/queue.py:163-181 | that token is the last one ever handed out for the job |
| QueueRuns.NoClaimAfterCommit | app/services/db/queue.py:64-97 | no claim of a job follows a successful finalization |
| QueueRuns.SecondFinalizeOverwrites | app/services/db/queue.py:163-181 | in any run, a step changes the status of a finalized job if and only if it is a further commit with another verdict than the last, under that commit's own token |
| QueueRuns.StepSpends | app/services/db/queue.py:226-294 | a measure that every status change of an unfinished row decreases |
| QueueRuns.FewStatusChanges | app/services/db/queue.py:64-294 | at most 2 * max_attempts + 1 status changes up to and including the first terminal one |
| QueueRuns.RequeuedJobWaits | app/services/db/queue.py:213-242 | a job taken back is not claimed again before its release delay or its back-off has passed |
| QueueRuns.ExhaustedForGood | app/services/db/queue.py:66-81 | a pending job with no attempt left is never claimed again and can only become dead |
| QueueRuns.LastReleaseExhausts | app/services/db/queue.py:213-242 | that is where a release leaves a job on its last attempt, exactly where a reconcile would have made it dead |
| QueueRuns.ResultIsLastCommit | app/services/db/queue.py:163-176 | a job is finalized exactly if somebody committed it, and shows the verdict and the feedback of the last commit, no result for none or an empty one |
| QueueRuns.RecordsAreLastCommits | app/services/db/queue.py:183-204 | exactly one record per finalized job and none else, with the job's number and repository and the very feedback of the last commit, `{}` for none |
| QueueRuns.EnqueueAnswers | app/services/db/queue.py:36-62 | False exactly for finalized commits, a row added exactly for new ones, never two rows for a commit, and the record check never changes the tables |
| QueueRuns.EnqueueAdds | app/services/db/queue.py:36-62 | on tables in order, looking at the records first changes nothing of what the insert does: the tables change exactly if the commit has no row yet, and commits stay unique |
| QueueTimed.ReconcileSettles | app/services/db/queue.py:226-294 | after a reconcile every row not found locked is terminal, or processing with a fresh heartbeat, or pending and at most an hour old; no row at all, locked or not, is pending for longer |
| QueueTimed.RecoveredRowMayBeDead | app/services/db/queue.py:286-294 | a row returned as pending is dead at the end if and only if it was created over an hour ago |
| QueueTimed.LostJobsAreDetected | app/services/db/queue.py:244-256 | with reconciles that do not skip its row at most R apart, a job still processing had a heartbeat under the same claim at most stale + R seconds ago |
| QueueTimed.WaitingEnds | app/services/db/queue.py:286-292 | with reconciles at most R apart, whatever rows they find locked, no job is pending for more than an hour and R seconds on end |
| QueueTimed.ReleasedRowMayDie | app/services/db/queue.py:213-292 | a released job is dead after a reconcile before its delay is over exactly if it was created over an hour before, and pending otherwise |
| QueueTimed.StaleReleaseOrphans | app/services/db/queue.py:213-224 | a release orphans a processing row, for the next reconcile to take, if and only if its token is stale |
| QueueTimed.SupersededHolder | app/services/db/queue.py:64-97 | a processing job has a superseded holder if and only if it was claimed at least twice |
| QueueTimed.StaleReleaseTakesLiveJob | app/services/db/queue.py:104-120 | after a stale release the owner's claim has no heartbeat for as long as it lasts, whatever it beats, and any reconcile that does not skip the row takes it |
| QueueTimed.OrphanedForGood | app/services/db/queue.py:112-120 | a claim that has lost its heartbeat row never gets it back |
| QueueTimed.BeatingClaimIsKept | app/services/db/queue.py:87-120 | without stale releases and lost rows, a claim whose heartbeats keep within the threshold is never taken by a reconcile |
| QueueTimed.HeartbeatNamesClaimer | app/services/db/queue.py:87-120 | every heartbeat row belongs to a processing job and names the worker of its current claim |
| ClaimContest.ContestSettles | app/services/db/queue.py:66-97 | overlapping claims, each with its own NOW(), take distinct rows; nobody left a better row that was eligible at its instant, whoever got none left none, and all other rows are as they were |
| ClaimContest.BestRowsTaken | app/services/db/queue.py:66-97 | if no row falls due between their instants, k claims over m eligible rows take exactly the best min(k, m) by priority and then age |
| ClaimContest.MoveIsClaim | app/services/db/queue.py:66-97 | every commit and miss of a contest is one claim of the queue that finds the other claimers' rows locked |
| ClaimContest.ContestIsPath | app/services/db/queue.py:66-97 | a contest at one instant is a stretch of a queue run, one claim for each commit and each miss |
| ClaimContest.ContestInvAlways | app/services/db/queue.py:72-80 | what holds at every moment of such a contest, however statements and commits interleave and whatever the instants |
| WorkerTasks.ActionIsTransaction | app/worker.py:305-452 | every queue call of a task uses the ticket of its own claim, and is a legal step of the queue |
| WorkerTasks.ActionEffect | app/worker.py:305-452 | what each action of a task leaves in the tables under its ticket: verdict and feedback of a finalize, delay of a release |
| WorkerTasks.TaskEffect | app/worker.py:305-452 | how each action moves its own task through the phases, and no other, and that only a post is logged |
| WorkerTasks.WorldRunIsQueueRun | app/worker.py:305-452 | runs of workers are runs of the queue |
| WorkerTasks.WorldStepInv | app/worker.py:305-452 | tasks and tickets stay one-to-one, each task posts at most once, and whoever committed SUCCESS had posted |
| WorkerTasks.PostsBounded | app/worker.py:388-410 | post_review calls never outnumber claims or max_attempts, and a job in SUCCESS has at least one, by the committing claim |
| WorkerTasks.PostPrecedesCommit | app/worker.py:388-410 | the call is logged before its claim commits SUCCESS |
| WorkerTasks.OneCommittingClaim | app/worker.py:410-447 | only one task ever finalizes a given job, whichever tasks try |
| WorkerLoop.ReviewWorker.constructor | app/worker.py:31-37 | a new worker has all its permits and nothing active |
| WorkerLoop.ReviewWorker.Handle | app/worker.py:112-121 | a finished task, however it ends, drops its entry and returns its permit |
| WorkerLoop.ReviewWorker.Spawn | app/worker.py:62-70 | a claim records the latest token of its job and starts one task |
| WorkerLoop.ReviewWorker.RunForever | app/worker.py:53-80 | the loop's states are the turns' results one after the other; at every head of the running loop, free permits plus unfinished job tasks equal the concurrency and active entries do not outnumber tasks; at most one permit is lost, and only after a stop |
| WorkerLoop.RunStarts | app/worker.py:61-70 | in such a run every turn that gets a job starts exactly one task of it and records its fence, every other turn none, and the tasks started are as many as the jobs got |
| WorkerLoop.TaskGoesOn | app/worker.py:53-78 | no turn loses a task that does not finish in it |
| WorkerLoop.ReviewWorker.ClaimAndSpawn | app/worker.py:61-78 | after the claim a task is started, or the permit returned, or kept if the claim raised after a stop |
| WorkerLoop.ReviewWorker.Shutdown | app/worker.py:82-102 | waits for what finishes if anything is active, and releases exactly the entries left: the job of an unfinished task is among them if and only if no task of it has finished since its last claim |
| WorkerLoop.ReclaimedJobIsForgotten | app/worker.py:53-121 | a worker that re-claims its lost job and finishes the older task shuts down without releasing the newer |
| WorkerLoop.ActiveBounded | app/worker.py:62-70 | two tasks may share an entry when a worker re-claims its own lost job, never the reverse |
| InlineComments.SelectInlineComments | app/worker.py:169-195 | the loop computes the greedy selection over the sorted candidates |
| InlineComments.SelectionDominates | app/worker.py:169-195 | selected comments in a file are over five lines apart; every candidate left out is near a selected one ranked at least as high, or the cap is filled by such; a cap of zero or more is exceeded exactly if it is zero and there is a candidate |
| InlineComments.SelectionInFields | app/worker.py:169-195 | the same in the fields: lines of one file six or more apart; whoever is left out has a selected one within five lines that is more severe, or as severe with a fix where it has none, or equal in both and no longer, or the cap is filled by such; and they come in that order |
| InlineComments.CriticalsComeFirst | app/worker.py:174-193 | a CRITICAL without a selected neighbour is dropped only for CRITICALs that fill the cap |
| Ranking.SortDescends | app/worker.py:175-182 | sorting by the key in reverse is descending |
| Ranking.SortStable | app/worker.py:175-182 | and keeps the order of comments whose keys tie |
| Ranking.PickJustified | app/worker.py:185-193 | a greedy scan of a descending list leaves nothing out without a better-ranked reason |
| Ranking.PickDescends | app/worker.py:184-193 | what is picked keeps the order of the list |
| InlineComments.TiesInInputOrder | app/worker.py:172-182 | considered comments that rank alike come up in the order in which the review lists them |
| ChangedLines.ParseChangedLines | app/services/ai.py:49-74 | the loop over the split text computes the tracker's result on any text |
| ChangedLines.HeaderRoundTrip | app/services/ai.py:41-62 | the header pattern reads back the new-file start of any hunk header written to the format |
| ChangedLines.HunkStartExact | app/services/ai.py:41 | a line is a hunk header if and only if it has the parts of one, and its start is the number in the new range |
| ChangedLines.KindOfEdit | app/services/ai.py:63-73 | no edit line is mistaken for a header, whatever its text |
| TextLines.SplitText | app/services/ai.py:58 | splitting a text reads back its lines, if none contains a break |
| TextLines.SplitAfterLine | app/services/ai.py:58 | a text is split line by line, CR LF included, whatever breaks the lines contain |
| TextLines.OrdinaryText | app/services/ai.py:58 | printable text and tabs are never cut, nor is other text but at the breaks of Unicode |
| TextLines.CrLfLine | app/services/ai.py:58 | a CR LF end is one break |
| ChangedLines.ScanText | app/services/ai.py:58-74 | the tracker reads a text as its lines' marks, with or without a final newline, if what follows an inner break is ignored |
| ChangedLines.ApplyLocatesTouches | app/services/ai.py:49-55 | applying a diff puts every added text at its touched line, and every removal right before its own |
| ChangedLines.SomeMissed | app/services/ai.py:58-73 | a misplaced hunk always leaves some touched line of the new file unrecorded, whatever the other hunks record |
| ChangedLines.ChangedLinesExact | app/services/ai.py:49-74 | on the text of a well-formed diff the result is exactly the touched lines of the new file, if and only if there is no file header and no hunk has an empty new range or a change after an empty raw line; a file header adds line 0 and nothing else |
| Decimal.ParsePrint | app/services/ai.py:62 | reading a printed number gives it back |
| Packing.PackKeepsItems | app/services/ai.py:515-532 | the chunks hold every piece and note once, in order |
| Packing.PackAllowed | app/services/ai.py:526-532 | every chunk is a note, a single piece, or within budget |
| Packing.PackOptimal | app/services/ai.py:511-575 | no order-preserving packing under those rules has fewer chunks |
| Packing.RunsAreIndependent | app/services/ai.py:565-571 | each run of pieces between SKIP notes is packed as if alone, hence optimally too |
| Packing.GroupTextBounded | app/services/ai.py:519-532 | a group of n pieces within budget has at most header + 4 * max + 5n - 2 characters, although estimates are floored |
| Packing.PackReads | app/services/ai.py:519-522 | the text of a packed chunk is the file line and every piece in order, each at the offset of the lengths before it plus two a gap, and nothing more |
| Chunker.Packer.Flush | app/services/ai.py:519-524 | writes the pending pieces out as one chunk, if there are any; Packing.TextReads says what that text holds |
| Chunker.Packer.Add | app/services/ai.py:526-532 | one more piece under the packing rule, with the running token count kept exact |
| Chunker.ChunkChangedNodes | app/services/ai.py:483-576 | the loops compute the packing of the touched nodes' pieces, or nothing for a tree with errors, and each text holds its pieces in order and in full |
| Chunker.ScopedChunksExact | app/services/ai.py:534-573 | the scoped chunks read in order are exactly the pieces of the touched nodes in source order, and untouched nodes add nothing |
| Chunker.ScopedChunksWithinBudget | app/services/ai.py:515-573 | a packed chunk is within budget, which bounds its text, or is one touched member of an oversized class under its header |
| Chunker.ScopedEmpty | app/services/ai.py:497-509 | scoping comes back empty exactly for a tree with errors or a diff none of whose lines lies in the rows of a top-level node |
| Chunker.ChangedLineInView | app/services/ai.py:534-573 | the scoped chunks hold text of a changed line if and only if a touched node within budget has text in it, or it lies in the header of an oversized class that is descended into, or a boundary member of that class has text in it |
| Chunker.ZeroIsHarmless | app/services/ai.py:506-509 | line 0, which a file header adds, changes no chunk |
| WholeFile.ChunkWholeFile | app/services/ai.py:430-481 | the loop computes the whole-file split, and each text is the file line and its nodes in order and in full, a member, or a note with the node's kind and estimate |
| WholeFile.WholeFileKeepsNodes | app/services/ai.py:430-481 | the packed chunks hold all but the oversized boundary nodes in source order, none is a bare header, and boundary nodes join only within budget |
| WholeFile.WholeFileBudget | app/services/ai.py:442-476 | some chunk exceeds the budget if and only if a non-boundary node came up when the current chunk had no room for it, or an oversized class has a boundary member that is itself over the budget |
| WholeFile.OutTextBounded | app/services/ai.py:442-479 | a chunk of n nodes within budget has at most header + 4 * max + 4n - 1 characters, a member on its own at most header + 4 * max + 3 |
| WholeFile.Extension | app/services/ai.py:411 | what follows the last dot of the path, with the dot, and nothing for a path without one |
| WholeFile.ChunkByAst | app/services/ai.py:404-481 | scoped chunks where a line of the diff lies in the rows of a parsed file's node, the whole file otherwise, each text in full; no chunk at all exactly for a supported file without top-level nodes |
| QueueShortfalls.FreshClaimIsTaken | app/services/db/queue.py:213-256 | a run in which a job is taken from its owner in the very second of its claim |
| QueueShortfalls.RecoveredAndDead | app/services/db/queue.py:232-292 | a run in which a row is reported pending and dead at once, then changed, and its commit enqueued to no effect |
| WorkerShortfalls.SuccessBecomesFailure | app/worker.py:410-445 | a worker's run that turns a committed SUCCESS into FAILURE |
| WorkerShortfalls.PostedTwice | app/worker.py:388-410 | a run that posts two reviews of one job |
| WorkerShortfalls.PostedUpTo | app/worker.py:82-102 | for every allowance and every number up to it, a run whose restarts between post and commit make one job posted that often |
| InputShortfalls.EmptyRangeMisplaced | app/services/ai.py:60-71 | a one-line deletion recorded at line 0 instead of 1 |
| InputShortfalls.EmptyRawLineMisplaces | app/services/ai.py:63-64 | a deletion after an empty raw line, recorded one line too early |
| InputShortfalls.InnerBreakMisplaces | app/services/ai.py:58 | an addition after a form feed, recorded one line too late |
| InputShortfalls.FaultsCancelOut | app/services/ai.py:58-64 | the same with an empty raw line after the form feed: the addition is recorded where it belongs |
| InputShortfalls.FieldDropped | app/services/ai.py:553-563 | a changed field of an oversized class that no chunk shows |
| InputShortfalls.FunctionDropped | app/services/ai.py:565-571 | a changed line of an oversized function that no chunk shows |
| InputShortfalls.LongStatementOverBudget | app/services/ai.py:474-476 | for every budget, a file whose one chunk exceeds it |
| InputShortfalls.LongMethodOverBudget | app/services/ai.py:444-456 | for every budget, an oversized class whose one method is a chunk over it |
| InputShortfalls.NewlineTouched | app/services/ai.py:506-509 | a node shown for a changed line in which it has no text |
| InputShortfalls.CapOfZeroKeepsOne | app/worker.py:184-193 | a comment selected under a cap of zero |

## Left out

- HTTP, webhooks, signatures, GitHub calls and tokens: `post_review` is a logged call that may raise.
- LLM calls, routing, agents, the sandbox and the reduce step: an unseen service decides them.
- Tree-sitter: the syntax tree is an input, with node texts, and the class header already right-stripped.
- `\d` outside ASCII: the header pattern takes ASCII digits, the only ones that diffs write.
- ChangedLinesExact: asks that the tracker ignore what follows a line break inside a text (`QuietPatch`); with
  other texts two faults may cancel out (`FaultsCancelOut`), so no condition on single hunks is exact.
- SQL, connection pools and asyncio scheduling beyond atomic steps, row locks and await points.
- The advisory lock of `enqueue_if_new` and its MD5 key: subsumed by the atomic step.
- Statuses other than SUCCESS and FAILURE in `finalize_job`: no caller passes any.
- `get_check_run_id`, trace contexts, the model-name and chunk-count columns: never read back by the queue.
- 32-bit width of the counters: fences and attempts never exceed `max_attempts`, itself a column of that width.
- The retry delay read from response headers: any non-negative number.
- Recovery of expired check runs in `reconciliation_loop`: external calls only.
- Agent-id capping, file scoring and the chunk-count cut: true but easy.
