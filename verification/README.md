# GitGym, modelled and verified in Dafny

GitGym gives a student a practice session: a workspace with a Git repository, a terminal into
it, and a browser page that shows the terminal and a history of the commands run in it. This
project models the parts of GitGym where behaviour spans calls, threads or streams, and proves
what they keep over every run.

**Practice sessions and cleanup jobs** (`PracticeStore`, `PracticeCalls`, `PracticeRuns`,
`PracticeJobs`, `PracticeStarvation`, `PracticeDrain`, `PracticeGuarantees`,
`PracticeInterleaving`, `PracticeFinality`, `PracticeClocks`, `PracticeInertness`,
`PracticeIndex`, `PracticeLease`, `PracticeAlone`, `PracticeCounterexamples`, `Ordering`).
`PracticeStore.Store` and its functions are the tables and what the queries do to them; the
class `InMemoryPracticeSessionStore` is the in-memory store, proved against them.
`PracticeCalls` has one function for each call of the service, and the class `PracticeService`
is proved against those. A call takes what the outside world does as a parameter: the clock
readings, whether the runner deletes a workspace, and which writes to the store are lost.
`PracticeRuns` runs any calls in any order, each call atomic and the clock not going back; the
modules after it prove the orphans' grace, the backoff, that no job starves, that the missing
jobs are made up for, that ended sessions are final, and that the index of current sessions is
right. `PracticeInterleaving` cuts the calls into single store and runner calls of any number
of threads that hold old copies of rows, and proves what is left without atomic calls;
`PracticeLease` is about claims while deletes are under way, `PracticeFinality` and
`PracticeClocks` about ended sessions that change, `PracticeInertness` about jobs that are done
with and come back, `PracticeIndex` about the current sessions; `PracticeAlone` ties the steps
back to the atomic calls.

**The terminal of a workspace** (`TerminalSlots`, `TerminalSubscribers`, `InputChunks`).
Acquiring and releasing the terminal as the critical sections of one class, run by any number
of concurrent calls; the subscribers of a session's output; the splitting of input into lines.

**Delayed deletion of workspaces** (`CleanupTimers`). Requests that replace and cancel each
other while timers fire, as the critical sections of one class and the goroutines around them.

**The command history** (`Text`, `Base64`, `MarkerLines`, `CompletionTracker`,
`CommandHistory`, `CommandPipeline`, `CommandCounterexamples`). From bytes of terminal output,
through the filter that takes the marker lines out, to the frames sent and the history and
transcript that the browser makes of them.

**The command line parser** (`CommandParser`, `CommandWords`). The scanner, and a grammar of words
made of plain and quoted pieces that it is proved to accept.

Where the source updates fields in place the model is a class whose methods are proved against
functions; the lemmas are about those functions and about runs. Where the source runs
goroutines the model is a set of steps (`Enabled`, `Apply`), any of which may come next.

Some properties that one might expect do not hold, and the project says exactly when they do:

- The tracker's result depends on how its input is cut into chunks. `CutIsInvisible` says which
  single cuts show; `ManyCutsAreInvisible` covers any number of cuts in lines that are kept and
  inside the marker. A cut in a marker line shows exactly if it comes behind the marker
  (`MarkerLineCutShowsIff`).
- The history differs from the list of completions for a command that starts or ends with a
  byte order mark, which the browser trims and Go does not (`HistoryIsTheCompletionList`,
  `MarkedCommandIsShownDifferently`).
- The index of current sessions names the last session created. That is the newest exactly if
  none of the user's sessions started later, which crossing creations can break
  (`IndexNamesTheLastCreated`, `CreationsCanCross`).
- With atomic calls a job is stranded, never to be claimed or listed again, exactly if its fifth
  attempt loses the mark of its result, whether the workspace was deleted or not
  (`FifthAttemptIsStrandedIff`, `StrandedIff`), and stranded and succeeded jobs never change
  again (`InertForever`). With calls interleaved they can change exactly as long as some thread
  is on its way to write them (`JobCanChangeIff`), and without any lost write a succeeded job
  comes back and a listed one is stranded (`SucceededJobComesBack`, `ListedJobIsStranded`).
- Expired and orphaned are final with atomic calls (`EndedSessionsAreFinal`). With calls
  interleaved an ended session can change exactly as long as some thread holds an active copy
  of it (`EndedSessionCanChangeIff`, `OrphanedBecomesExpired`). Whether its status can change
  depends on the clock as well: with one that does not go back, a copy that has not been checked
  can be orphaned only before it expires (`EndedStatusCanChangeInTimeIff`,
  `ExpiredCanTurnOrphanedIff`).
- An orphaned session's job waits ten minutes with atomic calls (`OrphansHaveTheirGrace`), and
  can be claimed at once with calls interleaved (`OrphansCanLoseTheirGrace`).
- The check for an exit command already reported at the end of a stream never finds one: the
  buffer that reaches the flush holds no complete line (`ExitCommandIsAlwaysReported`).

## Model

| member | source | states |
|---|---|---|
| PracticeStore.InMemoryPracticeSessionStore.constructor | services/api/internal/service/practice_service.go:693-702 | an empty store with both counters at 1 |
| PracticeStore.InMemoryPracticeSessionStore.CreatePracticeSession | services/api/internal/service/practice_service.go:704-713 | the session is stored under the next identifier and becomes its user's current one; nothing else changes |
| PracticeStore.InMemoryPracticeSessionStore.CurrentPracticeSession | services/api/internal/service/practice_service.go:715-729 | the session that the index names, or not found |
| PracticeStore.InMemoryPracticeSessionStore.PracticeSessionById | services/api/internal/service/practice_service.go:731-740 | the stored session, or not found |
| PracticeStore.InMemoryPracticeSessionStore.UpdatePracticeSession | services/api/internal/service/practice_service.go:742-756 | the session is replaced, and becomes current if the user has none, has this one, or the session is active; an unknown session changes nothing |
| PracticeStore.InMemoryPracticeSessionStore.ExpirePracticeSessions | services/api/internal/service/practice_service.go:758-778 | exactly the active sessions whose time is up become expired, keep an end time they have, and are returned once each, in some order |
| PracticeStore.InMemoryPracticeSessionStore.UpsertWorkspaceCleanupJob | services/api/internal/service/practice_service.go:780-805 | a session's job is overwritten but keeps its identifier and attempts; a session without one gets a new job |
| PracticeStore.Store.UpsertWritesOneRow | services/api/internal/store/mysql.go:129-139 | an upsert writes one row and its index entry, leaves all others alone, and keeps jobs and index inverse to each other |
| PracticeStore.InMemoryPracticeSessionStore.CollectDue | services/api/internal/service/practice_service.go:815-837 | collects the keys of exactly the due jobs, each once, in whatever order the map is ranged over |
| PracticeStore.InMemoryPracticeSessionStore.SelectDue | services/api/internal/service/practice_service.go:839-847 | sorting and cutting off gives the first `limit` due jobs by (scheduled_at, id), as ORDER BY and LIMIT do |
| PracticeStore.InMemoryPracticeSessionStore.ClaimDueWorkspaceCleanupJobs | services/api/internal/service/practice_service.go:807-861 | returns, in order, the first `limit` due jobs as they are after the claim: running, one attempt more, error cleared; all other jobs are unchanged |
| Ordering.SortedPrefixIsFirst | services/api/internal/service/practice_service.go:839-847 | a sorted prefix is what ORDER BY and LIMIT select |
| Ordering.FirstOfIsFirst | services/api/internal/store/mysql.go:141-160 | ORDER BY and LIMIT: ascending, as many as asked for if there are, nothing left out comes before them |
| Ordering.FirstOfIsUnique | services/api/internal/store/mysql.go:141-160 | nothing else has these properties |
| PracticeCalls.ClaimTakesTheFirstDue | services/api/internal/store/mysql.go:141-160 | only due jobs are claimed, and a due job is passed over only for `limit` others that come before it |
| PracticeCalls.RowsAreTheClaimedJobs | services/api/internal/store/mysql.go:493-577 | the returned rows are the claimed jobs as stored after the claim, each once |
| PracticeStore.InMemoryPracticeSessionStore.MarkWorkspaceCleanupJobSucceeded | services/api/internal/service/practice_service.go:863-877 | the job becomes succeeded and loses its error; an unknown job changes nothing |
| PracticeStore.InMemoryPracticeSessionStore.MarkWorkspaceCleanupJobFailed | services/api/internal/service/practice_service.go:879-894 | the job becomes failed with the error and the time of the next attempt; an unknown job changes nothing |
| PracticeStore.InMemoryPracticeSessionStore.WorkspaceCleanupJobById | services/api/internal/service/practice_service.go:896-906 | the stored job, or not found |
| PracticeStore.InMemoryPracticeSessionStore.RequeueWorkspaceCleanupJob | services/api/internal/service/practice_service.go:908-924 | the job becomes pending with no attempts, due at the given time; an unknown job changes nothing |
| PracticeStore.InMemoryPracticeSessionStore.ListPracticeSessionsMissingWorkspaceCleanupJob | services/api/internal/service/practice_service.go:926-956 | the first `limit` ended sessions without a job, by identifier |
| PracticeStore.InMemoryPracticeSessionStore.ListExhaustedWorkspaceCleanupJobs | services/api/internal/service/practice_service.go:958-985 | the first `limit` failed jobs without attempts left, by identifier |
| PracticeStore.ListedAreFirst | services/api/internal/store/mysql.go:178-216 | a filtered scan that stops at the limit is WHERE, ORDER BY and LIMIT |
| PracticeCalls.PracticeService.CreatePracticeSession | services/api/internal/service/practice_service.go:175-240 | an active session with the user, scenario, template, workspace and path asked for, that lasts 120 minutes from now; an error and nothing stored for bad input, without a workspace, or if the write is lost |
| PracticeCalls.PracticeService.CurrentPracticeSession | services/api/internal/service/practice_service.go:242-265 | the user's current session if it is active and has time left; one whose time is up is expired and enqueued; each error, with an expired session reported as missing, and the exact delete in place of a lost job |
| PracticeCalls.PracticeService.EnsureSessionAvailable | services/api/internal/service/practice_service.go:573-591 | for any copy of a session, up to date or not: available exactly when it says active with time left; an active copy whose time is up is ended as expired; each error, and the exact delete in place of a lost job |
| PracticeCalls.PracticeService.TransitionSession | services/api/internal/service/practice_service.go:593-611 | any copy is stored with the new status, the time of the change as its last activity, and as its end unless it has one; nothing else of it changes; an error and no change if the write is lost or the session is not stored |
| PracticeCalls.PracticeService.OrphanSession | services/api/internal/service/practice_service.go:613-620 | any copy becomes orphaned and its job is due ten minutes later; each error, and the exact delete in place of a lost job |
| PracticeCalls.PracticeService.UseMissingWorkspace | services/api/internal/service/practice_service.go:267-357 | a reset, repository-state or terminal call that learns that the workspace is gone orphans an available session, expires one whose time is up, and leaves other users' sessions alone; each error, and the exact delete in place of a lost job |
| PracticeCalls.PracticeService.UpsertWorkspaceCleanupJob | services/api/internal/service/practice_service.go:622-666 | the job is enqueued, or if its write is lost and the session has a workspace, replaced by a delete of it |
| PracticeCalls.FallbackOf | services/api/internal/service/practice_service.go:645-666 | the delete of the session's workspace exists exactly if the write is lost and there is a workspace; it waits until the job would have been due, or not at all if that is past |
| PracticeCalls.FallbacksAre | services/api/internal/service/practice_service.go:645-666 | of expired sessions in order, the deletes in place of lost jobs are one each for those with a lost write and a workspace, for nobody else, in the same order |
| PracticeCalls.PracticeService.ExpireStalePracticeSessions | services/api/internal/service/practice_service.go:359-375 | all stale sessions expire and are returned, each is enqueued, whichever of the writes are lost, and the deletes in place of lost jobs are exactly those of the sessions with lost writes, in order |
| PracticeCalls.PracticeService.EnqueueExpired | services/api/internal/service/practice_service.go:370-372 | the loop over the expired sessions: one job each, or one delete in its place |
| PracticeCalls.PracticeService.RunWorkspaceCleanupDueJobs | services/api/internal/service/practice_service.go:377-417 | asks for the delete of the workspace of each claimed job, at once and in order, and for nothing else: as many as are due, up to the limit, or 10 without one; the store afterwards is the sweep's; an error exactly if some delete fails or some mark is lost |
| PracticeCalls.PracticeService.SettleRows | services/api/internal/service/practice_service.go:391-416 | one immediate delete of each claimed row's workspace, in order; each row is settled by its own outcome, also if other calls have rewritten the jobs since |
| PracticeCalls.StoredRowsGoWrongIff | services/api/internal/service/practice_service.go:391-416 | of rows that are stored, something goes wrong exactly if a delete fails or a mark is lost |
| PracticeCalls.PracticeService.SettleRow | services/api/internal/service/practice_service.go:391-414 | the result of one delete is marked, a failed one with the backoff of its attempt, and recovered if the mark is lost or the job is not there; an error exactly then or if the delete failed |
| PracticeCalls.PracticeService.MarkSucceeded | services/api/internal/service/practice_service.go:507-520 | a mark that is lost, or finds no job, is recovered by enqueueing the job again |
| PracticeCalls.PracticeService.MarkFailed | services/api/internal/service/practice_service.go:522-536 | a mark that is lost, or finds no job, is recovered by enqueueing the job again at its retry time |
| PracticeCalls.PracticeService.RecoverClaimed | services/api/internal/service/practice_service.go:538-563 | the job is pending again, at the given time, unless that write is lost too |
| PracticeCalls.PracticeService.ReconcileWorkspaceCleanupJobs | services/api/internal/service/practice_service.go:419-466 | the first `limit` ended sessions without a job get one, until a write is lost; an error exactly then; otherwise the summary counts the jobs backfilled and the exhausted jobs, each at most `limit` |
| PracticeCalls.PracticeService.BackfillMissing | services/api/internal/service/practice_service.go:434-457 | the loop over the listed sessions, up to the first lost write |
| PracticeCalls.PracticeService.Backfill | services/api/internal/service/practice_service.go:434-456 | the job of an orphaned session is not due before its grace period is over |
| PracticeCalls.PracticeService.RequeueExhaustedWorkspaceCleanupJob | services/api/internal/service/practice_service.go:484-505 | requeues exactly a failed job without attempts left; a missing job, one not exhausted and a lost write are different errors |
| PracticeCalls.SettleAllEffect | services/api/internal/service/practice_service.go:391-416 | settling claimed rows one after another changes each by its own outcome and nothing else |
| PracticeCalls.SweepEffect | services/api/internal/service/practice_service.go:377-417 | a sweep changes the jobs it claims, each by its own outcome, and nothing else |
| PracticeRuns.CallKeepsInv | services/api/internal/service/practice_service.go:175-681 | every call keeps the store consistent: one job per session, jobs only for ended sessions and for their own workspace, due after the grace period, at most five attempts, sessions of 120 minutes, an index that names each user's newest session |
| PracticeRuns.RewritingKeepsIndex | services/api/internal/service/practice_service.go:758-778 | expiry and orphaning rewrite sessions and the index still names the newest of each user |
| PracticeRuns.EndIsLocal | services/api/internal/service/practice_service.go:742-756 | ending a session changes that session only |
| PracticeGuarantees.CurrentSessionIsNewest | services/api/internal/store/mysql.go:56-73 | after any run the index finds what ORDER BY started_at DESC, id DESC LIMIT 1 finds, and nothing exactly when the user has no session |
| PracticeIndex.IndexNamesTheLastCreated | services/api/internal/service/practice_service.go:704-756 | in every state that interleaved calls lead to, the index names each user's last session created, and nothing exactly for a user without sessions; it finds what ORDER BY started_at DESC, id DESC LIMIT 1 finds if and only if no session of the user started after that one |
| PracticeIndex.EndingKeepsHighest | services/api/internal/service/practice_service.go:742-756 | writing an ended copy back does not move the index, however old the copy |
| PracticeGuarantees.CreationKeepsIndexIff | services/api/internal/service/practice_service.go:704-713 | of one creation in any store: the index is right afterwards if and only if no session of the user started later |
| PracticeCounterexamples.CreationsCanCross | services/api/internal/service/practice_service.go:222-235 | a run in which two creations cross: the index then names the session that started earlier |
| PracticeGuarantees.EndedSessionsAreFinal | services/api/internal/service/practice_service.go:573-620 | with atomic calls no run rewrites anything of an ended session |
| PracticeGuarantees.SessionCanChangeIff | services/api/internal/service/practice_service.go:573-620 | some run of atomic calls rewrites a session if and only if it is active |
| PracticeGuarantees.SessionsLastTwoHours | services/api/internal/service/practice_service.go:584-590 | after any run a session has lasted 120 minutes if it is expired, and has ended exactly if it is not active |
| PracticeGuarantees.JobsNameDeadWorkspaces | services/api/internal/service/practice_service.go:391-399 | after any run a job's workspace belongs to no session but its own, which has ended, and the job's reason is how |
| PracticeGuarantees.OrphansHaveTheirGrace | services/api/internal/service/practice_service.go:613-620 | with atomic calls, no sweep of any run claims an orphaned session's job within ten minutes of the session's end: not after retries, recovery, lease, reconciliation or requeue |
| PracticeCounterexamples.OrphansCanLoseTheirGrace | services/api/internal/service/practice_service.go:593-643 | with calls interleaved it does happen: an orphaned session whose job is due at the time of its end, in a state that a run leads to |
| PracticeJobs.OtherCallsExtend | services/api/internal/service/practice_service.go:359-375 | only sweeps and requeueing touch an existing job; other calls at most add untried jobs that are not due before now |
| PracticeJobs.JobAfterCall | services/api/internal/service/practice_service.go:377-417 | a call claims and settles a job, requeues an exhausted one, or leaves it untouched |
| PracticeJobs.RunOfOneJob | services/api/internal/service/practice_service.go:377-563 | what a run does to a job is a sequence of claims and requeues that the job allows |
| PracticeJobs.RetriesBackOff | services/api/internal/service/practice_service.go:668-677 | while a job's deletes fail and nobody requeues it, its claims are at least 1, 5, 15, 15 minutes apart, whichever writes are lost; there are at most five, the fifth at least 36 minutes after the first |
| PracticeJobs.OutcomeOfOneAttempt | services/api/internal/service/practice_service.go:391-416 | the status, error and attempts of a job after one attempt, for every outcome and lost write, and exactly when it can be claimed again: 1, 5, 15, 15 minutes after a failed delete by its attempt, at once after a recovered success, after fifteen minutes if both writes are lost, and never after the fifth |
| PracticeJobs.AttemptsAreClaims | services/api/internal/service/practice_service.go:850-858 | in any run without a requeue of the job, the attempts it uses are the claims of it, and there are never more than five |
| PracticeJobs.LostJobsAreLeased | services/api/internal/service/practice_service.go:538-563 | between atomic calls: a job whose mark and recovery were both lost in a sweep is not handed out again within fifteen minutes of that sweep |
| PracticeJobs.InertJobsHaveNoStep | services/api/internal/service/practice_service.go:817-837 | exactly the succeeded jobs, and the pending and running ones without attempts left, can be neither claimed at any time nor requeued |
| PracticeJobs.InertForever | services/api/internal/service/practice_service.go:507-563 | with atomic calls, no run ever claims, changes or lists such a job again: a workspace whose job has succeeded is not deleted again, and a stranded job stays so |
| PracticeInertness.JobCanChangeIff | services/api/internal/service/practice_service.go:377-666 | with calls interleaved, some run changes a job if and only if it is neither succeeded nor stranded, or some thread is on its way to write it: one with an active copy of its session, with a job of the session to enqueue, with a claimed row of it, or about to requeue it |
| PracticeInertness.QuietForever | services/api/internal/service/practice_service.go:377-666 | a succeeded or stranded job that no thread is on its way to write stays as it is in every interleaved run |
| PracticeCounterexamples.SucceededJobComesBack | services/api/internal/service/practice_service.go:593-643 | a run without a lost write in which a job that has succeeded becomes due again |
| PracticeCounterexamples.ListedJobIsStranded | services/api/internal/service/practice_service.go:780-795 | a run without a lost write in which a job listed for operators becomes stranded |
| PracticeJobs.FifthAttemptIsStrandedIff | services/api/internal/service/practice_service.go:958-985 | whatever the outcome of a fifth attempt in a sweep: the job is stranded if and only if its mark is lost, also when the workspace was deleted; it is listed for operators, with its error, if and only if the delete failed and the mark was written |
| PracticeJobs.StrandedIff | services/api/internal/service/practice_service.go:391-416 | with atomic calls, at the end of any run a job is stranded if and only if some sweep of the run took its last attempt and lost the mark |
| PracticeStarvation.JobsDueBeforeAreOverdue | services/api/internal/service/practice_service.go:817-837 | every job that a sweep might have claimed at an earlier time is overdue: pending, failed, or running with its lease run out |
| PracticeStarvation.PassedOverForALimit | services/api/internal/service/practice_service.go:839-858 | a sweep that leaves a due job unclaimed claims `limit` jobs that come before it |
| PracticeStarvation.BudgetNeverRises | services/api/internal/service/practice_service.go:377-417 | a sweep that does not claim an overdue job lowers the attempts left before it by at least its limit; no other call raises them |
| PracticeStarvation.NoStarvation | services/api/internal/service/practice_service.go:807-861 | an overdue job is claimed in every run whose sweeps have room for more claims than the unfinished jobs before it have attempts left |
| PracticeStarvation.ClaimedWithinSweeps | services/api/internal/service/practice_service.go:807-861 | with sweeps of at least `limit` jobs, within budget / limit + 1 sweeps, where the budget is those attempts |
| PracticeDrain.ReconcileShrinksTheList | services/api/internal/service/practice_service.go:419-457 | a reconciliation that loses no write takes exactly the first min(limit, size) sessions off the list of those missing a job |
| PracticeDrain.CallShrinksTheList | services/api/internal/service/practice_service.go:622-643 | no call that writes its jobs adds to that list |
| PracticeDrain.ListDrains | services/api/internal/service/practice_service.go:419-457 | over any run that loses no job write the list shrinks by the limit of each reconciliation, whatever else happens |
| PracticeDrain.EveryEndedSessionHasItsJob | services/api/internal/service/practice_service.go:926-956 | once the reconciliations have made up for it, every ended session has one job and only one |
| PracticeDrain.EndingEnqueues | services/api/internal/service/practice_service.go:593-643 | ending a session gives it an untried pending job for its workspace, due ten minutes after the end of an orphan and at once otherwise |
| PracticeDrain.ExpiryExpires | services/api/internal/service/practice_service.go:359-375 | an expiry leaves no active session whose time is up; each that it ends has an untried job for its workspace, due at once, unless that write is lost |
| PracticeDrain.BackfillEnqueues | services/api/internal/service/practice_service.go:434-456 | a backfilled job is pending and untried, for the session's workspace, due ten minutes after an orphan's end or now, whichever is later |
| PracticeInterleaving.StepKeepsInv | services/api/internal/service/practice_service.go:377-666 | every single store or runner call of any thread, with any old copies, keeps jobs and deletes with ended sessions |
| PracticeInterleaving.EndedSessionsStayEnded | services/api/internal/service/practice_service.go:573-620 | however calls interleave, an ended session never becomes active again and keeps its workspace |
| PracticeInterleaving.DeletesHitOnlyDeadSessions | services/api/internal/service/practice_service.go:645-666 | however calls interleave, a workspace ever asked to be deleted, by a sweep or as a fallback, belongs to no active session and to none being created, then or later |
| PracticeInterleaving.JobsStayWithEndedSessions | services/api/internal/service/practice_service.go:780-805 | however calls interleave, a job names the workspace of an ended session, is its only job, and has at most five attempts |
| PracticeClocks.EndedStatusCanChangeInTimeIff | services/api/internal/service/practice_service.go:573-620 | with calls interleaved and a clock that does not go back, some run turns an expired session orphaned, or an orphaned one expired, if and only if a thread can still end its active copy that way in time: an unchecked copy can be orphaned only before it expires |
| PracticeClocks.ExpiredCanTurnOrphanedIff | services/api/internal/service/practice_service.go:584-620 | in every state that such a clock leads to, an expired session can still turn orphaned if and only if a thread is using it or already ending it so |
| PracticeFinality.EndedStatusCanChangeIff | services/api/internal/service/practice_service.go:573-620 | the same with clock readings in any order, as of machines whose clocks differ: then an unchecked active copy can be ended either way |
| PracticeFinality.EndedSessionCanChangeIff | services/api/internal/service/practice_service.go:573-620 | and some run changes anything of an ended session if and only if a thread holds an active copy of it |
| PracticeCounterexamples.OrphanedBecomesExpired | services/api/internal/service/practice_service.go:573-620 | a run in which that happens: orphaned by one call, then expired by another that read it before |
| PracticeLease.ClaimedJobsAreLeased | services/api/internal/service/practice_service.go:816-858 | however calls interleave: after a claim, and as long as nobody marks, recovers, enqueues or requeues the job, its claims are at least fifteen minutes apart, to whichever thread |
| PracticeLease.RunningJobsAreLeased | services/api/internal/service/practice_service.go:826-832 | the same from any state in which the job is running since its claim |
| PracticeAlone.SweepAlone | services/api/internal/service/practice_service.go:377-417 | a sweep whose steps are not interleaved with others' is the atomic sweep, and asks for the deletes of exactly the claimed jobs' workspaces |
| PracticeAlone.EndAlone | services/api/internal/service/practice_service.go:593-666 | so is ending a session and enqueueing its job, whichever writes are lost; the workspace is deleted only in place of a lost job |
| PracticeAlone.VisitAlone | services/api/internal/service/practice_service.go:293-309 | so are looking at a session, and missing its workspace |
| PracticeAlone.ExpireAlone | services/api/internal/service/practice_service.go:359-375 | so is expiring the stale sessions and enqueueing their jobs; exactly the workspaces of sessions with lost jobs are deleted |
| PracticeAlone.ReconcileAlone | services/api/internal/service/practice_service.go:419-457 | so is reconciling, up to the first lost write; nothing is deleted |
| PracticeAlone.RequeueAlone | services/api/internal/service/practice_service.go:484-505 | so is requeueing an exhausted job |
| PracticeAlone.CreateAlone | services/api/internal/service/practice_service.go:217-240 | so is creating a session |
| TerminalSlots.TerminalManager.EnterAcquire | services/runner/internal/engine/terminal_sessions.go:119-156 | Acquire's first critical section: reuse an open session, wait for a starting or releasing slot, or put a new starting slot in the table |
| TerminalSlots.TerminalManager.Install | services/runner/internal/engine/terminal_sessions.go:158-171 | Acquire's second: install the session, or remove the slot if the start failed, and close `ready`, if the slot is still current |
| TerminalSlots.TerminalManager.EnterRelease | services/runner/internal/engine/terminal_sessions.go:181-207 | Release's first: nothing held, wait for the starter, wait for another release, or put the slot into releasing |
| TerminalSlots.TerminalManager.FinishRelease | services/runner/internal/engine/terminal_sessions.go:213-218 | Release's second: remove the slot if it is still current, and close `released` |
| TerminalSlots.StepKeepsInv | services/runner/internal/engine/terminal_sessions.go:109-226 | every step of any number of calls, and a session closing on its own, keeps every slot with its owner and every open session in its slot |
| TerminalSlots.AtMostOneOpenSession | services/runner/internal/engine/terminal_sessions.go:109-226 | in every reachable state a workspace has at most one open session, in its slot or in the hands of the slot's starter |
| TerminalSlots.SlotsAreOwned | services/runner/internal/engine/terminal_sessions.go:158-171 | a call that comes back from starting or closing a shell finds its own slot, as it left it: both identity tests always succeed |
| TerminalSlots.OthersLeaveOwnedSlotsAlone | services/runner/internal/engine/terminal_sessions.go:119-219 | only its owner changes or removes a starting or releasing slot |
| TerminalSlots.ChannelsCloseOnce | services/runner/internal/engine/terminal_sessions.go:158-219 | `ready` and `released` are each closed at most once, and exactly once when the slot has left that state |
| TerminalSlots.WaitersHaveAnOwner | services/runner/internal/engine/terminal_sessions.go:696-703 | a call still waiting waits for a call that is starting or closing the shell of the same workspace |
| TerminalSlots.InstallingWakesWaiters | services/runner/internal/engine/terminal_sessions.go:158-171 | once the start has returned, the starter's next step wakes everyone who waits for it |
| TerminalSlots.RemovingWakesWaiters | services/runner/internal/engine/terminal_sessions.go:213-219 | once the close has returned, the closer's next step wakes everyone who waits for it |
| TerminalSlots.ReleaseLeavesNothingOpen | services/runner/internal/engine/terminal_sessions.go:200-219 | when a Release removes its slot the workspace has no open session |
| TerminalSlots.ReturningAtOnceLeavesNothingOpen | services/runner/internal/engine/terminal_sessions.go:181-207 | nor has it one when a Release returns at once |
| TerminalSlots.ReleasesReturnAfterTheClose | services/runner/internal/engine/terminal_sessions.go:196-199 | a Release that waited for another returns only after the session has been closed |
| TerminalSlots.ReusedSessionsAreOpen | services/runner/internal/engine/terminal_sessions.go:124-130 | a session that is handed out again is open, and its workspace's |
| TerminalSlots.AcquireEnters | services/runner/internal/engine/terminal_sessions.go:119-156 | at the top of its loop an Acquire waits if and only if another call is starting or closing the shell; otherwise it returns the session that is open, and starts a shell if and only if none is |
| TerminalSlots.ReleaseEnters | services/runner/internal/engine/terminal_sessions.go:181-207 | a Release waits if and only if another call is starting or closing the shell, and otherwise closes it; it returns at once if and only if the workspace has no slot |
| TerminalSlots.ReleasesCloseWhatTheyFind | services/runner/internal/engine/terminal_sessions.go:181-219 | over any run, a session that is open when a Release of its workspace begins is closed when that Release has returned, whoever started it |
| TerminalSlots.CallsReturnTheirOutcome | services/runner/internal/engine/terminal_sessions.go:109-226 | over any run, an Acquire returns a session of its workspace or fails, and fails only by giving up or by its own failed start; a Release is just done |
| TerminalSubscribers.TerminalSession.Subscribe | services/runner/internal/engine/terminal_sessions.go:575-590 | a new channel is registered, unless the session is finished |
| TerminalSubscribers.TerminalSession.Unsubscribe | services/runner/internal/engine/terminal_sessions.go:592-603 | the channel is removed and closed, if it is still registered |
| TerminalSubscribers.TerminalSession.Finish | services/runner/internal/engine/terminal_sessions.go:628-641 | the first call closes every registered channel and removes them all; later calls do nothing |
| TerminalSubscribers.TerminalSession.Broadcast | services/runner/internal/engine/terminal_sessions.go:562-573 | the chunk is put on every registered channel and on no other; nothing once finished |
| TerminalSubscribers.SubscribersGetWhatIsBroadcast | services/runner/internal/engine/terminal_sessions.go:562-606 | in every reachable state, what was put on a channel is exactly the run of broadcasts from its registration to its removal, or to now |
| TerminalSubscribers.LogIsWhatWasBroadcast | services/runner/internal/engine/terminal_sessions.go:562-573 | those broadcasts are the chunks that the run broadcast before the session finished, in order |
| TerminalSubscribers.MarksAreTheEnds | services/runner/internal/engine/terminal_sessions.go:575-641 | and a channel's share begins at its subscription and ends where it was closed |
| TerminalSubscribers.ChannelsCloseOnce | services/runner/internal/engine/terminal_sessions.go:590-641 | a channel is closed exactly once, when its subscriber is removed |
| TerminalSubscribers.ClosedChannelsAreFinal | services/runner/internal/engine/terminal_sessions.go:562-573 | nothing is sent on a closed channel, and it is not closed again |
| TerminalSubscribers.DrainedChannelsAreComplete | services/runner/internal/engine/terminal_sessions.go:316-334 | a reader that drains its closed channel has received its whole share, in order |
| TerminalSubscribers.FinishedSessionsStayEmpty | services/runner/internal/engine/terminal_sessions.go:628-641 | a finished session takes no subscribers and broadcasts nothing |
| TerminalSubscribers.BroadcastsAddUp | services/runner/internal/engine/terminal_sessions.go:562-573 | sends to the subscribers in any order add up to the broadcast |
| InputChunks.SplitTerminalInputChunks | services/runner/internal/engine/terminal_sessions.go:254-283 | the loop computes the split |
| InputChunks.SplitIsTheExactSplit | services/runner/internal/engine/terminal_sessions.go:254-283 | the split is the one list of non-empty single lines that concatenate to the input, each but the last terminated by CR, LF or CRLF, no CRLF separated; and there is no other |
| InputChunks.SplitAppends | services/runner/internal/engine/terminal_sessions.go:254-283 | split(a + b) is split(a) followed by split(b) if and only if one of them is empty, or a ends in a terminator and the cut is not inside a CRLF |
| CleanupTimers.WorkspaceCleanupManager.Schedule | services/runner/internal/engine/workspace_cleanup.go:61-122 | a delayed request cancels and replaces the pending entry of the workspace; an immediate one cancels and removes it, deletes, records the result and returns the error of releasing the terminal or else of removing the files; a rejected one changes nothing |
| CleanupTimers.RejectedIff | services/runner/internal/engine/workspace_cleanup.go:61-70 | a request is rejected exactly if its context is done, or its workspace or path is nothing but spaces, with the error of the first of these that holds |
| CleanupTimers.ScheduleNowAlone | services/runner/internal/engine/workspace_cleanup.go:72-122 | an immediate request that no other step comes between leaves the registry as `Schedule` does, and is reported with the error that `Schedule` returns |
| CleanupTimers.WorkspaceCleanupManager.CancelPending | services/runner/internal/engine/workspace_cleanup.go:131-140 | the workspace's entry is removed and cancelled |
| CleanupTimers.WorkspaceCleanupManager.BeginPendingDelete | services/runner/internal/engine/workspace_cleanup.go:142-152 | succeeds exactly for the entry that is pending, and removes it |
| CleanupTimers.WorkspaceCleanupManager.ClearPending | services/runner/internal/engine/workspace_cleanup.go:154-160 | removes the entry if it is the pending one |
| CleanupTimers.WorkspaceCleanupManager.RecordCleanupResult | services/runner/internal/engine/workspace_cleanup.go:162-171 | remembers the last error of a workspace, or forgets it |
| CleanupTimers.SupersededRequestsNeverDelete | services/runner/internal/engine/workspace_cleanup.go:84-107 | a request replaced or cancelled while pending never removes anything and is reported as cancelled; the others are not |
| CleanupTimers.RequestsCompleteOnce | services/runner/internal/engine/workspace_cleanup.go:173-177 | an accepted request is reported at most once, and exactly once when done; it calls the removal at most once, and once if reported without an error |
| CleanupTimers.TicketsAreTheRequests | services/runner/internal/engine/workspace_cleanup.go:61-108 | every accepted request has its own ticket, of its workspace and kind, in order |
| CleanupTimers.TicketsShowTheResults | services/runner/internal/engine/workspace_cleanup.go:84-122 | what a request is about to record or report, or has reported, is how its delete ended in the run so far |
| CleanupTimers.ReportsTellTheResult | services/runner/internal/engine/workspace_cleanup.go:101-122 | a request that is done reports the error of its removal, or of its release if that failed; it reports none only if both succeeded |
| CleanupTimers.FailuresAreTheLastErrors | services/runner/internal/engine/workspace_cleanup.go:162-171 | after any run the remembered failures are exactly the errors of the last result recorded for each workspace |
| CleanupTimers.SupersededForever | services/runner/internal/engine/workspace_cleanup.go:61-108 | being superseded is final |
| CleanupTimers.PendingEntriesAreNewest | services/runner/internal/engine/workspace_cleanup.go:142-160 | a pending entry is not cancelled and is the newest delayed request for its workspace |
| CleanupTimers.NewerRequestsSupersede | services/runner/internal/engine/workspace_cleanup.go:78-92 | of two delayed requests for a workspace the older no longer waits, or is superseded |
| CleanupTimers.OwnStepsAdvance | services/runner/internal/engine/workspace_cleanup.go:84-122 | a request's own steps bring it closer to its report, and no other step moves it |
| CleanupTimers.NoRequestIsStuck | services/runner/internal/engine/workspace_cleanup.go:84-122 | a request that is not done has a step of its own, and at most six of them |
| CleanupTimers.AcceptedRequestsAreAccountedFor | services/runner/internal/engine/workspace_cleanup.go:61-177 | at every step, accepted requests = pending entries + cancelled and unreported + in flight + completed |
| MarkerLines.MatchIsThePattern | services/runner/internal/http/handlers/terminal_ws.go:189 | the recogniser accepts exactly the lines of the metadata pattern and splits them as the pattern's groups do |
| MarkerLines.MarkerLineRoundTrip | services/runner/internal/engine/terminal_sessions.go:528-541 | the line that the shell prints for a command and an exit code parses to the exit code and what trimming leaves of the command; blank commands are passed over |
| MarkerLines.SpacedCommandRoundTrip | services/runner/internal/engine/terminal_sessions.go:528-541 | printed with any spaces before and after it, as `fc -ln -1` does, a command without spaces at its ends is parsed to exactly itself |
| MarkerLines.ReportsAreParsed | services/runner/internal/http/handlers/terminal_ws.go:253-280 | a line is parsed to a command and an exit code if and only if, without its line end and control sequences, it is the marker, a numeral of that code and the base64 text of that command between spaces |
| MarkerLines.ControlLengthIff | services/runner/internal/http/handlers/terminal_ws.go:188 | a control sequence is recognised at the start of a text exactly if the text starts with one, and all of it is |
| MarkerLines.StripTakesControls | services/runner/internal/http/handlers/terminal_ws.go:286-290 | stripping keeps text and takes out each control sequence behind it |
| MarkerLines.StripKeepsOtherEscapes | services/runner/internal/http/handlers/terminal_ws.go:286-290 | an escape that starts no control sequence is kept |
| MarkerLines.ColouredLinesCount | services/runner/internal/http/handlers/terminal_ws.go:286-290 | a line between two control sequences, as a colouring prompt prints it, counts as the line without them |
| MarkerLines.ContinuationIsTheMarker | services/runner/internal/http/handlers/terminal_ws.go:282-290 | a line without escapes is a continuation prompt if and only if it is the marker, up to two carriage returns, and a newline or none |
| MarkerLines.EmptyCommandLineIsNoMarker | services/runner/internal/http/handlers/terminal_ws.go:253-259 | a marker without a command is no metadata |
| Base64.RoundTrip | services/runner/internal/http/handlers/terminal_ws.go:266-269 | decoding inverts the padded encoding of section 4 of RFC 4648, for all bytes |
| Base64.DecodedIsEncoded | services/runner/internal/http/handlers/terminal_ws.go:266-269 | whatever decodes is the encoding of what it decodes to, but for the unused bits before the padding |
| Text.ItoaRoundTrip | services/runner/internal/http/handlers/terminal_ws.go:261-264 | an exit code in Go's integer range survives being printed and parsed |
| Text.TrimIsTheMiddle | services/runner/internal/http/handlers/terminal_ws.go:271-274 | trimming gives a text if and only if that text stands between spaces and has none at its own ends, for Go's spaces and for the browser's |
| Text.TrimsToNothingIff | services/runner/internal/http/handlers/terminal_ws.go:271-279 | trimming leaves nothing exactly of a text of spaces |
| Text.TrimAgain | apps/web/src/hooks/useTerminalSession.ts:136-140 | what Go has trimmed the browser trims further exactly if a byte order mark is left at an end |
| CompletionTracker.CommandCompletionTracker.IngestOutput | services/runner/internal/http/handlers/terminal_ws.go:206-212 | returns what one drain of the buffer and the chunk gives, and keeps the rest |
| CompletionTracker.CommandCompletionTracker.Flush | services/runner/internal/http/handlers/terminal_ws.go:214-219 | returns what a flushing drain gives and keeps nothing |
| CompletionTracker.CommandCompletionTracker.DrainLocked | services/runner/internal/http/handlers/terminal_ws.go:221-251 | the loop over complete lines, and the fragment kept or released |
| CompletionTracker.BufferIsAMarkerPrefix | services/runner/internal/http/handlers/terminal_ws.go:292-298 | between calls the buffer is a newline-free prefix of the exit marker, at most 23 characters |
| CompletionTracker.HeldBackIff | services/runner/internal/http/handlers/terminal_ws.go:292-298 | a piece of a line from its start is held back exactly if the exit marker starts with it; anything else is sent ahead |
| CompletionTracker.FlushReportsNoCompletion | services/runner/internal/http/handlers/terminal_ws.go:214-219 | the flush at the end of a stream reports no completion |
| CompletionTracker.DrainInTwoSteps | services/runner/internal/http/handlers/terminal_ws.go:221-251 | draining a text is draining its complete lines and then what is left with what follows |
| CompletionTracker.ManyCutsAreInvisible | services/runner/internal/http/handlers/terminal_ws.go:206-251 | for any number of cuts anywhere: if every line that something was sent ahead of is kept both whole and without that, the chunks give what the whole text gives |
| CompletionTracker.SafeCutsAreInvisible | services/runner/internal/http/handlers/terminal_ws.go:206-251 | in particular if each cut leaves a prefix of the exit marker since the last newline |
| CompletionTracker.CutIsInvisible | services/runner/internal/http/handlers/terminal_ws.go:245-248 | one cut does not show if and only if it is safe, or its line never ends, or that line is kept both whole and without its first part |
| CompletionTracker.CutInTheMarkerIsInvisible | services/runner/internal/http/handlers/terminal_ws.go:245-248 | a cut inside an exit marker at the start of a line does not show, whatever comes before and after |
| CommandCounterexamples.MarkerLineCutShowsIff | services/runner/internal/http/handlers/terminal_ws.go:245-248 | a cut inside a marker line shows if and only if it comes behind the 23 characters of the marker, for any command, exit code and line end |
| CommandCounterexamples.CutShows | services/runner/internal/http/handlers/terminal_ws.go:245-248 | for one, the line of "ls" cut behind the colon |
| CompletionTracker.FeedAccounts | services/runner/internal/http/handlers/terminal_ws.go:221-290 | for any chunks, the text consumed is a sequence of segments: the kept ones are the output in order, each dropped one is a whole line that parses as metadata, giving its completion in order, or as a continuation marker |
| CompletionTracker.StreamAccounts | services/runner/internal/http/handlers/terminal_ws.go:214-251 | after the flush this accounts for the whole text |
| CommandHistory.TerminalSessionHook.Connect | apps/web/src/hooks/useTerminalSession.ts:51-79 | a new connection starts with an empty history, queue and transcript and a new token |
| CommandHistory.TerminalSessionHook.OnMessage | apps/web/src/hooks/useTerminalSession.ts:111-194 | for any frames, the history is the commands in order, the first ones closed by the exits that found one running, the rest running, with the queue holding exactly their identifiers; frames of older connections change nothing |
| CommandHistory.TerminalSessionHook.OnStatus | apps/web/src/hooks/useTerminalSession.ts:136-161 | a running status with a command that is not blank adds a running entry at the end |
| CommandHistory.TerminalSessionHook.OnExit | apps/web/src/hooks/useTerminalSession.ts:162-187 | an exit closes the oldest running entry, if there is one |
| CommandHistory.OneMoreClosing | apps/web/src/hooks/useTerminalSession.ts:162-187 | closing by identifier closes exactly the oldest running entry |
| CommandHistory.EntryIdIsInjective | apps/web/src/hooks/useTerminalSession.ts:142-143 | entries of a session have different identifiers |
| CommandHistory.HistoryReads | apps/web/src/hooks/useTerminalSession.ts:140-186 | each entry has the command and identifier of its place, and its phase, exit code and summary tell whether and how it was closed |
| CommandHistory.RunningStatusStarts | apps/web/src/hooks/useTerminalSession.ts:136-140 | a frame starts a command if and only if it is a running status whose detail is that command between spaces |
| CommandPipeline.ExitCommandIsAlwaysReported | services/runner/internal/http/handlers/terminal_ws.go:107-116 | at the end of a stream a submitted exit command is always reported; it is never taken for a repetition |
| CommandPipeline.HistoryTellsTheStream | services/runner/internal/http/handlers/terminal_ws.go:60-129 | for any stream in any chunks, ended or broken, the history is the list of reported completions in order, each closed with its own exit code, and nothing is left running |
| CommandPipeline.HistoryIsTheCompletionList | apps/web/src/hooks/useTerminalSession.ts:136-140 | the history is exactly the completion list if and only if no command starts or ends with a byte order mark |
| CommandCounterexamples.MarkedCommandIsShownDifferently | apps/web/src/hooks/useTerminalSession.ts:136-140 | the marker line of a command behind a byte order mark is reported as it is and shown as another entry |
| CommandPipeline.TranscriptIsTheOutput | services/runner/internal/http/handlers/terminal_ws.go:75-82 | the browser's transcript is exactly the stream's output, ended or broken |
| CommandPipeline.Receive | apps/web/src/hooks/useTerminalSession.ts:111-194 | a connection's frames reach the log in order |
| CommandPipeline.ShowStream | apps/web/src/hooks/useTerminalSession.ts:51-194 | from the ready frame of a connection to the end of its stream, ended or broken: history, queue and transcript |
| CommandParser.ParseCommand | services/runner/internal/engine/commands.go:184-248 | the loop computes the parse, or the error for an open quote or a missing command |
| CommandParser.ScanPasses | services/runner/internal/engine/commands.go:250-261 | the lookahead never reaches past a space |
| CommandParser.ParseConcatenates | services/runner/internal/engine/commands.go:184-248 | parsing a + space + b gives the words of a and then those of b; a blank b adds none and an open quote in b is the error |
| CommandParser.OnlyBlankInputIsEmpty | services/runner/internal/engine/commands.go:241-245 | "command is required" is reported for blank input and for nothing else |
| CommandParser.RenderedArgumentsParse | services/runner/internal/engine/commands.go:184-248 | every non-empty list of arguments, with any characters, has a quoted rendering that parses back to exactly it |
| CommandWords.LineParses | services/runner/internal/engine/commands.go:184-248 | any words, of unquoted and quoted pieces with escapes, separated by any spaces, parse to the texts of exactly those words |
| CommandWords.WordParses | services/runner/internal/engine/commands.go:206-237 | any plain and quoted pieces next to each other are one word, of their texts with the escapes resolved |
| CommandWords.PlainWordParses | services/runner/internal/engine/commands.go:230-233 | a word without quotes and spaces parses to itself |
| CommandWords.QuotedPathParses | services/runner/internal/engine/commands.go:250-261 | a backslash before the quote that ends the word is kept, as in a quoted path |
| CommandWords.UnclosedQuoteIsAnError | services/runner/internal/engine/commands.go:236-238 | a quote that nothing closes is an error, whatever text follows it |
| CommandWords.UnquotedLine | services/runner/internal/engine/commands.go:184-248 | every line without quotes is plain words between spaces, and parses to exactly these |

## Left out

- HTTP routing, cookies, OAuth, websockets, JSON, configuration, the MySQL driver: plumbing around libraries.
- Shells, pseudo-terminals, processes, file removal and Git: each is a success or a failure that a step or a parameter chooses.
- React rendering, xterm, focus and shell selection: user interface.
- Command policy, command timeouts and event recording around `parseCommand`, and the repository summaries of the browser: they would add easy members.
- Lost writes: a lost write has no effect. A write that takes effect but is reported as failed is not modelled.
- Errors of store reads and of the claim itself: such a call changes nothing and would only add easy members.
- Integer widths: identifiers and attempt counts do not wrap around; exit codes do have Go's 64-bit range.
- Times: integers in nanoseconds; time zones and the rounding of the database's time columns are not modelled. `CreatedAt` is left out; `UpdatedAt` is kept because the lease needs it.
- Statuses: enumerations; the branches for a status that the program never writes are left out.
- The catalog of scenarios and templates: looked up before the calls modelled here; the identifiers are parameters.
- `mysql.go`: only its predicates and orderings are modelled, as the specification of the in-memory store; its transactions and row locks are not. Its claim orders and limits as `ClaimKeys` does.
- Results for atomic calls only, and a clock that does not go back: grace, backoff, starvation, the drain of missing jobs, the two hours of a session, and how a job comes to be stranded. The lease, the finality of sessions and jobs, the index and everything about deletes are also stated for interleaved calls.
- Parsing an exit command typed into the terminal (`parseShellExitInput`, terminal_ws.go:300-323): the command is a parameter; where its shape matters it is not blank and trimmed.
- Frames that cannot be written: a connection that fails while frames are written delivers a prefix of those modelled.
- Invalid UTF-8: frames carry the bytes; the replacement of invalid sequences by the JSON encoder is not modelled.
- The browser's connection status and the time of execution of a history entry: no property depends on them.
- CommandParser.ParseCommand: characters are code points; invalid UTF-8 in the command is not modelled.
- TerminalSubscribers.TerminalSession.Broadcast: the method describes a broadcast that finds room on every channel. One that blocks on a full channel while it holds the mutex is covered by the steps, for safety only; no progress is claimed there.
- TerminalSlots: a call whose context is cancelled gives up at any wait; the causes of cancellation are not modelled.
- CleanupTimers: timers fire at any time after the request; the length of the delay is only compared with 0.
- Bootstrap scripts of the shells: only the format of the marker lines that they print is modelled.
