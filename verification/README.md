# Verification of MergeMate's run, job, queue, retry and text machinery

MergeMate carries a run from a prompt through planning, approval and execution. What keeps that safe is a
durable run table changed by conditional updates, a job table with timed leases, an in-memory queue drained by a
worker, a shared retry budget and a review loop. This project models those parts and proves what they promise
over every input, every interleaving or every run. `dafny verify dfyconfig.toml` checks all of it.

| file | what it holds |
|---|---|
| `RunRepository.dfy` | the run row, its SQL statements, the repository object |
| `RunProtocol.dfy` | every client of the run table as a step relation: one SQL statement is one step, what was read earlier is a local that may be stale |
| `RunTheorems.dfy` | single start, approval and plan before start, cancellation against approval, over every behaviour |
| `RunContinuations.dfy`, `RunHazards.dfy` | exactly when a run can still be started, approved or cancelled, and come to stand cancelled or in execution |
| `RunWitnesses.dfy` | behaviours of the program that break the guarantees |
| `RunPlans.dfy` | exactly when a run can start with another plan than was approved |
| `RunClient.dfy`, `RunUseCases.dfy` | the use cases as code over the repository, each shown to be a run of one protocol client |
| `Timestamps.dfy` | ISO timestamp text and its order |
| `JobTable.dfy`, `JobLease.dfy` | the job table and its repository; leases over timed runs of any number of workers |
| `QueueWorker.dfy` | queue, worker and dispatcher bookkeeping |
| `Retry.dfy` | the sliding-window budget and the retry loop |
| `ExecutionPlan.dfy` | the review and replanning loop and the artifacts its stages pass on |
| `ToolService.dfy` | tool calls: run transitions and the event log around them |
| `SearchIndex.dfy`, `FtsQuery.dfy` | full-text triggers and rebuild; the search query and its reader |
| `MessageSplit.dfy`, `DeepMerge.dfy`, `Documents.dfy`, `Whitespace.dfy` | message splitting, configuration layers, document names |

**Where the code breaks its own guarantee.** When a plan revision fails, `revise_plan_for_chat` writes back the
status it read before it awaited the redraft, with no WHERE on the current status
(`src/mergemate/application/use_cases/submit_prompt.py:161-169`). The model keeps the read of its one caller, the
chat handler (`src/mergemate/interfaces/telegram/handlers.py:193-203`), its own read and its write as three steps.

- *Single start* holds whenever every revision begins on a run it finds awaiting confirmation
  (`RunTheorems.SingleStart`). The handler's guard gives that as long as nobody acts between its read and the use
  case's, as within one process, where nothing is awaited there (`SingleStartBehindHandler`). The guard cannot be
  weakened: two starts need a revision that read the run queued (`SecondStartNeedsQueuedRead`), and from any such read
  on two starts are possible (`RunWitnesses.QueuedReadRestarts`); an approval by another process between the two reads
  brings one about (`DoubleStartWitness`).
- *Cancellation against approval* fails even behind that guard: a run cancelled during a redraft that then fails can be
  approved and executed (`ApprovedAfterCancelWitness`), and one approved and started meanwhile can be cancelled
  (`CancelledAfterStartWitness`).
- *No execution after a cancellation, no cancellation after a start.* `ExecutionPossibleIff` and `CancelledPossibleIff`
  say for every state of every behaviour when a run can still come to stand so, by whatever step. There is more to them
  than the two events: whoever executes a run marks it completed even when it has been cancelled since
  (`CompletedAfterCancelWitness`), and a revision that has read the run cancelled writes that over a running one
  (`CancelledOverRunningWitness`).
- `StartPossibleIff`, `ApprovalPossibleIff` and `CancellationPossibleIff` say when each of the three events can still
  happen.
- *The plan a run starts with* is the approved one unless a client that can still store another is left over at the
  approval or comes after it (`RunPlans.StartsWithApprovedPlan`, `StartsReplannedIff`); two planning jobs of one run are
  enough (`OtherPlanWitness`), and the program starts two for a prompt from the chat
  (`src/mergemate/application/jobs/worker.py:123`, `src/mergemate/interfaces/telegram/handlers.py:257-280`).

The witnesses with a revision let other clients act during a redraft. python-telegram-bot, which is not part of this model, handles
one update at a time unless told otherwise, so with one bot process and its default the other client is in another
process.

**Where the code and its comments differ.** The retry loop's own text says it raises the last exception and that
retries after HTTP 429 never use the budget (`src/mergemate/infrastructure/llm/gateway.py:72-74` and `:191`). The
code raises its own error once attempts or budget are used up, and a 429 without a usable Retry-After does use the
budget (`:207-223`). The model follows the code.

**Time.** Clock readings are natural numbers of microseconds since year 1, or reals for the retry engine. A time
column of the job table stands for the text `Iso(t)`, and the lease test compares those texts.

## Model

| member | source | states |
|---|---|---|
| `RunRepository.Repository.Create` | src/mergemate/infrastructure/persistence/sqlite_repositories.py:27-60 | a row is inserted unless its id exists, nothing else changes |
| `RunRepository.Repository.Get` | src/mergemate/infrastructure/persistence/sqlite_repositories.py:62-68 | the current row or nothing |
| `RunRepository.Repository.TryUpdateStatus` | src/mergemate/infrastructure/persistence/sqlite_repositories.py:181-218 | transitions exactly if the row exists with the expected status, or with any when none is expected; then exactly status, stage and the texts given change, an empty stage keeping the old one; otherwise no row changes |
| `RunRepository.Repository.UpdatePlan` | src/mergemate/infrastructure/persistence/sqlite_repositories.py:240-266 | plan, prompt if given, and stage are stored whatever the status; status, approval and artifacts stay |
| `RunRepository.Repository.Approve` | src/mergemate/infrastructure/persistence/sqlite_repositories.py:268-304 | transitions exactly on an unapproved awaiting or queued run, which is then approved and queued with its texts kept |
| `RunRepository.Repository.SaveArtifacts` | src/mergemate/infrastructure/persistence/sqlite_repositories.py:306-347 | artifact columns that are given change; status, approval and plan never do |
| `RunRepository.ReadValuesWrittenBack` | src/mergemate/infrastructure/persistence/sqlite_repositories.py:181-347 | lost updates, exactly: a statement puts back what was read before for columns it was given nothing for, and leaves all others as they are by now |
| `RunProtocol.WriteKeepsRow` | src/mergemate/infrastructure/persistence/sqlite_repositories.py:181-347 | no UPDATE any client may issue, however stale its parameters, takes back an approval or a plan or makes a run execute without approval |
| `RunProtocol.InvNext` | src/mergemate/application/use_cases/submit_prompt.py:53-255 | every step of every client keeps the invariant: approved runs have plans, executing or completed runs are approved, and a client's earlier check still holds for what it protects |
| `RunTheorems.ApprovedAndPlannedBeforeStart` | src/mergemate/application/orchestrator.py:28-48 | in every behaviour, stale write-backs included, a starting, executing or completed run is approved with a plan on record |
| `RunTheorems.ApprovalPersists` | src/mergemate/infrastructure/persistence/sqlite_repositories.py:287-304 | rows never disappear and approval is never withdrawn, over any stretch of a behaviour |
| `RunTheorems.PhaseStep` | src/mergemate/infrastructure/persistence/sqlite_repositories.py:181-304 | each of the phases undecided, settled, launched, committed, withdrawn and finished is left only through an outdated write-back of one of the statuses listed for it |
| `RunTheorems.SingleStart` | src/mergemate/application/use_cases/submit_prompt.py:151-179 | if every revision of a run begins on it awaiting confirmation, it goes from queued to running at most once and is never queued again, whatever is written between a revision's read and its end |
| `RunTheorems.SingleStartBehindHandler` | src/mergemate/interfaces/telegram/handlers.py:193-203 | with revisions only behind the chat handler's guard and nobody acting between its read and the use case's, at most one start |
| `RunTheorems.SecondStartNeedsWriteBack` | src/mergemate/application/orchestrator.py:39-48 | between two starts of one run an outdated `queued` was written back onto it |
| `RunTheorems.SecondStartNeedsQueuedRead` | src/mergemate/application/use_cases/submit_prompt.py:151-169 | two starts of one run need a revision that read it queued |
| `RunTheorems.CancelAndApproveExclusive` | src/mergemate/application/use_cases/cancel_run.py:34-55 | a run both cancelled and approved, in either order, had an outdated `awaiting_confirmation` written back onto it in between |
| `RunTheorems.CancelledNeverExecutes` | src/mergemate/application/use_cases/cancel_run.py:41-58 | after a cancellation the run stays cancelled or failed and never executes or completes, unless `awaiting_confirmation` or, later, `queued` was written back outdated |
| `RunTheorems.StartedNeverCancelled` | src/mergemate/application/use_cases/cancel_run.py:34-55 | a started run is never cancelled, unless `awaiting_confirmation` or `cancelled` is written back outdated after the start |
| `RunTheorems.RevivedOnlyByWriteBack` | src/mergemate/infrastructure/persistence/sqlite_repositories.py:220-238 | a completed, failed or cancelled run becomes unfinished again only by an outdated unfinished status written back |
| `RunTheorems.AtomicRevisionsSuffice` | src/mergemate/application/use_cases/submit_prompt.py:144-179 | if no status changes under a revision in progress: at most one start, never both a cancellation and an approval, no execution after a cancellation, no cancellation after a start, finished runs stay finished |
| `RunHazards.StartPossibleIff` | src/mergemate/application/orchestrator.py:28-48 | in any state, some continuation starts the run if and only if it has, or a pending revision read, `queued`, or, not being approved, `awaiting_confirmation`; then also one that begins no revision |
| `RunHazards.ApprovalPossibleIff` | src/mergemate/application/use_cases/submit_prompt.py:181-228 | in any state, some continuation approves the waiting run if and only if it is not approved and has, or a pending revision read, `awaiting_confirmation` |
| `RunHazards.CancellationPossibleIff` | src/mergemate/application/use_cases/cancel_run.py:34-55 | in any state, some continuation cancels the run if and only if it has, or a pending revision read, `awaiting_confirmation`, approved or not |
| `RunHazards.RestartPossibleIff` | src/mergemate/application/orchestrator.py:39-48 | a run that has started can be started again if and only if it is queued once more or a pending revision read it queued |
| `RunWitnesses.QueuedReadRestarts` | src/mergemate/application/use_cases/submit_prompt.py:151-169 | in any behaviour, once a revision has read a run queued and it still is, two starts of it can follow |
| `RunHazards.CancelledPossibleIff` | src/mergemate/application/use_cases/submit_prompt.py:161-169 | in any state, a run can come to stand cancelled, by a cancellation or a write-back, if and only if it is or a pending revision read it awaiting confirmation or cancelled |
| `RunHazards.ExecutionPossibleIff` | src/mergemate/application/execution_plan.py:301-306 | in any state, a run, approved or not, can come to stand running, waiting for a tool or completed if and only if it can start, has or a pending revision read such a status, or a client that is not about to fail it still executes it |
| `RunHazards.CancelAfterApprovalPossibleIff` | src/mergemate/application/use_cases/cancel_run.py:34-55 | after an approval or a start a run can come to stand cancelled exactly on that condition, and by a cancellation exactly if awaiting confirmation is within reach |
| `RunHazards.RevivalPossibleIff` | src/mergemate/application/use_cases/cancel_run.py:41-58 | after a cancellation a run, approved or not, can be approved exactly if it never was and awaiting confirmation is within reach, and come to stand in execution exactly on that condition |
| `RunContinuations.BarredStep` | src/mergemate/infrastructure/persistence/sqlite_repositories.py:181-304 | what no row and no pending revision holds, no step of any client brings back |
| `RunWitnesses.ApprovedAfterCancelWitness` | src/mergemate/interfaces/telegram/handlers.py:193-203 | behaviours behind the handler's guard in which a cancelled run is approved, and in which it is started |
| `RunWitnesses.CancelledAfterStartWitness` | src/mergemate/interfaces/telegram/handlers.py:193-203 | a behaviour behind the handler's guard in which an approved and started run is cancelled |
| `RunWitnesses.CompletedAfterCancelWitness` | src/mergemate/application/execution_plan.py:295-306 | a behaviour behind the handler's guard in which a started run is cancelled, cannot start again, and can complete |
| `RunWitnesses.CancelledOverRunningWitness` | src/mergemate/interfaces/telegram/handlers.py:193-203 | a behaviour with two revisions behind the handler's guard in which a running run that nobody can cancel any more can end up cancelled |
| `RunPlans.StartsWithApprovedPlan` | src/mergemate/application/use_cases/submit_prompt.py:104-142 | a run starts with the plan it was approved with, if nobody holds another at the approval and nobody sets out to plan it before the start |
| `RunPlans.StartsReplannedIff` | src/mergemate/application/use_cases/submit_prompt.py:110-135 | an approved, queued run can start with another plan, nobody new setting out to plan it, if and only if some client can still store one |
| `RunPlans.OtherPlanWitness` | src/mergemate/interfaces/telegram/handlers.py:257-280 | a behaviour with two planning jobs and no revision in which a run starts with a plan that was not approved |
| `RunWitnesses.DoubleStartWitness` | src/mergemate/interfaces/telegram/handlers.py:193-203 | a behaviour that revises only behind the handler's guard starts one run twice, after an approval between the handler's read and the use case's |
| `RunClient.Calls` | src/mergemate/infrastructure/persistence/sqlite_repositories.py:181-347 | a protocol client's read and UPDATE with nothing in between have the effect of the repository method |
| `RunUseCases.Cancel` | src/mergemate/application/use_cases/cancel_run.py:20-59 | cancels exactly the addressed run that awaits confirmation, changes nothing else, and is a run of one protocol client |
| `RunUseCases.Approve` | src/mergemate/application/use_cases/submit_prompt.py:181-228 | succeeds exactly on a planned, unapproved run awaiting confirmation whose dispatch is accepted; a refused dispatch leaves it failed; otherwise nothing changes; a run of one protocol client |
| `RunUseCases.DispatchOrFail` | src/mergemate/application/use_cases/submit_prompt.py:230-255 | a refused dispatch marks the run failed and raises, an accepted one leaves it; plan and approval stay |
| `RunUseCases.CompletePlanning` | src/mergemate/application/use_cases/submit_prompt.py:104-142 | a failed draft fails the run; a drafted plan is stored; a run not awaiting confirmation is dispatched too, and of those exactly the queued one is approved; otherwise approval is unchanged; a run of one protocol client |
| `RunUseCases.RevisePlan` | src/mergemate/application/use_cases/submit_prompt.py:144-179 | with nobody else writing, status and approval stay and the new plan and prompt, or only the error, are stored; a run of one protocol client |
| `RunUseCases.HandlePrompt` | src/mergemate/interfaces/telegram/handlers.py:193-203 | the chat's latest run is revised exactly if it awaits confirmation with a plan; the handler's read, the use case's and its write are a run of one protocol client |
| `RunUseCases.StartRun` | src/mergemate/application/orchestrator.py:28-48 | starts exactly an approved queued run and changes nothing otherwise; a run of one protocol client |
| `RunUseCases.MarkShutdownInterrupted` | src/mergemate/application/jobs/worker.py:175-186 | a shutting worker fails exactly an unfinished run; a run of one protocol client |
| `RunUseCases.FinishRun` | src/mergemate/application/execution_plan.py:301-306 | the run is completed with its result; a step of an executing client |
| `RunUseCases.FailExecution` | src/mergemate/application/jobs/worker.py:139-147 | the run is failed with the error; a step of an executing client |
| `RunUseCases.PersistArtifacts` | src/mergemate/domain/workflows/handlers.py:115-121 | artifacts and iteration are stored, the status stays; a step of an executing client |
| `RunUseCases.StoreReplan` | src/mergemate/domain/workflows/handlers.py:215-219 | the new plan is stored, the status stays; a step of an executing client |
| `Timestamps.CivilMicros` | src/mergemate/infrastructure/persistence/sqlite_repositories.py:593-595 | stepping the calendar microsecond by microsecond agrees with the Gregorian day count in closed form |
| `Timestamps.PrintOrder` | src/mergemate/infrastructure/persistence/sqlite_repositories.py:593-624 | zero-padded fields with separators sort as text as the fields sort, for any layout |
| `Timestamps.FractionOrder` | src/mergemate/infrastructure/persistence/sqlite_repositories.py:593-624 | the optional fraction sorts as the microseconds do, also where a zero fraction is left out |
| `Timestamps.IsoOrder` | src/mergemate/infrastructure/persistence/sqlite_repositories.py:593-624 | for any two UTC date-times of years 1 to 9999 text order is time order |
| `Timestamps.IsoOrderIsTimeOrder` | src/mergemate/infrastructure/persistence/sqlite_repositories.py:616-624 | the string test on stored expiries is the time test, for every instant `datetime` can hold |
| `Timestamps.IsoReadsBack` | src/mergemate/infrastructure/persistence/sqlite_common.py:11-12 | reading stored text back gives the date-time it was written for, with or without microseconds |
| `JobTable.JobRepository.EnsureQueuedJob` | src/mergemate/infrastructure/persistence/sqlite_repositories.py:501-558 | with nobody in between: inserts exactly if the id is new and no active job of that run and type exists, else returns that job, else raises; the result is the only active one |
| `JobLease.RefusedWithoutActive` | src/mergemate/infrastructure/persistence/sqlite_repositories.py:553-557 | with other workers between the refused insert and the lookup: the caller raises only if its id was taken or the job that refused it was finished in between |
| `JobLease.RefusedWithoutClash` | src/mergemate/infrastructure/persistence/sqlite_repositories.py:553-557 | a run in which the caller raises although its id is free |
| `JobTable.JobRepository.GetActiveForRun` | src/mergemate/infrastructure/persistence/sqlite_repositories.py:568-590 | finds an active job of the run and type if there is one |
| `JobTable.JobRepository.ClaimJob` | src/mergemate/infrastructure/persistence/sqlite_repositories.py:592-627 | succeeds exactly on a queued job, or a running one whose expiry instant lies before the present; counts the claim, sets owner and lease, keeps the rest |
| `JobTable.ClaimableIff` | src/mergemate/infrastructure/persistence/sqlite_repositories.py:616-624 | the claim's text test is that time test, for every row and instant in range |
| `JobTable.JobRepository.HeartbeatJob` | src/mergemate/infrastructure/persistence/sqlite_repositories.py:629-654 | renews exactly the running job of that owner, for the lease in seconds from now, and keeps the rest |
| `JobTable.JobRepository.CompleteJob` | src/mergemate/infrastructure/persistence/sqlite_repositories.py:656-684 | an existing job ends completed without owner, lease or error; a completed one is not written again |
| `JobTable.JobRepository.FailJob` | src/mergemate/infrastructure/persistence/sqlite_repositories.py:686-715 | an existing job ends failed with the error; a failed one is not written again |
| `JobLease.ApplyKeepsTable` | src/mergemate/infrastructure/persistence/sqlite_schema.py:172-174 | no statement puts two active jobs of one run and type side by side or breaks the row invariant |
| `JobLease.JobTableInvariant` | src/mergemate/infrastructure/persistence/sqlite_repositories.py:501-715 | over all runs: unique active jobs; running iff owner and expiry, finished iff `finished_at`, failed iff `error_text`; `attempt_count` is the number of claims, `started_at` the first; the expiry is the last renewal plus the lease |
| `JobLease.FinishedForGood` | src/mergemate/infrastructure/persistence/sqlite_repositories.py:592-715 | a job that left the active set never re-enters it |
| `JobLease.JobKept` | src/mergemate/infrastructure/persistence/sqlite_repositories.py:592-715 | no job is lost, and its run, type and queueing time never change |
| `JobLease.ReclaimIffExpired` | src/mergemate/infrastructure/persistence/sqlite_repositories.py:616-624 | a running job can be claimed if and only if more than the lease has passed since its last accepted claim or heartbeat |
| `JobLease.ClaimAcceptedIff` | src/mergemate/infrastructure/persistence/sqlite_repositories.py:592-627 | over every run a claim of an existing job is accepted if and only if the job is queued, or runs and was last renewed more than the lease ago |
| `JobLease.NewJobIsClaimed` | src/mergemate/infrastructure/persistence/sqlite_repositories.py:592-627 | whoever claims a job next after its insertion gets it, as its first claim |
| `JobLease.ClaimRefusedWhileHeld` | src/mergemate/infrastructure/persistence/sqlite_repositories.py:616-624 | a claim between two beats of a holder in time is refused |
| `JobLease.HolderKeepsJob` | src/mergemate/application/jobs/worker.py:149-159 | while heartbeats come within the lease and nobody finishes the job, the holder keeps it and no claim succeeds |
| `QueueWorker.Conservation` | src/mergemate/application/jobs/worker.py:54-113 | in every state before stop: pending ids are the disjoint union of queued and in-flight ids, the unfinished counter counts them, `task_done` never underflows, no delivery is dropped as duplicate, accepted ids are delivered once and in order, at most the configured number are processed |
| `QueueWorker.LifeOfTask` | src/mergemate/application/jobs/worker.py:90-110 | every reachable task has behind it just the events of its phase: it waits or processes only after a won claim, and an ended one was refused or went all the way, once |
| `QueueWorker.ProcessedUnderClaim` | src/mergemate/application/jobs/worker.py:90-105 | in every reachable state a job is processed only under a claim its task won, never after a refused one |
| `QueueWorker.BackgroundRunWorker.Claim` | src/mergemate/application/jobs/worker.py:90-99 | a won claim leads to waiting for a slot, a refused one ends the task; no other task changes |
| `QueueWorker.InvReachable` | src/mergemate/application/jobs/worker.py:59-72 | every reachable state satisfies the queue, task, count and history invariants |
| `QueueWorker.CountsNext` | src/mergemate/infrastructure/queue/local_queue.py:12-31 | every event keeps the unfinished counter equal to the pending ids and the slots plus processing jobs constant |
| `QueueWorker.LocalQueue.Enqueue` | src/mergemate/infrastructure/queue/local_queue.py:16-22 | accepts exactly ids that are not pending, appends and counts them |
| `QueueWorker.LocalQueue.Dequeue` | src/mergemate/infrastructure/queue/local_queue.py:24-26 | takes the first queued id and leaves it pending |
| `QueueWorker.LocalQueue.Acknowledge` | src/mergemate/infrastructure/queue/local_queue.py:28-31 | drops the id and counts down, failing exactly when nothing is unfinished |
| `QueueWorker.BackgroundRunWorker.ConsumeOne` | src/mergemate/application/jobs/worker.py:54-72 | a dequeued id always becomes active: the early return for duplicates is never taken |
| `QueueWorker.BackgroundRunWorker.Acknowledge` | src/mergemate/application/jobs/worker.py:70-72 | the callback acknowledges without underflow and the id is no longer pending |
| `QueueWorker.DispatchRun` | src/mergemate/application/jobs/dispatcher.py:28-44 | afterwards the run's one active job of that type is pending in the queue, or an integrity error left both unchanged |
| `Retry.SweepKeepsInv` | src/mergemate/infrastructure/llm/gateway.py:86-90 | pruning keeps the list a suffix of the history and drops only what is older than the window |
| `Retry.RecordKeepsInv` | src/mergemate/infrastructure/llm/gateway.py:92-98 | a granted record keeps any `max_retries` + 1 consecutive records more than a window apart |
| `Retry.WindowBound` | src/mergemate/infrastructure/llm/gateway.py:69-103 | with a monotone clock and any interleaved callers, every closed interval of the window's length holds at most `max_retries` of all retries ever recorded |
| `Retry.GrantedIff` | src/mergemate/infrastructure/llm/gateway.py:92-98 | in any monotone run of interleaved callers a retry is granted and recorded exactly on that condition |
| `Retry.SweptCounts` | src/mergemate/infrastructure/llm/gateway.py:86-95 | after a sweep the pruned list has as many entries as the whole history has in the window |
| `Retry.RetryBudget.Sweep` | src/mergemate/infrastructure/llm/gateway.py:86-90 | the loop drops exactly the leading entries before the cutoff |
| `Retry.RetryBudget.CanRetry` | src/mergemate/infrastructure/llm/gateway.py:92-95 | prunes and says yes if and only if fewer than `max_retries` of all recorded retries lie in the window up to now |
| `Retry.RetryBudget.TryRecord` | src/mergemate/infrastructure/llm/gateway.py:219-223 | says yes, and records, if and only if fewer than `max_retries` of all recorded retries lie in the window up to the check |
| `Retry.FullJitterDelay` | src/mergemate/infrastructure/llm/gateway.py:161-175 | a back-off lies between zero and the capped exponential delay |
| `Retry.JitterReaches` | src/mergemate/infrastructure/llm/gateway.py:174-175 | every delay between zero and the cap is drawn by some fraction |
| `Retry.CapDoubles` | src/mergemate/infrastructure/llm/gateway.py:174 | the cap starts at the base delay and doubles with every attempt up to the maximum |
| `Retry.WithRetry` | src/mergemate/infrastructure/llm/gateway.py:181-234 | at most `max_retries` + 1 calls; only failures that may be retried are followed by a call, after exactly one sleep: the Retry-After if there is one, else a granted back-off; each of the four ways to end is tied to the last call and the budget's answer |
| `Retry.FirstSuccess` | src/mergemate/infrastructure/llm/gateway.py:195-234 | the last call succeeds if and only if some call within the attempts does after failures that may all be retried, and then it is that first one |
| `Retry.BackOffPerRetry` | src/mergemate/infrastructure/llm/gateway.py:161-175 | total back-off is at most `max_delay` for each budgeted retry |
| `Retry.BackOffGeometric` | src/mergemate/infrastructure/llm/gateway.py:161-175 | total back-off over m sleeps is at most base * (2^m - 1) |
| `ExecutionPlan.Execute` | src/mergemate/application/execution_plan.py:201-308 | the handlers called are a prefix of core (replan core)^(k-1) for the limit, each given the artifacts the one before left; every gate judges the artifact `review_text`: all earlier ones had concerns, and the last one none if it completes below the limit; every end has its cause: the next handler missing or raising, the first check to find a cancellation, or the full word past a gate that is open or at the limit, and only that completes; with nothing wrong it does |
| `ExecutionPlan.RunIteration` | src/mergemate/application/execution_plan.py:219-284 | an iteration leads into the next exactly over the whole core, a review with concerns below the limit and the replanning, or ends the run for one of the causes |
| `ExecutionPlan.RunCore` | src/mergemate/application/execution_plan.py:222-254 | one iteration calls the core stages in order, all of them or up to one that stops it for the stated cause, with the checks counted |
| `ExecutionPlan.CallStage` | src/mergemate/application/execution_plan.py:233-254 | calls a registered handler and goes on from what it makes; stops exactly if it is missing, raises, or the stage's check after it finds a cancellation |
| `ExecutionPlan.RunReplanning` | src/mergemate/application/execution_plan.py:263-284 | after a gate sent the run back, the replanning stage is called and checked after, or stops the run for the stated cause |
| `ExecutionPlan.NothingWrongCompletes` | src/mergemate/application/execution_plan.py:219-308 | with registered handlers that do not raise and no cancellation a run completes, on the full word |
| `ExecutionPlan.GateJudgesReview` | src/mergemate/application/execution_plan.py:257-261 | in generate_code the gate of iteration k sends the run back if and only if k is below the limit and the answer of that iteration's review call raises a concern |
| `ExecutionPlan.GenerateCodeChecks` | src/mergemate/domain/workflows/stage.py:114-156 | a generate_code run makes seven cancellation checks an iteration, the last one at its end |
| `ExecutionPlan.SeparateAppends` | src/mergemate/application/execution_plan.py:205-208 | the core stages are all but the replanning ones, in order, and the replanning is the first of its kind |
| `ExecutionPlan.CompletedSavesIterations` | src/mergemate/domain/workflows/handlers.py:115-248 | when a built-in workflow has run its full word of k iterations the saved `review_iterations` is k |
| `ExecutionPlan.GenerateCodeLetter` | src/mergemate/domain/workflows/stage.py:114-156 | call m of generate_code is stage m mod 6 of iteration m div 6 + 1 |
| `ExecutionPlan.LastWritten` | src/mergemate/domain/workflows/handlers.py:100-250 | at every call each artifact holds the answer of the last call that writes it, or what the run began with |
| `ExecutionPlan.ArtifactsAreFresh` | src/mergemate/domain/workflows/handlers.py:100-250 | every value a built-in handler of generate_code reads is, for the plan, the answer of the replanning just before its iteration (what the run began with in the first), and for every other product the answer of an earlier stage of its own iteration; the model's answer depends on these values alone |
| `ExecutionPlan.DesignFlow` | src/mergemate/domain/workflows/handlers.py:100-123 | the design is the model's answer to the plan its iteration begins with and the context |
| `ExecutionPlan.ImplementationFlow` | src/mergemate/domain/workflows/handlers.py:126-148 | the code is the answer to that plan, the design just made and the context |
| `ExecutionPlan.TestingFlow` | src/mergemate/domain/workflows/handlers.py:151-173 | the tests are the answer to that plan, design and code |
| `ExecutionPlan.ReviewFlow` | src/mergemate/domain/workflows/handlers.py:176-199 | the review is the answer to the plan, design, code and tests of its own iteration |
| `ExecutionPlan.ReplanningFlow` | src/mergemate/domain/workflows/handlers.py:202-221 | the plan the next iteration begins with is the answer to the prompt and that review |
| `ToolService.ToolWritesSpareFinishedRuns` | src/mergemate/application/services/tool_service.py:62-95 | under any interleaving a tool transition leaves a finished run's whole row alone and moves others only between running and waiting |
| `ToolService.TransitionsAreExecution` | src/mergemate/application/services/tool_service.py:80-95 | the two transitions around a tool, from any row, are a run of one protocol client that is executing it |
| `ToolService.ToolService.TransitionRunForTool` | src/mergemate/application/services/tool_service.py:62-95 | for a blocking tool alone on the run, the early returns change nothing beyond the conditional update |
| `ToolService.ToolService.ExecuteEnabledTool` | src/mergemate/application/services/tool_service.py:123-182 | logs one blocked event, or started and then one result; around a blocking tool a running run ends running at the resume stage with all its texts kept, a finished or pending one is untouched |
| `ToolService.ToolService.ListEnabledTools` | src/mergemate/application/services/tool_service.py:27-35 | exactly the configured tools that are registered, in order |
| `ToolService.KeptAppends` | src/mergemate/application/services/tool_service.py:27-35 | what is kept of a list of tools keeps its order and repetitions |
| `ToolService.ToolService.BuildRuntimeToolContext` | src/mergemate/application/services/tool_service.py:184-214 | the context tools run in order, each logged as a pair; a running run ends running, at the resume stage if any blocking tool ran, otherwise unchanged; stops early only after a result without a status; all of it a run of one executing client |
| `SearchIndex.InitializeAgreesIff` | src/mergemate/infrastructure/persistence/sqlite_schema.py:214-225 | opening a database leaves the index in agreement if and only if there was none yet or it agreed before |
| `SearchIndex.StatementKeepsAgreement` | src/mergemate/infrastructure/persistence/sqlite_schema.py:38-71 | with its triggers, every insert, update and delete keeps exactly one entry per row, equal to its search text |
| `SearchIndex.IndexAgreesAfterInitialization` | src/mergemate/infrastructure/persistence/sqlite_schema.py:38-91 | so after initialization and any sequence of statements the index agrees with its table |
| `SearchIndex.SearchIsScan` | src/mergemate/infrastructure/persistence/sqlite_repositories.py:95-103 | any match over an agreeing index, joined with the table, returns each row a scan would select exactly once and no other |
| `SearchIndex.EveryColumnIsSearched` | src/mergemate/infrastructure/persistence/sqlite_common.py:13-22 | each of the thirteen columns stands whole in the search text, set off by spaces |
| `SearchIndex.RunIsSearched` | src/mergemate/infrastructure/persistence/sqlite_common.py:13-22 | the id, agent, workflow, repository, status, stage, prompt, plan, design, tests, review, result and error of a run each stand whole in its search text |
| `SearchIndex.StatusReadsBack` | src/mergemate/domain/shared/value_objects.py:14-21 | the stored text of a status reads back as that status |
| `SearchIndex.SearchedTable.Insert` | src/mergemate/infrastructure/persistence/sqlite_schema.py:41-44 | the row and its one entry; a taken key changes nothing; agreement is kept |
| `SearchIndex.SearchedTable.Update` | src/mergemate/infrastructure/persistence/sqlite_schema.py:50-54 | the row's old entries give way to one new entry; agreement is kept |
| `SearchIndex.SearchedTable.Delete` | src/mergemate/infrastructure/persistence/sqlite_schema.py:46-48 | the row goes with its entries; agreement is kept |
| `SearchIndex.SearchedTable.Initialize` | src/mergemate/infrastructure/persistence/sqlite_schema.py:214-225 | rebuilds only a missing index; agrees afterwards if and only if it was missing or agreed |
| `FtsQuery.QueryRoundTrip` | src/mergemate/infrastructure/persistence/sqlite_common.py:29-41 | reading the joined query as FTS5 strings separated by AND gives back exactly the tokens, whatever they hold |
| `FtsQuery.BuildQueryReadsBack` | src/mergemate/infrastructure/persistence/sqlite_common.py:33-41 | there is no query exactly if every token is blank; otherwise it reads as the stripped non-blank tokens in order |
| `FtsQuery.QueriesDiffer` | src/mergemate/infrastructure/persistence/sqlite_common.py:33-41 | any two token lists make the same query, or none, if and only if they are the same once stripped |
| `FtsQuery.QueryAppends` | src/mergemate/infrastructure/persistence/sqlite_common.py:33-41 | a query for two token lists together asks for what each asks for, in order |
| `FtsQuery.QueryOfOne` | src/mergemate/infrastructure/persistence/sqlite_common.py:33-41 | one token is asked for stripped, and there is no query exactly if it is white space throughout |
| `FtsQuery.StripLaw` | src/mergemate/infrastructure/persistence/sqlite_common.py:38 | a token is white space, its stripped text, white space; the stripped text neither begins nor ends with any |
| `MessageSplit.SplitMessage` | src/mergemate/interfaces/telegram/message_utils.py:8-23 | terminates for every text and limit from 1; every chunk fits; a short text is its only chunk; a long one is tiled, each cut at the last newline in the second half of the limit, or at the limit |
| `MessageSplit.CutOne` | src/mergemate/interfaces/telegram/message_utils.py:18-22 | where one cut falls, what is stripped before it and skipped after it |
| `MessageSplit.FewChunks` | src/mergemate/interfaces/telegram/message_utils.py:14-22 | with n chunks, (n - 1) * max(1, limit div 2) is less than the text's length |
| `MessageSplit.OnlySpaceDropped` | src/mergemate/interfaces/telegram/message_utils.py:21-22 | the chunks with white space put back between them are the text |
| `DeepMerge.MergeInto` | src/mergemate/config/loader.py:40-55 | the loop over the override computes the merge defined key by key |
| `DeepMerge.MergeSelf` | src/mergemate/config/loader.py:40-55 | merging a layer with itself changes nothing |
| `DeepMerge.MergeAbsorbs` | src/mergemate/config/loader.py:40-55 | applying an override twice is applying it once |
| `DeepMerge.LookupDecided` | src/mergemate/config/loader.py:47-54 | a path lookup is decided by the override unless both sides hold dicts there under no replace key, or the override lacks the key |
| `DeepMerge.SettingsComeFrom` | src/mergemate/config/loader.py:47-54 | a setting of the override always wins, every setting comes from a layer, and nothing of the base is left below a replace key |
| `DeepMerge.MergeFound` | src/mergemate/config/loader.py:40-55 | at every path a merge holds what the override has there, or else what the base has, unless the override has a value that is no dict or a replace key on the way |
| `DeepMerge.LayersDecide` | src/mergemate/config/loader.py:64-75 | which of defaults, local and explicit file decides every path of the effective configuration |
| `DeepMerge.LoadRuntimeSettings` | src/mergemate/config/loader.py:64-75 | the local file is merged without replace keys, then the explicit one with `agents` |
| `DeepMerge.AssociativeIff` | src/mergemate/config/loader.py:40-55 | for any two sets of replace keys, merging under the first and then under the second can be regrouped if and only if the layers agree key by key, by a condition on the layers alone |
| `DeepMerge.MergeIsOverrideIff` | src/mergemate/config/loader.py:40-55 | a merge is the override itself if and only if every setting of the base recurs there or is replaced |
| `DeepMerge.SameMergeIff` | src/mergemate/config/loader.py:40-55 | two sets of replace keys give the same merge exactly on a condition on the layers |
| `DeepMerge.AssociativeWhenNeverInTheWay` | src/mergemate/config/loader.py:40-55 | with one set of replace keys merging is associative whenever the middle layer never puts a non-dict between two dicts |
| `DeepMerge.LayersDoNotRegroup` | src/mergemate/config/loader.py:64-75 | with the sets the configuration is loaded with it is not, whichever set the outer merge uses |
| `Documents.BuildDocumentPath` | src/mergemate/application/services/documentation_service.py:226-248 | terminates for every finite set of files with a free name: the plain one if free, else the least free counter from 2 |
| `Documents.DigitsInjective` | src/mergemate/application/services/documentation_service.py:243-248 | different counters have different decimal texts |
| `Documents.DigitsReadBack` | src/mergemate/application/services/documentation_service.py:243-248 | the decimal text of a number reads back as it |
| `Documents.NoLeadingZero` | src/mergemate/application/services/documentation_service.py:243-248 | and has no leading zero |
| `Documents.KindsNamedApart` | src/mergemate/application/services/documentation_service.py:234-239 | documents of one plan and iteration have the same plain name if and only if they are of the same kind |
| `Documents.IterationsNamedApart` | src/mergemate/application/services/documentation_service.py:234-239 | documents of one plan and kind have the same plain name if and only if their iteration is the same, or neither is past the first |
| `Documents.SlugShape` | src/mergemate/application/services/documentation_service.py:271-275 | a slug is non-empty, at most 80 characters, letters, digits and single inner dashes; it keeps the letters in order up to the cut, and is the fallback exactly for a text without any |
| `Documents.SlugJoinsWords` | src/mergemate/application/services/documentation_service.py:271-275 | a slug is the words of the lower-cased text joined by dashes, cut at 80 characters or one before if that would leave a dash, and `work-item` if there is no word |
| `Documents.SlugifyIdempotent` | src/mergemate/application/services/documentation_service.py:271-275 | slugifying a slug changes nothing |

## Left out

- RunTheorems.SingleStart: without its condition single start is false of the code, as `RunWitnesses.QueuedReadRestarts` shows.
- RunTheorems.CancelAndApproveExclusive: exclusion without a condition is false of the code; the exact conditions are in `RunHazards`, the witnesses in `RunWitnesses`.
- RunTheorems.RevivedOnlyByWriteBack: completed and failed can still overwrite each other and cancelled, because `update_status` without an expected status is unconditional.
- RunUseCases.HandlePrompt: finding the chat's latest unfinished run, the submission of a new prompt and the replies are left out.
- RunUseCases.Cancel: cancelling a chat's latest unfinished run without naming it is not modelled; it differs only in how the run is found.
- RunUseCases.DispatchOrFail: a `JobQueueError` from the queue is not a `RuntimeError` and passes uncaught; the protocol covers it as a client that leaves.
- RunUseCases.StartRun: what follows the compare-and-swap up to the execution plan (prompts, context, learnings) is left out.
- JobTable.JobRepository.CompleteJob: neither the owner nor the opposite terminal status is tested, as in the code, so completed and failed can swap.
- JobTable.JobRepository.ClaimJob: years from 10000 on are excluded by its precondition, where Python's `datetime` raises.
- JobLease.HolderKeepsJob: supposes that the clock readings used on the job do not run backwards; the wall clock itself promises nothing.
- Retry.WithRetry: the budget's answers are an arbitrary function of the attempt; the budget itself is proved apart, over interleaved callers.
- Retry.WindowBound: supposes a monotone clock, which `time.monotonic` is.
- QueueWorker.Conservation: holds before `stop`; cancelling tasks and the bookkeeping of a shutdown are not modelled, except that the shutdown's status write is a step of the run protocol.
- ExecutionPlan.Execute: the final result text, the learning entry and the single-stage direct plan are left out; handler answers and cancellation checks are arbitrary functions.
- ExecutionPlan.ArtifactsAreFresh: what handlers save as documents and pass to prompts beside the artifacts is left out.
- ToolService.ToolService.BuildRuntimeToolContext: the layout of the returned text is left out; an empty resume stage keeps the tool's stage, as `current_stage or existing` does.
- FtsQuery.BuildQueryReadsBack: the shell-style splitting of the user's text (`shlex`) is library code, so the tokens are arbitrary.
- SearchIndex.SearchIsScan: ranking, limit, tokenizer and the LIKE fallback are left out; a match is any predicate on the search text.
- SearchIndex.InitializeAgreesIff: columns added later to an old database do not fire triggers, which the condition on the earlier index covers; VACUUM is left out.
- Documents.SlugShape: Unicode normalization is library code; the slug is taken from the ASCII text it leaves.
- The statement of approval in the command line's `resume`, which tests no plan, is outside the protocol.
- Reads that only guard a tool transition or a progress message are not steps of the protocol; it allows their writes from any executing client, which is more than the code does.
- Lost updates of texts by two writers with stale reads happen in the model as in the code and are not excluded.
- Rounding of a floating-point lease or delay, HTTP, the OpenAI adapter, subprocess tools, the Telegram bot, the health server, logging and file writes.
- Soul texts, prompt rendering, registries, field checks of the configuration and the duration estimator, which would add only easy members.
