# Incident analyzer: the lease queues, the outbox and the evidence pipeline

The incident analyzer receives Grafana alerts, analyses each one once, and tells Slack. This
project models the part of it that has to be right under concurrency and failure, and the two
algorithms at its edges, and proves what they promise.

**Queues, outbox and workers.** An incident is created under a unique episode key (dedup key and
start time) together with one analysis job. Workers claim jobs by lease, oldest first, collect
evidence, let Gemini analyse it, and then complete the job, fail it with backoff, or die. A
completed job writes, in one transaction, an evidence bundle, a result and a Slack delivery row.
The delivery row goes through a second lease queue of the same shape.

**Evidence.** Two Loki responses are grouped by signature within a line limit, the twenty largest
groups of each become evidence, ten of each source are kept and numbered, and the list is cut
from its end until the bundle fits 16 KiB.

**Migration 0004.** Repeated episodes are deleted, children first, keeping the least incident id,
so that the unique key the creation code relies on can be added.

## How it is built

- `LeaseQueue` is one abstract queue. `analysis_jobs` and `notification_deliveries` are its two
  instances; they differ in labels and in the delay before a retry. A row carries, beside its
  columns, a ledger of its claims: who, when, whether Slack accepted a message under the claim,
  and how the claim ended. `LeaseLaws` and `QueueProgress` hold what is proved about any legal
  run of such a queue.
- `Store` gives each repository transaction as one atomic step on the tables; a transaction that
  raises returns the tables unchanged. `Creation` says what a batch of create commands amounts to.
- `Database` has the repositories as a class over mutable row objects. Each method is proved to
  do exactly the step in `Store`, without disturbing any other row object.
- `Workers` is the small-step system. Everything the program does not decide is part of an event:
  the clock, the rows other transactions hold locked, the answers of Loki, Gemini and Slack, a
  database fault, a crash. A run is any sequence of events, so a theorem about runs covers every
  interleaving of any number of workers with the webhook: stale workers, expired leases, crashes
  between any two steps, and `fail` called after a committed `complete`.
- `SystemInvariant` is the invariant of that system and its proof; `QueueRuns` shows that both
  tables of every run are legal runs of the abstract queue. `Guarantees` states the results for
  every reachable state: after any run from empty tables, or from tables that migration 0004 has
  cleaned, with the workers that held leases gone. `Counterexamples` has the runs that show what is
  not promised.
- `Contents` says that what workers hold is what the tables say, and that what is stored is what a
  worker decided.
- `WorkerProcess` has `run_once` and `deliver_notification_once` as methods, shows that such a call
  is a run of the system, and says what a call without interference leaves. `Calls` spells out what
  a call does to the row it takes, for every answer of Loki, Gemini and Slack. `OneWorker` builds on
  both: from every reachable state one worker alone finishes everything.
- `EvidenceJson` writes a bundle out as JSON text and shows that the size truncation goes by is the
  length of that text in UTF-8.
- `Evidence`, `Grouping`, `Loki`, `Analysis` and `Slack` follow the source files of those names;
  `Migration` follows revision 0004; `Common` is vocabulary.

Times are microseconds. A row's id is its position in its table. Worker ids are not reused and a
worker handles one row at a time; that is what `build_worker_id` and the sequential main loop
give (`incident-analyzer/app/worker.py:27-28`, `:140-147`), and fencing rests on it because the
code compares worker ids and has no claim token. Only lease exclusion and the absence of
starvation assume a clock that does not go back: `now` is read before a row is locked.

The ledger also records whether Slack received a message and whether its "ok" reached the worker.
These differ: an answer can be lost, come too late, or be that of a proxy, so every error may or may
not hide a received message, and the event decides which.

## What the code does not promise

- `job_max_attempts` and `notification_max_attempts` do not bound `attempt_count`. The query for
  expired leases has no check of the limit, so `Counterexamples.AttemptsAreUnbounded` has, for every
  n, a run with n attempts. A row has kept to the limit iff it was taken over no more often than
  `LeaseLaws.WithinLimitIff` says; `LeaseLaws.LimitKeptIff` is the condition for one claim, and
  `LeaseLaws.RetryBound` what does hold: attempts other than takeovers stay within the limit.
- `_combine_evidence` reserves half of the places for each source, as its comment says, but
  `_bundle` cuts from the end of the combined list. `Loki.SecondSourceHeardIff` gives the exact
  conditions: MySQL evidence is left iff the list that ends with its first item fits, and every
  reserved place is kept iff the whole list fits. `Loki.HeavyLinesCrowdOut` gives a family of inputs
  for which none is left, and `Loki.ReservationCanBeLost` ten log lines of that family.
- The analyzer's README names one cause of a duplicate message, a worker that dies after Slack has
  received it. There are two more: a worker whose lease runs out while it waits for Slack, and an
  answer that does not reach the worker, which retries. The bounds of
  `Guarantees.NotificationDuplicates` count lease takeovers and lost answers and so cover all three.
  Without any takeover Slack can hold as many copies as there are attempts
  (`Counterexamples.SentWithCopies`), and it can hold them while the delivery is DEAD
  (`Counterexamples.DeadThoughReceived`).

## Model

| member | source | states |
|---|---|---|
| Guarantees.OutboxOnEveryRun | incident-analyzer/app/persistence/repositories.py:152-227 | after every run from empty tables a job is SUCCEEDED iff its incident and revision have exactly one bundle, one result and one delivery; otherwise they have none |
| Guarantees.OutboxAfterMigration | incident-analyzer/app/persistence/repositories.py:152-227 | the same after every run on migrated tables, except that a result which had no delivery before the migration has none |
| Guarantees.NextDelivers | incident-analyzer/app/persistence/repositories.py:180-222 | no event leaves a result without a delivery that was not there before |
| Guarantees.MigratedSatisfiesInv | incident-analyzer/migrations/versions/0004_incident_episode_dedup.py:12-41 | what the migration leaves satisfies the invariant of the running system, so every guarantee covers the runs after it |
| Guarantees.Reached | incident-analyzer/app/worker.py:140-147 | every reachable state satisfies the invariant |
| Guarantees.StoredNeverChanges | incident-analyzer/app/persistence/repositories.py:180-222 | bundles and results, once stored, keep their place and content through anything that follows |
| Guarantees.UnreachableBranches | incident-analyzer/app/persistence/repositories.py:135-137 | no reachable state makes claim_next of either queue raise its "missing" error, nor makes complete find an existing result or break a constraint |
| Guarantees.EvidenceClosure | incident-analyzer/app/worker.py:50-71 | every stored result is valid and refers only to ids of the bundle stored under its key; those ids are L1..Lk with k from 1 to 20, and at most A1 |
| Contents.DecisionIsStored | incident-analyzer/app/persistence/repositories.py:180-227 | when a worker that owns its job completes it, exactly the bundle and the analysis it holds are stored under the job's key, with a delivery that is due at once |
| Contents.NothingElseIsStored | incident-analyzer/app/persistence/repositories.py:180-227 | no other event adds, changes or removes a bundle or a result |
| Contents.EveryResultWasDecided | incident-analyzer/app/worker.py:67-71 | every result a run adds is the analysis, and its bundle the evidence, that some worker held when it completed the job |
| Contents.AnalysesItsIncident | incident-analyzer/app/persistence/repositories.py:135-150 | in every reachable state a worker on a job holds the incident of that job |
| Contents.AnnouncesTheStoredResult | incident-analyzer/app/persistence/repositories.py:284-306 | in every reachable state a worker on a delivery holds its incident and exactly the result stored under its key |
| Guarantees.JobFencing | incident-analyzer/app/persistence/repositories.py:172-173 | complete or fail of a job changes the tables iff the worker's claim is still open, and then it is the row's latest claim; otherwise complete kills the process and fail is a no-op, also after the worker's own complete |
| Guarantees.DeliveryFencing | incident-analyzer/app/persistence/repositories.py:321-345 | the same for deliveries, and complete is reported exactly by claims whose message Slack accepted |
| Guarantees.JobLedger | incident-analyzer/app/persistence/repositories.py:229-253 | for every job of every reachable state: attempts = completes + fails + takeovers + the open lease; owner and lease are set iff leased; attempts apart from takeovers within the limit; attempts within it iff takeovers are at most what requeues and the last claim leave; total requeue delay at most 5m(m-1)/2 seconds |
| Guarantees.DeliveryLedger | incident-analyzer/app/persistence/repositories.py:329-356 | the same balance and conditions for every delivery; requeue delay without Retry-After at most 5(2^(m-1)-1) seconds up to m = 7 and 315+300(m-7) beyond; each explicit delay from 1 to 3600 seconds |
| Guarantees.NotificationDuplicates | incident-analyzer/README.md:85-88 | the copies of a delivery's message that Slack holds are at most 1 + takeovers + lost answers, and at most the attempt limit + takeovers; SENT without takeovers means exactly 1 + lost answers; no claim whose "ok" was read ends in fail |
| Guarantees.JobLedgerIsTheRun | incident-analyzer/app/persistence/repositories.py:138-143 | through any run the ledger of a job grows by exactly the claims, takeovers, completes and fails performed on it |
| Guarantees.DeliveryLedgerIsTheRun | incident-analyzer/app/persistence/repositories.py:293-298 | the same for a delivery, and by the messages Slack received and those whose "ok" was read |
| Counterexamples.AttemptsAreUnbounded | incident-analyzer/app/persistence/repositories.py:119-139 | for any settings and any n there is a run after which a job that has not ended has been attempted n times |
| Counterexamples.SentWithCopies | incident-analyzer/app/notifications/slack.py:43-44 | for every n up to the attempt limit there is a run without takeovers after which the delivery is SENT and Slack holds n copies |
| Counterexamples.DeadThoughReceived | incident-analyzer/app/notifications/slack.py:43-44 | there is a run without takeovers after which the delivery is DEAD and Slack holds a copy for every attempt |
| Guarantees.EndedJobsStay | incident-analyzer/app/persistence/repositories.py:223-253 | a job that is SUCCEEDED or FAILED in a reachable state keeps all its columns through any further run |
| Guarantees.EndedDeliveriesStay | incident-analyzer/app/persistence/repositories.py:323-356 | so does a delivery that is SENT or DEAD |
| Guarantees.JobLeaseExclusion | incident-analyzer/app/persistence/repositories.py:119-141 | with a clock that does not go back, no two claims of a job are unreported within their leases at the same time |
| Guarantees.DeliveryLeaseExclusion | incident-analyzer/app/persistence/repositories.py:264-296 | the same for deliveries |
| Guarantees.JobsDoNotStarve | incident-analyzer/app/persistence/repositories.py:117-132 | a job that is due is passed over at most once by each row that waits ahead of it, apart from takeovers and claims that found it locked, whatever arrives or is requeued meanwhile; a claim that did not find it locked takes a row ahead of it |
| Guarantees.DeliveriesDoNotStarve | incident-analyzer/app/persistence/repositories.py:262-281 | the same for deliveries |
| Guarantees.OneJobPerIncident | incident-analyzer/app/persistence/repositories.py:99-107 | through every run the i-th job is that of the i-th incident, revision 1, and there are as many jobs as incidents |
| Guarantees.WorkPerJob | incident-analyzer/app/config.py:35-38 | from any reachable state a run takes at most 2(J+D) claims of waiting rows and outcomes per job, J and D being the attempt limits |
| Guarantees.BoundedWork | incident-analyzer/app/config.py:35-38 | from empty tables that is 2(J+D) per incident |
| OneWorker.OneWorkerFinishes | incident-analyzer/app/worker.py:140-147 | from every reachable state, whatever the services answer, one new worker alone and a clock that only advances bring every job and delivery to its end, with at most one call of run_once for two units of the jobs' rank and leases and at most J+D calls per job |
| Guarantees.QuiescenceOnEveryRun | incident-analyzer/app/worker.py:143-147 | nothing is left to claim at any time iff every job is SUCCEEDED or FAILED and every delivery SENT or DEAD |
| SystemInvariant.StepKeepsInv | incident-analyzer/app/worker.py:31-137 | when one worker's transaction is legal, the tickets, ownership and rows of all other workers stay right |
| SystemInvariant.NextKeepsInv | incident-analyzer/app/worker.py:31-137 | every event, in every phase of every worker, keeps the invariant of tables, ledgers and workers |
| SystemInvariant.RunKeepsInv | incident-analyzer/app/worker.py:140-147 | every run keeps it |
| SystemInvariant.OwnsIffOpen | incident-analyzer/app/persistence/repositories.py:245-246 | for a worker's ticket, the worker-id comparison succeeds iff the claim it took is still open |
| SystemInvariant.CompletionOutcomes | incident-analyzer/app/persistence/repositories.py:166-180 | complete either stores everything or finds ownership lost; its other branches do not happen |
| SystemInvariant.SourcesPresent | incident-analyzer/app/persistence/repositories.py:284-292 | a claimed job has its incident, a claimed delivery its incident and result |
| SystemInvariant.JudgedOutcomes | incident-analyzer/app/worker.py:50-94 | what follows collection ends either in a numbered bundle with a closed valid result, or in a failure that carries no Retry-After; which of them is stated by Calls.AnalysedIsVerdict |
| QueueRuns.RunSimulatesQueues | incident-analyzer/app/persistence/repositories.py:111-356 | both tables of every run evolve as legal runs of the one abstract lease queue |
| LeaseQueue.ScanFindsLeast | incident-analyzer/app/persistence/repositories.py:117-132 | the scan finds nothing iff no unlocked row is eligible, and otherwise the eligible row that is first by (available_at, id) |
| LeaseQueue.NextRowIffLeast | incident-analyzer/app/persistence/repositories.py:262-281 | a row is the one taken iff it is the least eligible unlocked row |
| LeaseQueue.QueryIsExact | incident-analyzer/app/persistence/repositories.py:117-132 | the same in columns: not locked, due, waiting or with a lease that has run out, and no such row has an earlier (available_at, id) |
| LeaseQueue.ConsistentKept | incident-analyzer/app/persistence/repositories.py:138-143 | every legal operation keeps status, attempts, owner, lease, times and failure code in agreement with the ledger |
| LeaseQueue.RunKeepsConsistent | incident-analyzer/app/persistence/repositories.py:111-356 | so does every run, for every row |
| LeaseLaws.AttemptsConserved | incident-analyzer/app/persistence/repositories.py:138-143 | attempt_count balances completes, fails, takeovers and the lease still held; a row completes at most once |
| LeaseLaws.RetryBound | incident-analyzer/app/persistence/repositories.py:247-248 | a waiting row has attempts left; claims of a waiting row number its requeues plus one, and never exceed the limit |
| LeaseLaws.LimitKeptIff | incident-analyzer/app/persistence/repositories.py:119-139 | a claim keeps attempt_count within the limit iff the row is waiting or has attempts left; the failing case is the takeover of a row that has none |
| LeaseLaws.WithinLimitIff | incident-analyzer/app/persistence/repositories.py:119-139 | a row's attempt_count is within the limit iff its takeovers are at most the limit less its requeues and its last claim |
| LeaseLaws.RetryAfterHonoured | incident-analyzer/app/persistence/repositories.py:347-352 | a delivery that fails with Retry-After n is due again exactly n seconds later, and the ledger says so |
| LeaseLaws.DeliveryRetryDelay | incident-analyzer/app/persistence/repositories.py:349-352 | without one it is due after 5 seconds doubled with each attempt, at most 300 |
| LeaseLaws.JobRetryDelay | incident-analyzer/app/persistence/repositories.py:247-249 | a failed job is due again after five seconds for each attempt it has used |
| LeaseLaws.JobBackoffBound | incident-analyzer/app/persistence/repositories.py:247-249 | all requeues of a job together delay it by at most 5m(m-1)/2 seconds, takeovers in between included |
| LeaseLaws.DeliveryBackoffBound | incident-analyzer/app/persistence/repositories.py:346-352 | the closed bound on a delivery's own backoff, below and above the cap of 300 seconds, and the range of the delays Slack asked for |
| LeaseLaws.AcceptedBound | incident-analyzer/app/worker.py:111-136 | messages whose "ok" was read against takeovers, for every status of a delivery; none of them was failed |
| LeaseLaws.DuplicationBound | incident-analyzer/app/worker.py:111-136 | copies received against takeovers, lost answers and the attempt limit, for every status of a delivery |
| LeaseLaws.LedgerIsTheRun | incident-analyzer/app/persistence/repositories.py:111-356 | over any legal run the ledger of a row grows by exactly the operations performed on that row |
| LeaseLaws.ColumnsOfRun | incident-analyzer/app/persistence/repositories.py:223-253 | after any run a row's status, lease, failure code and update time are those of its last claim or outcome, its time to run is that set by its last fail, and its identity is unchanged |
| LeaseLaws.RunChronological | incident-analyzer/app/persistence/repositories.py:115-141 | with a clock that does not go back, the claims of every row stay in order of time |
| LeaseLaws.LeaseExclusion | incident-analyzer/app/persistence/repositories.py:122-126 | two different claims of a row are never both unreported within their leases |
| LeaseLaws.LeaseBlocksClaims | incident-analyzer/app/persistence/repositories.py:119-128 | a leased row is claimed again only strictly after its lease, a waiting row not before its time |
| QueueProgress.RowRankFalls | incident-analyzer/app/persistence/repositories.py:223-253 | the rank of a row falls with every claim of a waiting row and every outcome, and stays with takeovers and sends |
| QueueProgress.EffectiveStepsBounded | incident-analyzer/app/persistence/repositories.py:111-356 | over any run, steps other than takeovers are paid for by the rank of the rows at the start and of those inserted |
| QueueProgress.BecomesEligible | incident-analyzer/app/persistence/repositories.py:264-273 | a row that has not ended is eligible exactly from a finite time on, as long as it stays as it is |
| QueueProgress.WorkLeftStep | incident-analyzer/app/persistence/repositories.py:223-253 | rank plus leases never grows without an insertion, and every outcome lowers it by two |
| QueueProgress.QuiescentIffTerminal | incident-analyzer/app/persistence/repositories.py:133-134 | claim_next returns nothing at every time iff all rows have ended |
| QueueProgress.TerminalAbsorbs | incident-analyzer/app/persistence/repositories.py:321-327 | no operation changes a row that has ended, except the ledger entry of a message accepted late |
| QueueProgress.RunKeepsTerminal | incident-analyzer/app/persistence/repositories.py:223-253 | through any run an ended row keeps all its columns |
| QueueProgress.AheadNeverGrows | incident-analyzer/app/persistence/repositories.py:83-90 | once a row is due, no new or requeued row comes to stand before it |
| QueueProgress.OvertakerIsAhead | incident-analyzer/app/persistence/repositories.py:275-280 | a claim that passes over a due, unlocked row takes a row ahead of it, which then no longer waits there |
| QueueProgress.NoStarvation | incident-analyzer/app/persistence/repositories.py:117-132 | over a whole run a due row is passed over at most (rows waiting ahead + takeovers + claims that found it locked) times |
| Store.OutboxExact | incident-analyzer/app/persistence/models.py:64-117 | counts of bundle, result and delivery rows for a job's key: one each iff it succeeded, else none; only a result that never had a delivery lacks one |
| Store.OutboxOnlyForJobs | incident-analyzer/app/persistence/models.py:64-117 | no bundle, result or delivery exists for a key without a job |
| Store.DeliveriesWithinJobs | incident-analyzer/app/persistence/models.py:108-117 | there are never more deliveries than jobs |
| Store.CompleteKeepsSound | incident-analyzer/app/persistence/repositories.py:180-227 | complete by the owner of a job that has not succeeded meets no constraint and keeps uniqueness, the outbox and evidence closure |
| Store.CreateLoopKeepsSound | incident-analyzer/app/persistence/repositories.py:68-108 | a batch that does not raise keeps them too |
| Creation.BatchCreatesFirstNew | incident-analyzer/app/persistence/repositories.py:64-108 | the tables grow by exactly the first occurrence of each new episode, in order, one incident and one job each; created lists those; the episodes are the old ones and the commands' |
| Creation.NewRowsAreCommands | incident-analyzer/app/persistence/repositories.py:70-107 | each new incident has its command's columns, and its job waits untried and due at the time it was made; created names them |
| Creation.BatchRaisesIff | incident-analyzer/app/persistence/repositories.py:91-100 | a batch raises iff an item meets a fault, draws an id that is taken, or is new and meets a fault at its job; then the tables are as before |
| Creation.DuplicateIff | incident-analyzer/app/persistence/models.py:15-17 | a command without a fault is a duplicate iff an incident has its dedup key and start time |
| Creation.CreateOneOrRaise | incident-analyzer/app/persistence/repositories.py:28-62 | create_with_job succeeds iff the command is new, as a batch of one; otherwise it raises and changes nothing |
| Creation.UntroubledSucceeds | incident-analyzer/app/persistence/repositories.py:91-98 | without a fault and with new ids a batch does not raise, however many episodes repeat |
| Creation.RerunIsNoOp | incident-analyzer/app/persistence/repositories.py:95-97 | commands whose episodes all exist change nothing and create nothing |
| Creation.BatchThenRerun | incident-analyzer/app/persistence/repositories.py:64-108 | in particular the same batch again, in any order and with repeats |
| Creation.BatchesCompose | incident-analyzer/app/persistence/repositories.py:68-108 | one batch a + b raises iff a then b does, and otherwise gives the same tables and the concatenated created lists |
| Database.QueueRow.Claim | incident-analyzer/app/persistence/repositories.py:138-143 | claim_next's assignments in place: the whole new row, a taken-over claim closed in the ledger |
| Database.QueueRow.Complete | incident-analyzer/app/persistence/repositories.py:323-327 | complete's assignments in place |
| Database.QueueRow.Fail | incident-analyzer/app/persistence/repositories.py:346-356 | fail's assignments in place for both queues: retry or end, the delay, the cut failure code |
| Database.SelectNext | incident-analyzer/app/persistence/repositories.py:117-132 | the query as a scan over row objects finds the row NextRowIffLeast characterises |
| Database.Repositories.CreateWithJob | incident-analyzer/app/persistence/repositories.py:28-62 | creates incident and job, or raises and leaves every table as it was |
| Database.Repositories.CreateEach | incident-analyzer/app/persistence/repositories.py:69-108 | the savepoint loop over row objects does what Creation says, keeping the existing row objects |
| Database.Repositories.CreateManyWithJobs | incident-analyzer/app/persistence/repositories.py:64-108 | a batch that raises restores all tables |
| Database.Repositories.ClaimJob | incident-analyzer/app/persistence/repositories.py:112-150 | claims the least eligible job and changes no other row object, or changes nothing |
| Database.Repositories.CompleteJob | incident-analyzer/app/persistence/repositories.py:152-227 | the ownership check, the existing-result query, three inserts and the status in one step, each error leaving the tables alone |
| Database.Repositories.FailJob | incident-analyzer/app/persistence/repositories.py:229-253 | a failure report changes the worker's own row only, and nothing without ownership |
| Database.Repositories.ClaimDelivery | incident-analyzer/app/persistence/repositories.py:257-306 | claims the least eligible delivery whose sources exist, or changes nothing |
| Database.Repositories.CompleteDelivery | incident-analyzer/app/persistence/repositories.py:308-327 | ends the delivery as SENT, or reports lost ownership and changes nothing |
| Database.Repositories.FailDelivery | incident-analyzer/app/persistence/repositories.py:329-356 | a failure report changes the worker's own delivery only |
| WorkerProcess.RunOnceIsARun | incident-analyzer/app/worker.py:31-94 | a call of run_once without interference equals the run of its four events, so every guarantee applies to it |
| Calls.JobClaim | incident-analyzer/app/persistence/repositories.py:112-150 | a claim leases the job until now + job_lease_seconds, counts an attempt, leaves every other row alone, and hands out the job's incident |
| Calls.DeliveryClaim | incident-analyzer/app/persistence/repositories.py:257-306 | likewise a delivery until now + notification_lease_seconds, with its incident and its result |
| Calls.AnalysedIsVerdict | incident-analyzer/app/worker.py:44-94 | collection, alert evidence, the question whether to ask Gemini and its answer give exactly: stored, INVALID_ANALYSIS for good, or DEPENDENCY_UNAVAILABLE to be retried |
| Calls.RunOnceOutcome | incident-analyzer/app/worker.py:37-94 | so after the call: the job has succeeded and precisely that bundle and analysis are stored; or it is FAILED with INVALID_ANALYSIS at any attempt count; or it has DEPENDENCY_UNAVAILABLE and waits iff attempts are left, five seconds per attempt |
| Calls.AbortOutcome | incident-analyzer/app/worker.py:73-93 | an exception at any other point ends by the same two clauses |
| Calls.LateErrorIsHarmless | incident-analyzer/app/worker.py:70-94 | an exception after complete has committed is reported and changes nothing |
| Calls.DeliverOnceOutcome | incident-analyzer/app/worker.py:97-137 | for every answer of Slack: the status, code and time to run of the delivery after the call, a 429 being kept to the second within 1..3600 |
| WorkerProcess.DeliverOnceIsARun | incident-analyzer/app/worker.py:97-137 | the same for deliver_notification_once |
| WorkerProcess.RunOnceAlone | incident-analyzer/app/worker.py:37-94 | without interference run_once claims the least job due and completes it iff the analysis is ready, else fails it, both as legal steps of the queue, and is idle again; with no job due it changes nothing |
| WorkerProcess.RunOnceEnds | incident-analyzer/app/worker.py:37-94 | that job has used one attempt and has succeeded, waits iff the failure is retryable with attempts left, or has failed |
| WorkerProcess.DeliverOnceAlone | incident-analyzer/app/worker.py:104-137 | without interference deliver_notification_once claims the least delivery due, sends, and completes iff Slack's "ok" was read, else fails it |
| WorkerProcess.DeliverOnceEnds | incident-analyzer/app/worker.py:104-137 | that delivery has used one attempt and is SENT, waits iff the error is retryable with attempts left, or is DEAD |
| WorkerProcess.Worker.Investigate | incident-analyzer/app/worker.py:44-94 | collection, alert evidence attached in place and the decision, with exceptions turned into the two failure reports |
| WorkerProcess.Worker.RunOnce | incident-analyzer/app/worker.py:31-94 | the driver with its row objects does exactly that run, and returns whether there was a job |
| WorkerProcess.Worker.DeliverOnce | incident-analyzer/app/worker.py:97-137 | claim, send, complete or fail over the row objects does exactly that run |
| Slack.SendOutcomes | incident-analyzer/app/notifications/slack.py:37-58 | which answers are retried, which count as accepted, that only 429 carries a delay, that it is the value of 1..3600 nearest to Slack's, and 1 when the header is missing or no number |
| Analysis.DecisionIsStorable | incident-analyzer/app/llm/gemini_client.py:54-62 | whatever Gemini answers, what run_once goes on to store is valid and closed over the bundle's ids |
| Analysis.AskedIffWorthAsking | incident-analyzer/app/worker.py:53-69 | Gemini is asked iff there is alert data or an OK item that was seen; what is stored is its own answer, and only if that follows the rules; otherwise the stand-in analysis |
| Analysis.StorableIffAnswerOk | incident-analyzer/app/domain/analysis.py:28-59 | the rules written out: bounds, one to five known ids for every fact, hypothesis and excluded candidate, no confirmed root cause, no hypothesis without enough evidence |
| Analysis.InsufficientNamesStatuses | incident-analyzer/app/llm/client.py:23-45 | the stand-in analysis claims nothing and names the collected statuses, sorted, once each |
| Analysis.AcceptedIffStorable | incident-analyzer/app/domain/analysis.py:41-59 | for useful evidence an answer is accepted iff it passes the field bounds and conclusion rules and refers to known ids only |
| Evidence.DecimalInjective | incident-analyzer/app/collectors/loki.py:257-258 | different positions get different ids |
| Evidence.DecimalReadsBack | incident-analyzer/app/collectors/loki.py:257-258 | an id's numeral is decimal, without a leading zero, and reads back as the position |
| Evidence.WellNumberedIds | incident-analyzer/app/domain/evidence.py:41-45 | the ids a bundle offers are exactly L1..Lk and A1 if there is alert evidence, all different |
| Evidence.BuildAlertEvidence | incident-analyzer/app/collectors/alert.py:6-23 | no labels give no item; otherwise one item, A1, with exactly the five labels and the values; it is a validation error iff a label is longer than 256 or there are more than ten values or one that is not a number |
| Common.LessIff | incident-analyzer/app/collectors/loki.py:168-170 | strings compare by their first difference in code points, a prefix first |
| Grouping.GroupApplication | incident-analyzer/app/collectors/loki.py:130-155 | the nested loop that re-adds the group sizes consumes exactly the first min(limit, N) lines over all streams |
| Grouping.GroupMysql | incident-analyzer/app/collectors/loki.py:186-214 | the loop with a counter consumes the same lines, and fails iff one of them does not parse |
| Grouping.TotalIsLineCount | incident-analyzer/app/collectors/loki.py:133 | the sum the loop recomputes equals the number of lines taken |
| Grouping.GroupsAreExact | incident-analyzer/app/collectors/loki.py:153-155 | a group is in the dict iff it holds all samples of its signature in line order; each signature once |
| Grouping.SortGroupsSorts | incident-analyzer/app/collectors/loki.py:168-170 | sorting keeps the groups and orders them strictly by (-count, signature) |
| Grouping.TopGroupsAreExact | incident-analyzer/app/collectors/loki.py:168-170 | twenty groups or all there are, in strict order, each complete |
| Grouping.TopGroupsAreLargest | incident-analyzer/app/collectors/loki.py:227-229 | a dropped group has no more lines than any kept one and comes after it |
| Grouping.RankingIgnoresOrder | incident-analyzer/app/collectors/loki.py:168-170 | the signatures and counts of the top groups do not depend on the order of the lines |
| Loki.NormalizeApplicationResponse | incident-analyzer/app/collectors/loki.py:124-180 | loop, empty case and top groups together give the specified evidence; a failed query gives the failure item |
| Loki.NormalizeMysqlResponse | incident-analyzer/app/collectors/loki.py:182-239 | the same for MySQL, where an unparsable line fails the response |
| Loki.ApplicationStates | incident-analyzer/app/collectors/loki.py:113-180 | application evidence is the failure item iff the query failed, the no-data item iff no line came within the limit, and else the first twenty signatures, all OK |
| Loki.MysqlStates | incident-analyzer/app/collectors/loki.py:113-239 | so is MySQL evidence, which also fails iff a line within the limit does not parse |
| Loki.ItemsAreFirst | incident-analyzer/app/collectors/loki.py:168-180 | the items fall by count and equal counts rise by signature; a signature not shown ranks after all twenty shown |
| Loki.PlacesShowFirst | incident-analyzer/app/collectors/loki.py:254-259 | the places of each source in the combined list show its first ten signatures in that order |
| Loki.EvidenceIsExact | incident-analyzer/app/collectors/loki.py:171-180 | every item states how often its signature occurs among the lines taken and shows its first two samples |
| Loki.ApplicationIgnoresOrder | incident-analyzer/app/collectors/loki.py:124-180 | if the limit cuts nothing off, application lines and streams in any order give the same statuses, signatures and counts |
| Loki.MysqlIgnoresOrder | incident-analyzer/app/collectors/loki.py:182-239 | so do MySQL lines, and one that does not parse fails the response in every order |
| Loki.LinesWithinLimits | incident-analyzer/app/domain/evidence.py:7-14 | evidence from up to 200 lines is within the field limits, 1 to 20 items |
| Loki.CombineEvidence | incident-analyzer/app/collectors/loki.py:251-259 | renumbering in place gives the combined list |
| Loki.CombinedReserves | incident-analyzer/app/collectors/loki.py:255-259 | up to ten items of each source, in order and unchanged but for their ids L1, L2, ... |
| Loki.Bundle.Shrink | incident-analyzer/app/collectors/loki.py:281-288 | the pop-until-it-fits loop on the bundle's fields leaves what Truncate specifies |
| Loki.LongestFitIsLongest | incident-analyzer/app/collectors/loki.py:281-285 | no longer prefix fits, and the one kept fits unless it is a single item |
| Loki.OneItemFits | incident-analyzer/app/collectors/loki.py:286-288 | within the field limits one item always fits, so clearing its samples is never needed |
| Loki.TruncateWithinCap | incident-analyzer/app/collectors/loki.py:261-289 | for any such list the result is within 16 KiB and is the longest non-empty prefix that is, the truncated flag counted |
| Loki.CollectedWithinCap | incident-analyzer/app/collectors/loki.py:59-88 | so is the collected bundle, which is marked truncated iff something was dropped |
| Loki.CollectedWindow | incident-analyzer/app/collectors/loki.py:59-62 | the window runs from two minutes before the incident's start to ten after |
| EvidenceJson.BundleSize | incident-analyzer/app/collectors/loki.py:281 | the size the model compares is the number of UTF-8 bytes of the bundle's JSON text, escapes included |
| EvidenceJson.KeptIffTextFits | incident-analyzer/app/collectors/loki.py:281-285 | item k is kept iff the text that ends with it is within 16 KiB |
| EvidenceJson.CollectedTextWithinCap | incident-analyzer/app/collectors/loki.py:281-289 | the text of what the collector returns is within 16 KiB |
| Loki.CollectedIsWellNumbered | incident-analyzer/app/collectors/loki.py:84-85 | whatever Loki answers, the bundle has 1 to 20 items numbered L1..Lk |
| Loki.CollectEvidence | incident-analyzer/app/collectors/loki.py:59-88 | both normalisers, combination and truncation on objects give the specified bundle |
| Loki.KeptIff | incident-analyzer/app/collectors/loki.py:281-285 | item k of two or more survives truncation iff the list that ends with it fits |
| Loki.NothingDroppedIff | incident-analyzer/app/collectors/loki.py:281-285 | a list of two or more items is left as it is iff it fits |
| Loki.StrippedIff | incident-analyzer/app/collectors/loki.py:286-288 | a first item that does not fit alone is left without samples and marked; otherwise the result is a prefix that fits |
| Loki.SecondSourceHeardIff | incident-analyzer/app/collectors/loki.py:254-285 | of the collected bundle: MySQL evidence is left iff the list that ends with its first item fits, and all reserved places are kept iff the whole list fits |
| Loki.HeavyLinesCrowdOut | incident-analyzer/app/collectors/loki.py:254-285 | ten application groups of long lines leave no MySQL evidence, whatever the MySQL source found |
| Loki.ReservationCanBeLost | incident-analyzer/app/collectors/loki.py:254-285 | ten log lines with messages of 300 Hangul characters are such an input |
| Migration.AnyOrderKeepsLeast | incident-analyzer/migrations/versions/0004_incident_episode_dedup.py:29-37 | deleting duplicates one row at a time in any order, until none is left, gives the table of the least ids |
| Migration.EveryEpisodeKept | incident-analyzer/migrations/versions/0004_incident_episode_dedup.py:31-35 | every incident's episode keeps an incident, and none of that episode had a smaller id |
| Migration.KeepersUnique | incident-analyzer/migrations/versions/0004_incident_episode_dedup.py:39-41 | the remaining incidents have different episodes, so the unique constraint can be created |
| Migration.KeptMembers | incident-analyzer/migrations/versions/0004_incident_episode_dedup.py:19-28 | the delete on a child table removes exactly the rows of duplicates, every copy of them, and no other |
| Migration.KeptInOrder | incident-analyzer/migrations/versions/0004_incident_episode_dedup.py:19-28 | the rows left are in their order |
| Migration.MigratedRows | incident-analyzer/migrations/versions/0004_incident_episode_dedup.py:13-28 | of the whole upgrade: in each of the four child tables a row of a kept incident is there unchanged, as often as before, and no other row is |
| Migration.MigratedIncidents | incident-analyzer/migrations/versions/0004_incident_episode_dedup.py:29-41 | an incident is left iff none with its dedup key and start time has a smaller id, and no two left agree in both |
| Migration.NoOrphanRows | incident-analyzer/migrations/versions/0004_incident_episode_dedup.py:13-28 | a child row survives, unchanged, iff its incident does |
| Migration.DeletesMeetNoChild | incident-analyzer/migrations/versions/0004_incident_episode_dedup.py:13-37 | after the child deletes, no incident delete in any order meets a row that refers to it |
| Migration.MigrationKeepsSchema | incident-analyzer/migrations/versions/0004_incident_episode_dedup.py:12-41 | from any tables that satisfy the unique and foreign keys, whatever the rows say, the migration makes tables that satisfy them and whose episodes are unique |
| Migration.MigrationEstablishesSound | incident-analyzer/migrations/versions/0004_incident_episode_dedup.py:12-41 | from a sound outbox with repeated episodes, results without a delivery allowed, it makes a sound one, uniqueness and evidence closure included, and takes no result's delivery |
| Migration.LegacyTables.DeleteChildren | incident-analyzer/migrations/versions/0004_incident_episode_dedup.py:13-28 | the four child deletes in order |
| Migration.LegacyTables.DeleteDuplicates | incident-analyzer/migrations/versions/0004_incident_episode_dedup.py:29-37 | the row-by-row delete ends, with the least id of each episode |
| Migration.LegacyTables.Upgrade | incident-analyzer/migrations/versions/0004_incident_episode_dedup.py:12-41 | the whole upgrade gives the migrated tables, and creating the unique constraint succeeds |

## Left out

- Loki.CollectedWithinCap: holds for the value `_bundle` returns. Alert evidence and the final collector version are put in afterwards (`incident-analyzer/app/worker.py:51-52`), so the stored bundle may exceed the cap.
- LeaseQueue.ScanFindsLeast: rows locked by other transactions are a parameter, any set of rows; how MySQL takes and releases row locks is not modelled.
- WorkerProcess.RunOnceAlone: is about a call without interference, as WorkerProcess.DeliverOnceAlone is; calls interleaved with other workers are covered by the runs of `Workers`.
- `run_forever` as a loop: an idle worker may poll either queue at any time, which covers its alternation and more; its sleep does not matter without a scheduler.
- HTTP, SQLAlchemy, MySQL, the Gemini SDK and Slack transport: transactions are atomic steps, and every external call is an outcome carried by an event. Gemini's second attempt and its timeout are inside that outcome.
- Masking, `shlex` and JSON parsing of log lines: a line is an opaque signature and sample, and a MySQL line may fail to parse. An application line that is JSON but not an object raises an error no except clause names; such lines are not modelled.
- A malformed entry in the middle of a response: it is part of "the query failed", even where it lies beyond the line limit.
- HMAC verification, the derivation of the dedup key and the SHA-256 of a bundle. Dedup keys are opaque strings.
- Results stored by releases before migration 0004 are taken to be closed over their bundles, as the code that stored them made sure; `Migration.MigrationKeepsSchema` does not need that.
- Columns that never influence a step: `episode_status`, `resolved_at`, `destination` (always SLACK), schema and prompt versions, hashes, token counts and latency. The wording of the insufficient-evidence advice is in English here.
- Gaps in auto-increment ids: an id is a table position, which keeps the order the queries use.
- EvidenceJson.BundleSize: takes the two instants and the two query hashes as ASCII texts of their known lengths (20 or 27 characters for four-digit years, and 64).
- Slack message rendering, regression evaluation, health checks, command line tools, settings validation, the response schema sent to Gemini, and migrations 0001 to 0003: single-branch or routine facts.
