# Verified model of the metro agent's stateful core

The metro agent answers passengers' and operators' questions with a team of agents. Around the
agents stands a core of small state machines: a login rate limiter, the executor of a plan of
dependent steps, the publication of a knowledge base under a Redis lease, the administration of
knowledge drafts, jobs and releases, the restore of a data volume, the trace recorder, and the
code that numbers chunks and divides the context window. This project models those parts in Dafny
and proves what they promise.

`dafny verify dfyconfig.toml` checks everything. One module stands for one component:

| file | component |
|---|---|
| `ExpiryHeap.dfy`, `AttemptLog.dfy`, `AttemptLaws.dfy`, `RateLimiter.dfy` | the indexed expiry heap; a naive log of login attempts, and what it answers by its entries alone; the limiter, proved to answer as the log does |
| `PlanValidation.dfy`, `PlanExecution.dfy`, `CriticalPath.dfy` | the plan validator; scheduler, worker and aggregate loop over whole runs; the critical-path latency |
| `PublicationLease.dfy` | the lease on one Redis key, and all interleavings of publishers and rollbacks on one pointer |
| `KnowledgeAdmin.dfy` | the transactions on drafts, jobs, releases and the audit log, and the worker that drives them |
| `PointerAgreement.dfy` | the pointer and the releases table together, for all interleavings of workers |
| `VolumeRestore.dfy` | replacing the contents of a volume, with undo |
| `TraceRecorder.dfy`, `SpanOrdering.dfy` | the recorder's critical sections; the display order of spans |
| `ChunkIds.dfy`, `ContextBudget.dfy`, `ContextAssembly.dfy` | chunk ids; the token budget; the choice of rounds and history |
| `Ordering.dfy`, `Collections.dfy`, `Options.dfy` | Python's string order and `sort`; facts on sequences and sets; an option type |

Objects that the program updates in place are classes here, with the same fields and one method
for each of theirs. A method that a lock or a database transaction makes atomic is one method; where
a lock is released in between (`finish`, `update_final_summary`, the lease), each critical section is
a method or an event of its own, and the claims are about every interleaving of them. The clock is
monotone and passed in; agents, the index build, the stores and the file system answer through
parameters; hashes and token counts are arbitrary functions, free of collisions or of fixed length
only where that is stated.

## What the proofs show about the code

* Any sequence of calls of the login limiter, with any leases, is answered as a plain log of the
  attempts answers it (`RateLimiter.RunCalls`). In no run does an account, an address or a pair of both
  have more attempts counted than the policy's field for it (`AttemptLaws.BudgetsHoldInEveryRun`). An
  attempt is admitted exactly when all three have room and their keys can be tracked; otherwise the
  caller is told the least number of whole seconds after which all three have room, or a whole window
  when the keys cannot be tracked (`AttemptLaws.BeginAnswered`).
* `validate_plan` never looks at a step's own `status`, while the scheduler dispatches pending steps
  only; and it accepts an empty step id, while the aggregate step waits for non-empty ids only. A
  validated plan has bounded runs exactly when no step with a non-empty id is, or depends on however
  indirectly, a step that is not pending at the start (`PlanExecution.BoundedIffCountedAreLive`). A
  single step that is already skipped passes validation and has runs of every length
  (`PlanExecution.ValidatedPlanThatNeverEnds`). This is about `validate_plan` on its own: the graph
  never builds such a plan, since its planners write no status and every step starts pending, so all
  its runs are bounded (`PlanExecution.PlannedRunsAreBounded`).
* A completed run has the results of all steps exactly when a step with the empty id, if any, got its
  turn: it can be dispatched, and has no dependency or is no deeper than some other step
  (`PlanExecution.CompletedIsCompleteIff`). The plan of a step "a" and a step "" that depends on it
  completes without the second one (`PlanExecution.CompletesWithoutNameless`).
* For unique ids the critical-path fold reports the longest path for all results exactly when every
  dependency is listed before the step that depends on it (`CriticalPath.ExactIffDependenciesFirst`).
  Listed the other way round, some results make it report less (`CriticalPath.LateDependencyIsMissed`).
* No pointer update is lost in any interleaving in which the key still carries an operator's token
  when it upserts; upserts within the lifetime renewed by `assert_held` are of that kind. A single
  upsert after the lease is enough to lose one: from every state in which an operator is ready to
  upsert and another is about to publish a release that the first does not take for the current one,
  some continuation loses the other's update, with no upsert unowned but the last
  (`PublicationLease.UnownedUpsertLosesAnUpdate`, with the run of `LateUpsertLosesAnUpdate` as witness).
* The pointer is switched under the lease, the releases table completed after it. They agree exactly
  when the last switch and the last accepted record are about the same build
  (`PointerAgreement.AgreesIffLastOnesMatch`), as they are when workers take turns; two publishers that
  cross leave the pointer on one build and the table on the other
  (`PointerAgreement.CrossingWorkersDisagree`).
* A restore that finds an empty `rollback.previous` raises and removes it. A staged child with that
  name takes the place of the rollback directory when it is a directory and the volume was empty,
  and makes the restore fail, and undo itself, otherwise.
* A worker that dies after claiming a job leaves its draft blocked: a claimed job is never queued
  again, and while it is active nothing else can be queued for the draft
  (`KnowledgeAdmin.FinishedForGood`, `KnowledgeAdmin.BusyDraftIsBlocked`).
* Recording stops at the finish, so usages deferred by spans that complete later are lost; the
  finished total equals all accepted tokens but those of the spans still open
  (`TraceRecording.TraceRecorder.EndFinish`).
* Chunk ids hide how sources are interleaved exactly when no two nodes of different sources share a
  base id, a span and the place within their source (`ChunkIds.InterleavingIsHiddenIff`). The base id
  hashes five fields joined by line breaks, and the join tells everything apart but where the source
  ends and the header begins. So, without any collision of the hash, source "x\ny" with header "z" and
  source "x" with header "y\nz" share a base id, and their ids show which was listed first
  (`ChunkIds.LineBreaksShowInterleaving`). Headers of one line exclude this (`ChunkIds.OneLineHeadersHide`).
* The commit of a rollback is refused exactly when the build id of its target sorts before that of the
  current release, because the unique index on the current release is checked row by row and rows are
  written in key order (`KnowledgeAdmin.RefusedIffOutOfOrder`). The pointer has moved by then, so such a
  rollback leaves pointer and table apart (`PointerAgreement.RollbackAgreesIff`).
* The context assembler counts the rounds and history lines it shows, and these stay within the
  budget. It does not count the preamble and the separators of the history message.
* `group_rounds` puts messages before the first human message into the first round, although its
  documentation gives them a round of their own; filling the history goes on after an entry that does
  not fit, although the documentation says it stops there. The model follows the code.

## Model

| member | source | states |
|---|---|---|
| ExpiryHeap.RootIsLeast | src/metro_agent/auth/rate_limit.py:80-81 | in a heap ordered along its edges the root comes before every entry, by expiry and then key |
| ExpiryHeap.IndexedExpiryHeap.Set | src/metro_agent/auth/rate_limit.py:51-63 | the heap stands for the same map with one key set; positions invert the array and heap order holds |
| ExpiryHeap.IndexedExpiryHeap.Remove | src/metro_agent/auth/rate_limit.py:65-78 | the heap stands for the map without the key, present or not |
| ExpiryHeap.IndexedExpiryHeap.Peek | src/metro_agent/auth/rate_limit.py:80-81 | an entry of the map that none precedes by time, then scope name, then bucket; none exactly for the empty map |
| ExpiryHeap.IndexedExpiryHeap.LeastIsUnique | src/metro_agent/auth/rate_limit.py:80-87 | the map alone determines the entry that leaves first |
| ExpiryHeap.ScopesInNameOrder | src/metro_agent/auth/rate_limit.py:80-81 | the order of scopes is the order of their names |
| ExpiryHeap.IndexedExpiryHeap.PopMin | src/metro_agent/auth/rate_limit.py:83-87 | returns a least entry and leaves the map without its key |
| ExpiryHeap.IndexedExpiryHeap.SiftUp | src/metro_agent/auth/rate_limit.py:89-95 | repairs a heap whose order may fail only above one position, without changing the map |
| ExpiryHeap.IndexedExpiryHeap.SiftDown | src/metro_agent/auth/rate_limit.py:97-110 | repairs a heap whose order may fail only below one position, without changing the map |
| ExpiryHeap.IndexedExpiryHeap.Swap | src/metro_agent/auth/rate_limit.py:112-118 | exchanges two entries and keeps the index the inverse of the array |
| AttemptLog.RetryAfterSuffices | src/metro_agent/auth/rate_limit.py:281-303 | waiting as long as the answer says is enough, for limit and capacity blocks alike |
| AttemptLog.SuccessClearsExactly | src/metro_agent/auth/rate_limit.py:199-212 | a success takes off its own attempt and, for pair and user name, earlier failed ones of the same key; never another open attempt |
| AttemptLog.CancelClearsExactly | src/metro_agent/auth/rate_limit.py:214-221 | a cancellation takes off its own attempt and no other |
| AttemptLog.LiveElements | src/metro_agent/auth/rate_limit.py:315-326 | the attempts a budget counts are exactly the unexpired, uncleared ones of its key, oldest first |
| AttemptLog.LimitsHoldInEveryRun | src/metro_agent/auth/rate_limit.py:157-191 | after any sequence of calls, no window of any key counts more attempts than its limit, and no more keys count any than can be tracked |
| AttemptLog.ToldWaitSuffices | src/metro_agent/auth/rate_limit.py:281-303 | in every run, a blocked caller who waits as told, with no call in between, is admitted |
| AttemptLaws.BudgetsHoldInEveryRun | src/metro_agent/auth/rate_limit.py:144-191 | after any sequence of calls at most `pair_max_attempts` unexpired, uncleared attempts of a pair are in the log, and likewise for a user name and for an address, each by its own field |
| AttemptLaws.AdmittedIff | src/metro_agent/auth/rate_limit.py:281-303 | no wait is demanded if and only if each of the three counts is below its own field and the keys fit the capacity |
| AttemptLaws.BeginAnswered | src/metro_agent/auth/rate_limit.py:157-191 | in every run: admitted exactly with room in all three budgets and for the keys, under the three keys of the caller; blocked for the least number of whole seconds until there is room, or for a whole window when the keys do not fit |
| AttemptLaws.AfterBegin | src/metro_agent/auth/rate_limit.py:172-191 | an admission adds one pending attempt with nothing cleared; a block adds nothing |
| AttemptLaws.AfterFailure | src/metro_agent/auth/rate_limit.py:193-197 | a failure marks the pending attempt that the lease names and some budget of it still counts, and no other |
| AttemptLaws.AfterSuccess | src/metro_agent/auth/rate_limit.py:199-212 | what a success takes off the pair, the user-name and the address budget, attempt by attempt |
| AttemptLaws.AfterCancellation | src/metro_agent/auth/rate_limit.py:214-221 | a cancellation takes off the attempt it names, for each key that the lease shares with it |
| AttemptLaws.AfterForget | src/metro_agent/auth/rate_limit.py:232-242 | forgets the failures of the pair and of the user name, none of the address and no pending attempt |
| AttemptLaws.AfterLooking | src/metro_agent/auth/rate_limit.py:244-271 | the calls that look leave the log as it is; an asked wait is that of an attempt, and the tracked keys are those some attempt counts for |
| AttemptLaws.AnswersInOrder | src/metro_agent/auth/rate_limit.py:157-271 | in a run from the empty log each call is answered on the log that the calls before it left |
| RateLimiter.LoginRateLimiter.ExpireDue | src/metro_agent/auth/rate_limit.py:305-313 | afterwards the tracked keys are exactly the keys that count some attempt now; the limiter still represents the log |
| RateLimiter.LoginRateLimiter.CurrentEvents | src/metro_agent/auth/rate_limit.py:315-326 | the bucket holds only unexpired events afterwards, in step with the log and the heap |
| RateLimiter.LoginRateLimiter.AppendEvent | src/metro_agent/auth/rate_limit.py:328-339 | appends the event, or says which reservation failed |
| RateLimiter.LoginRateLimiter.AppendToAll | src/metro_agent/auth/rate_limit.py:180-186 | with room for every key all appends succeed: no RuntimeError after a passed check |
| RateLimiter.LoginRateLimiter.RetryAfterFor | src/metro_agent/auth/rate_limit.py:281-303 | the answer computed from buckets and heap is the answer the log gives |
| RateLimiter.LoginRateLimiter.BeginAttempt | src/metro_agent/auth/rate_limit.py:157-191 | blocks exactly when the log says so and for as long; otherwise admits with one new event, logs the attempt, and never fails to reserve; admits exactly if fewer than the three maxima are counted for pair, user name and address and the keys fit |
| RateLimiter.LoginRateLimiter.FilterBucket | src/metro_agent/auth/rate_limit.py:366-377 | drops from one bucket exactly the events the clearance removes; heap and bucket stay in agreement |
| RateLimiter.LoginRateLimiter.FindLeaseEvent | src/metro_agent/auth/rate_limit.py:341-354 | finds an event with the lease's token and number in its three buckets, if there is one |
| RateLimiter.LoginRateLimiter.FinalizeFailure | src/metro_agent/auth/rate_limit.py:193-197 | for any lease, refines marking the attempt it names failed in the log, if some budget of the lease still counts it as pending |
| RateLimiter.LoginRateLimiter.FinalizeSuccess | src/metro_agent/auth/rate_limit.py:199-212 | for any lease, refines the clearance by success in the log, if some budget of the lease still counts the attempt as pending |
| RateLimiter.LoginRateLimiter.Cancel | src/metro_agent/auth/rate_limit.py:214-221 | for any lease, refines the clearance by cancellation in the log, under the same condition |
| RateLimiter.LoginRateLimiter.Reset | src/metro_agent/auth/rate_limit.py:232-242 | refines forgetting the failed attempts of the pair and the user name |
| RateLimiter.LoginRateLimiter.TrackedKeyCount | src/metro_agent/auth/rate_limit.py:267-271 | counts the keys with a live attempt, at most the capacity |
| RateLimiter.LoginRateLimiter.RetryAfterNow | src/metro_agent/auth/rate_limit.py:244-257 | answers what the log demands, without admitting |
| RateLimiter.LoginRateLimiter.Serve | src/metro_agent/auth/rate_limit.py:157-271 | each call moves the log as the naive machine does and gives its answer |
| RateLimiter.NewLimiter | src/metro_agent/auth/rate_limit.py:124-153 | refuses exactly non-positive limits or window and fewer than three keys; otherwise a new limiter with an empty log |
| RateLimiter.RunCalls | src/metro_agent/auth/rate_limit.py:121-271 | any sequence of calls on a new limiter, with any leases, is answered as the log alone answers it |
| RateLimiter.LoginRateLimiter.BlockedCallerIsAdmittedLater | src/metro_agent/auth/rate_limit.py:281-303 | in every reachable state, the caller who waits as told is admitted if nothing else happens |
| PlanValidation.CycleSearch.Dfs | src/metro_agent/planning/validator.py:45-61 | true only for a real cycle; otherwise the node and all it reaches are finished in dependency order |
| PlanValidation.HasCycle | src/metro_agent/planning/validator.py:41-66 | terminates and is true exactly when some step reaches itself; otherwise a topological order exists |
| PlanValidation.OrderedIsAcyclic | src/metro_agent/planning/validator.py:41-66 | a dependency map with a topological order has no cycle |
| PlanValidation.ValidatePlan | src/metro_agent/planning/validator.py:14-38 | reports exactly the errors of the plan, more than twelve steps and agents other than the four among them; none exactly for a well-formed plan, which has a topological order |
| PlanExecution.GetReadySteps | src/metro_agent/planning/scheduler.py:68-133 | returns in plan order, and marks, exactly the pending steps without a result whose dependencies all succeeded or degraded |
| PlanExecution.ReadyInPlanOrder | src/metro_agent/planning/scheduler.py:106-133 | the ready steps are those that may run, each at its place in the plan and in plan order |
| PlanExecution.RouteReadySteps | src/metro_agent/planning/parallel_routing.py:52-158 | sends exactly the ready steps, from copies: the stored plan is not marked |
| PlanExecution.RunWorker | src/metro_agent/planning/worker_node.py:45-305 | the first call that returns decides; failed exactly when every allowed attempt raised; degraded exactly when the deciding call of the realtime agent holds a failed alarm query whose first failure has no message or a non-empty one; the events of each attempt |
| PlanExecution.RoundDispatchesByDepth | src/metro_agent/planning/parallel_routing.py:95-158 | in every run of a validated plan round k + 1 dispatches exactly the live steps (pending, with pending dependencies throughout) whose longest dependency chain has k + 1 elements |
| PlanExecution.DispatchedAfterDependencies | src/metro_agent/planning/scheduler.py:106-133 | in every round of every run, the last included, a step is dispatched only after all its dependencies succeeded or degraded |
| PlanExecution.DispatchedOnce | src/metro_agent/planning/scheduler.py:106-133 | in every run a step that was dispatched has its result in the next round and is never dispatched again |
| PlanExecution.RunIsBounded | src/metro_agent/graph.py:65-68 | if the counted steps (those with a non-empty id) are live, every run has at most as many rounds as the plan has steps |
| PlanExecution.AllPendingAreLive | src/metro_agent/planning/scheduler.py:106-133 | in a validated plan of pending steps every step is live |
| PlanExecution.NeverSpins | src/metro_agent/planning/aggregate_node.py:200-263 | while a run is active and a counted step is missing, some step is ready |
| PlanExecution.RunOutcome | src/metro_agent/planning/aggregate_node.py:200-263 | a run of a validated plan ends completed exactly when no step failed, and then every counted step has a result |
| PlanExecution.CompletedIsCompleteIff | src/metro_agent/planning/aggregate_node.py:206-209 | a completed run has the results of all steps if and only if a step with the empty id, if any, is live and has no dependency or is no deeper than some counted step |
| PlanExecution.CompletesWithoutNameless | src/metro_agent/planning/aggregate_node.py:206-209 | a validated plan with a completed run that lacks the result of the step with the empty id |
| PlanExecution.StuckStepSpins | src/metro_agent/planning/scheduler.py:106-133 | a counted step that is not live is never dispatched, and the loop goes on without it |
| PlanExecution.BoundedIffCountedAreLive | src/metro_agent/planning/validator.py:14-38 | a validated plan has only bounded runs if and only if its counted steps are live |
| PlanExecution.ValidatedPlanThatNeverEnds | src/metro_agent/planning/validator.py:14-38 | a plan that passes validation, with a counted step that is not live, has runs of every length |
| PlanExecution.PlannedRunsAreBounded | src/metro_agent/planning/planner_node.py:176-192 | in every validated plan that a planner wrote each step is live, and all runs are bounded |
| PlanExecution.RunRound | src/metro_agent/planning/parallel_routing.py:52-158 | routing, running a worker for each step sent, merging and aggregating is one round of a run, with each result that of the deciding call of its step |
| PlanExecution.ExecutePlan | src/metro_agent/graph.py:65-68 | the loop terminates for a validated plan with live counted steps, completed exactly when no step failed; every result comes from the calls of its round |
| CriticalPath.CriticalPathLatency | src/metro_agent/observability/finalize_node.py:35-66 | the report is the weight of a real dependency chain, for unique ids the greatest over chains listed dependencies first; with two timestamps in order for every listed step, weights are the times from start to finish; it is the longest path when dependencies are listed first; without steps the longest result |
| CriticalPath.DurationIsDifference | src/metro_agent/observability/finalize_node.py:35-40 | a step takes the time between its two timestamps, and none when one is missing or they are reversed |
| CriticalPath.WeightIsElapsed | src/metro_agent/observability/finalize_node.py:35-61 | where all steps of the list have timestamps in order, a chain weighs the sum of finish minus start along it |
| CriticalPath.ShiftKeepsReport | src/metro_agent/observability/finalize_node.py:35-66 | moving all timestamps by one amount leaves the report as it is |
| CriticalPath.SkippedEntriesKeepReport | src/metro_agent/observability/finalize_node.py:48-52 | malformed entries and those without an id might as well not be listed |
| CriticalPath.ExactIffDependenciesFirst | src/metro_agent/observability/finalize_node.py:43-66 | for unique ids the report is the longest path for all results if and only if every dependency is listed before its dependents |
| CriticalPath.LateDependencyIsMissed | src/metro_agent/observability/finalize_node.py:43-66 | a plan and results whose longest path the report misses, as a witness |
| PublicationLease.PublicationLock.Acquire | src/metro_agent/knowledge/publication_lock.py:52-62 | held exactly when the key was free or expired and the reply arrived; an executed SET whose reply is lost leaves the key taken and the lock not held; the key afterwards in every case |
| PublicationLease.PublicationLock.Renew | src/metro_agent/knowledge/publication_lock.py:64-65 | extends the key only if it still carries this token; success proves that it did |
| PublicationLease.PublicationLock.Heartbeat | src/metro_agent/knowledge/publication_lock.py:96-102 | a renewal that failed, or whose reply was lost, is remembered and ends the heartbeat |
| PublicationLease.PublicationLock.AssertHeld | src/metro_agent/knowledge/publication_lock.py:67-76 | succeeds only for the owner without an earlier renewal error, and then keeps the key for the next lifetime |
| PublicationLease.PublicationLock.Release | src/metro_agent/knowledge/publication_lock.py:78-94 | removes the key exactly if it carries this token and the command arrives, and answers so exactly if the reply arrives too; never touches another key |
| PublicationLease.CallLock | src/metro_agent/knowledge/publication_lock.py:52-102 | the lock events of an operator in an interleaving are the calls of its lock object, reply by reply |
| PublicationLease.RollbackTwiceRestores | src/metro_agent/knowledge/releases.py:163-191 | rolling back twice restores the pointer |
| PublicationLease.OwnershipIsUnbroken | src/metro_agent/knowledge/publication_lock.py:52-94 | over every run, a token that owns the key at the end acquired it at some step and owned it at every state since |
| PublicationLease.LetGoFreesTheKey | src/metro_agent/knowledge/publication_lock.py:78-86 | once the owner has let go, and until some operator acquires, the key stays free, so the next acquisition succeeds |
| PublicationLease.StepWrites | src/metro_agent/knowledge/releases.py:83-191 | a publication makes its release the current one and what it read the previous one; a rollback exchanges the two it read |
| PublicationLease.OnlyUpsertsWrite | src/metro_agent/knowledge/releases.py:83-191 | no other event changes the pointer |
| PublicationLease.PhasesInOrder | src/metro_agent/tools/knowledge_indexer.py:183-236 | a publisher acquires, asserts its lease, reads and upserts; a rollback acquires, reads, asserts and upserts; no phase is skipped |
| PublicationLease.AssertionsRenew | src/metro_agent/knowledge/publication_lock.py:67-76 | an operator passes its assertion only as the owner of the key, which then lasts a whole lifetime from there |
| PublicationLease.RunKeepsInv | src/metro_agent/tools/knowledge_indexer.py:183-236 | over every interleaving with owned upserts, an operator that still owns the key and has read the pointer knows it |
| PublicationLease.NoUpdateIsLost | src/metro_agent/knowledge/releases.py:83-118 | over every interleaving in which the key carries an operator's token when it upserts, each upsert records as previous what was current just before it, and at most one operator owns the key |
| PublicationLease.PunctualUpdatesAreOwned | src/metro_agent/knowledge/publication_lock.py:67-76 | an upsert within the lifetime renewed by `assert_held` is made under the operator's own key, whatever others do |
| PublicationLease.UnownedUpsertLosesAnUpdate | src/metro_agent/knowledge/releases.py:83-118 | whenever an operator is ready to upsert and an idle publisher has a release that it does not take for the current one, some continuation in which only its own upsert is unowned loses an update |
| PublicationLease.LateUpsertLosesAnUpdate | src/metro_agent/tools/knowledge_indexer.py:203-236 | a reachable run of this kind, as a witness |
| KnowledgeAdmin.BusyExactlyWithOneJob | src/metro_agent/knowledge_admin/models.py:30-51 | a draft is validating (publishing) exactly when it has exactly one active job of that kind, and otherwise it has none |
| KnowledgeAdmin.AuditReplaysToJobs | src/metro_agent/knowledge_admin/repository.py:488-562 | replaying the audit log yields the status of every job and of nothing else |
| KnowledgeAdmin.AdvancedTrails | src/metro_agent/knowledge_admin/repository.py:542-562 | a job's events stay queued, running, then its end, when it moves on with an event |
| KnowledgeAdmin.PublishedWasValidated | src/metro_agent/knowledge_admin/models.py:30-51 | in every reachable state a publishing or published draft has a validation job that succeeded, and no other job of the draft was queued or ended between its success and the queueing of the publication |
| KnowledgeAdmin.PublishedIsCurrent | src/metro_agent/knowledge_admin/repository.py:344-378 | after recording a release exactly one is current: the recorded one |
| KnowledgeAdmin.RestoredIsCurrent | src/metro_agent/knowledge_admin/repository.py:268-298 | after a rollback exactly one release is current: the restored one |
| KnowledgeAdmin.RefusedIffOutOfOrder | src/metro_agent/knowledge_admin/repository.py:281-294 | written row by row in key order, a rollback meets two current releases on the way exactly if its target sorts before the current one; the rows add up to the restored table |
| KnowledgeAdmin.FinishedForGood | src/metro_agent/knowledge_admin/models.py:30-51 | over any run published drafts, finished jobs and past events never change, and a claimed job is never queued again |
| KnowledgeAdmin.BusyDraftIsBlocked | src/metro_agent/knowledge_admin/repository.py:112-140 | while a job works on a draft no other can be queued for it |
| KnowledgeAdmin.OldestIsUnique | src/metro_agent/knowledge_admin/repository.py:27-38 | the order of the claim leaves one candidate |
| KnowledgeAdmin.Repository.CreateDraft | src/metro_agent/knowledge_admin/repository.py:40-70 | one uploaded draft and its event, or nothing; the invariants hold |
| KnowledgeAdmin.Repository.CreateDraftAndQueueValidation | src/metro_agent/knowledge_admin/repository.py:72-110 | a validating draft with its one queued job, or nothing |
| KnowledgeAdmin.Repository.QueueDraftJob | src/metro_agent/knowledge_admin/repository.py:112-140 | fails exactly for an unknown draft, an illegal transition or a used key; a publication is illegal exactly for a draft that is not ready to publish, a validation for one that is neither uploaded nor failed; a queued job is the draft's only one |
| KnowledgeAdmin.Repository.QueueRollback | src/metro_agent/knowledge_admin/repository.py:142-179 | fails exactly for an unknown release, an active rollback of it or a used key |
| KnowledgeAdmin.Repository.ClaimNextJob | src/metro_agent/knowledge_admin/repository.py:181-201 | claims the queued job that was queued first, and of those the one with the least id; none exactly when none is queued |
| KnowledgeAdmin.Repository.CompleteJob | src/metro_agent/knowledge_admin/repository.py:203-224 | the exact error cases, an illegal draft transition not among them; all invariants hold |
| KnowledgeAdmin.Repository.CompletePublishJob | src/metro_agent/knowledge_admin/repository.py:226-266 | the exact error cases; on success the draft is published, the new release current, the one before superseded and every other release as it was |
| KnowledgeAdmin.Repository.CompleteRollbackJob | src/metro_agent/knowledge_admin/repository.py:268-298 | the exact error cases, a target that sorts before the current release among them; on success the target is current, the one it replaces rolled back and every other release as it was |
| KnowledgeAdmin.Repository.FailJob | src/metro_agent/knowledge_admin/repository.py:300-317 | never meets an illegal transition; fails exactly for a job that is not running |
| KnowledgeAdmin.Repository.RecordRelease | src/metro_agent/knowledge_admin/repository.py:319-378 | fails exactly for an unknown draft or a known build id; otherwise the release is the current one |
| KnowledgeAdmin.Repository.Transition | src/metro_agent/knowledge_admin/models.py:45-51 | moves a draft along its legal life or changes nothing |
| KnowledgeAdmin.Repository.ServeAll | src/metro_agent/knowledge_admin/repository.py:40-378 | every sequence of transactions keeps all invariants, the log telling every draft's status among them, and is a run to which `FinishedForGood` applies; it leaves alone a running job it does not end |
| KnowledgeAdmin.Repository.ProcessJob | src/metro_agent/knowledge_admin/service.py:324-404 | whatever other transactions run during the work and before `fail_job`, a claimed job ends; it succeeds exactly when its work returned, with a then new build id for a publication and the target, not sorting before the then current release, for a rollback |
| KnowledgeAdmin.Repository.ProcessNextJob | src/metro_agent/knowledge_admin/service.py:340-344 | the oldest queued job ends and no other job changes |
| PointerAgreement.AgreesIffLastOnesMatch | src/metro_agent/knowledge_admin/service.py:355-391 | after any interleaving of switches and records, pointer and table agree if and only if the last switch and the last accepted record are about the same build |
| PointerAgreement.TurnsAgree | src/metro_agent/knowledge_admin/service.py:355-391 | workers that record before another one switches, with no record refused, leave them in agreement |
| PointerAgreement.CrossingWorkersDisagree | src/metro_agent/knowledge_admin/service.py:355-377 | two publishers, the first to switch the last to record, leave the pointer on one build and the table on the other |
| PointerAgreement.RollbackAgreesIff | src/metro_agent/knowledge_admin/service.py:379-391 | a rollback on its own leaves agreement if and only if its target does not sort before the current release |
| VolumeRestore.Volume.MoveOut | deploy/operations/safe-restore-tar.py:107-113 | at every point the old entries are divided between root and rollback directory; complete exactly when no move failed |
| VolumeRestore.Volume.Install | deploy/operations/safe-restore-tar.py:114-117 | at every point the staged children are divided between stage and root; complete exactly when no move failed and no name is obstructed |
| VolumeRestore.Volume.Uninstall | deploy/operations/safe-restore-tar.py:121-123 | undoes any partial install |
| VolumeRestore.Volume.MoveBack | deploy/operations/safe-restore-tar.py:124-127 | undoes any partial move out |
| VolumeRestore.Volume.ReplaceContents | deploy/operations/safe-restore-tar.py:93-132 | a raised restore leaves the original entries; a completed one shows the archive's children, and keeps the old entries aside exactly when the archive has no child rollback.previous but an empty directory; it completes exactly when no forward operation fails and nothing is in the way |
| VolumeRestore.NothingObstructs | deploy/operations/safe-restore-tar.py:107-117 | a staged child takes its place unless it is called like the staging directory, or like the rollback directory and is a file or finds old entries there |
| TraceRecording.PendingOne | src/metro_agent/observability/service.py:599-613 | the tokens pending in open spans split into those of one span and of the rest, whichever span is taken |
| TraceRecording.FinishedForGood | src/metro_agent/observability/service.py:427-554 | along a history at most one finish takes effect and everything recorded is unchanged after it |
| TraceRecording.Interleave | src/metro_agent/observability/service.py:427-554 | every interleaving of the critical sections on a new recorder is such a history, and keeps totals, account and frozen fields in order |
| TraceRecording.TraceRecorder.StartSpan | src/metro_agent/observability/service.py:459-465 | a span opens exactly while the trace is neither finished nor closing |
| TraceRecording.TraceRecorder.Defer | src/metro_agent/observability/service.py:662-667 | an observation is kept exactly for an open span of an unfinished trace, and its tokens are accounted as accepted |
| TraceRecording.TraceRecorder.RecordDirectly | src/metro_agent/observability/service.py:668-679 | records exactly for a persisted span of an open trace; the totals stay the sums of the recorded usages |
| TraceRecording.TraceRecorder.CompleteSpan | src/metro_agent/observability/service.py:582-616 | flushes each deferred observation once, in order, unless the trace is finished; then its tokens are accounted as lost; a span whose event cannot be finished stays open |
| TraceRecording.TraceRecorder.BeginFinish | src/metro_agent/observability/service.py:490-493 | only the first finish ever goes on |
| TraceRecording.TraceRecorder.EndFinish | src/metro_agent/observability/service.py:494-515 | the finished total is all accepted tokens but those of spans still open; without a timeout it is all of them; the summary has the three totals, after a timeout the open spans, and else what was given |
| TraceRecording.TraceRecorder.PrepareUpdate | src/metro_agent/observability/service.py:539-546 | possible exactly after a persisted finish; the three frozen fields keep their values, the others are updated or kept |
| TraceRecording.TraceRecorder.CommitUpdate | src/metro_agent/observability/service.py:548-554 | however updates interleave, the final summary shows the frozen totals |
| TraceRecording.TraceRecorder.DeferLlmUsage | src/metro_agent/observability/service.py:618-667 | true bills a valid usage once to the account of its open span, with its model, total and cost; false changes nothing |
| TraceRecording.TraceRecorder.RecordLlmUsage | src/metro_agent/observability/service.py:618-679 | true bills a valid usage of a persisted span once to tokens and cost, false changes neither totals nor evidence |
| SpanOrdering.OrderForDisplay | src/metro_agent/observability/query_service.py:351-368 | terminates on any parent links and returns the kept spans, layer by layer, those on or below a cycle last, within a layer by start and id |
| SpanOrdering.DistinctIdsAreAllKept | src/metro_agent/observability/query_service.py:353 | for distinct ids the result is a permutation of the input |
| SpanOrdering.ParentsComeFirst | src/metro_agent/observability/query_service.py:351-368 | a span without a cycle among its ancestors comes after its parent |
| SpanOrdering.EarlierStartsComeFirst | src/metro_agent/observability/query_service.py:364 | within a layer, and among the spans on or below a cycle, spans are shown by start and then id, and the latter come last |
| SpanOrdering.LastListedIsKept | src/metro_agent/observability/query_service.py:353 | of several spans with one id the last listed is shown |
| SpanOrdering.NoLayerIffCycle | src/metro_agent/observability/query_service.py:356-363 | the spans without a layer are exactly those whose ancestors repeat |
| SpanOrdering.ListingDoesNotMatter | src/metro_agent/observability/query_service.py:351-368 | however the distinct spans of a trace are listed, they are displayed in the same order |
| ChunkIds.IdsAreDistinct | src/metro_agent/tools/chunk_artifacts.py:40-67 | ids are pairwise distinct even when base ids coincide |
| ChunkIds.SourceOrderDecides | src/metro_agent/tools/chunk_artifacts.py:40-67 | where no two materials listed share a base id, id and collision count depend only on the order inside the node's source |
| ChunkIds.InterleavingIsHiddenIff | src/metro_agent/tools/chunk_artifacts.py:40-67 | all nodes of a list keep their ids in every interleaving of its sources if and only if no two nodes of different sources share base id, span and place within their source |
| ChunkIds.JoinTellsApart | src/metro_agent/tools/chunk_artifacts.py:54-57 | two materials join to the same string exactly when source and header together make the same lines and the other fields are equal |
| ChunkIds.IdsHideInterleavingIff | src/metro_agent/tools/chunk_artifacts.py:40-67 | without a collision of the hash in the list, the ids hide the interleaving if and only if no two nodes of different sources differ just in where the source ends |
| ChunkIds.OneLineHeadersHide | src/metro_agent/tools/chunk_artifacts.py:54-57 | without a collision of the hash in the list, headers of one line make all ids depend on the order within a source alone |
| ChunkIds.LineBreaksShowInterleaving | src/metro_agent/tools/chunk_artifacts.py:54-66 | for any hash, two nodes whose line break is in the source of one and the header of the other have ids that show which is listed first |
| ChunkIds.GroupSizeIsHidden | src/metro_agent/tools/chunk_artifacts.py:64-66 | collision counts never depend on the interleaving |
| ChunkIds.CollidingSourcesShowInterleaving | src/metro_agent/tools/chunk_artifacts.py:57-66 | two nodes of different sources with one base id and span have ids that show which is listed first |
| ChunkIds.DecimalIsInjective | src/metro_agent/tools/chunk_artifacts.py:63 | different occurrence numbers have different suffixes |
| ChunkIds.DecimalReadsBack | src/metro_agent/tools/chunk_artifacts.py:63 | suffixes are the usual decimal notation |
| ChunkIds.BaseIdGoesToFirst | src/metro_agent/tools/chunk_artifacts.py:59-64 | the plain base id goes to exactly the node of the group that is first by start, end, place in its source and place in the list |
| ChunkIds.AloneKeepsBaseId | src/metro_agent/tools/chunk_artifacts.py:54-66 | a node that shares its base id with no other ends with the hash of its five joined fields |
| ChunkIds.GroupNodes | src/metro_agent/tools/chunk_artifacts.py:43-57 | the groups hold exactly the nodes of each base id, in list order with their source-local orders |
| ChunkIds.RanksOf | src/metro_agent/tools/chunk_artifacts.py:60-62 | the k-th node of a sorted group has exactly k - 1 nodes of its group before it |
| ChunkIds.AssignIds | src/metro_agent/tools/chunk_artifacts.py:40-67 | every node object gets the id of the rank of one of its positions in its group, and the collision record exactly if the group has several entries |
| ChunkIds.NodesHaveDistinctIds | src/metro_agent/tools/chunk_artifacts.py:40-67 | so different node objects end with different ids |
| ContextBudget.Allocate | src/metro_agent/memory/short_term/agent_context_budget_manager.py:159-369 | unknown agents and modes are refused; any other request gets a fair allocation |
| ContextBudget.AllocateProfile | src/metro_agent/memory/short_term/agent_context_budget_manager.py:200-320 | conserves the input limit, respects caps, serves history minimum and sections strictly in priority order, reports overflow, shortfall and drops |
| ContextBudget.GivesOutAllThereIs | src/metro_agent/memory/short_term/agent_context_budget_manager.py:260-304 | history and sections together get the whole demand or all there is; tokens stay unused only when every listed request is met up to its cap and the history is at its mode's limit |
| ContextBudget.FairIsUnique | src/metro_agent/memory/short_term/agent_context_budget_manager.py:200-320 | fairness determines the whole allocation |
| ContextBudget.FairInNumbers | src/metro_agent/memory/short_term/agent_context_budget_manager.py:200-320 | what a fair allocation gives each section and the history, by the numbers of the profile and of the request |
| ContextBudget.ProfilesAreWellFormed | src/metro_agent/config.py:63-87 | every profile lists known sections, each once |
| ContextBudget.KnowledgeStandardWindow | src/metro_agent/config.py:64-69 | asked for everything, the knowledge agent in standard mode gets 7200 tokens of history, 10000 of documents and 2000 of tools, and 8800 stay unused |
| ContextBudget.KnowledgeWindow | src/metro_agent/config.py:64-69 | in extended mode it gets 12000 tokens of history, and 4000 stay unused |
| ContextBudget.KnowledgeTightWindow | src/metro_agent/config.py:64-69 | with 12000 tokens fixed it gets its history minimum and its documents, and no tools |
| ContextBudget.RealtimeWindow | src/metro_agent/config.py:70-75 | the same for the realtime agent in extended mode |
| ContextBudget.RealtimeTightWindow | src/metro_agent/config.py:70-75 | tools come before documents |
| ContextBudget.DiagnosisWindow | src/metro_agent/config.py:76-81 | the same for the diagnosis agent |
| ContextBudget.DiagnosisTightWindow | src/metro_agent/config.py:76-81 | in compact mode it gets its history minimum, and tools before documents |
| ContextBudget.GeneralWindow | src/metro_agent/config.py:82-86 | the same for the general agent, which has no sections |
| ContextBudget.GeneralTightWindow | src/metro_agent/config.py:82-86 | in compact mode it gets its history minimum |
| ContextAssembly.GroupRounds | src/metro_agent/memory/short_term/conversation_segmenter.py:71-125 | rounds flatten back to the messages, one human message each, every later round opened by it |
| ContextAssembly.RecentFits | src/metro_agent/memory/short_term/agent_context_assembler.py:237-252 | the rounds kept use at most the larger of the budget and the newest round |
| ContextAssembly.SizeOfMessages | src/metro_agent/memory/short_term/conversation_segmenter.py:52-68 | a round costs the tokens of its messages and four more for each |
| ContextAssembly.NewestIsShown | src/metro_agent/memory/short_term/agent_context_assembler.py:246-251 | the newest round is always among the rounds kept |
| ContextAssembly.OversizedStandsAlone | src/metro_agent/memory/short_term/agent_context_assembler.py:246-252 | a newest round beyond the budget is shown alone |
| ContextAssembly.FillIsMaximal | src/metro_agent/memory/short_term/agent_context_assembler.py:319-341 | the chosen entries fit, and none left out would still fit |
| ContextAssembly.NewestAreFilledFirst | src/metro_agent/memory/short_term/agent_context_assembler.py:319-341 | an entry is left out only when it does not fit beside the chosen ones that are not older |
| ContextAssembly.LastSixInFull | src/metro_agent/memory/short_term/agent_context_assembler.py:220-252 | rounds shown in full are among the last six, and all of these when they fit together; rounds shown as history come before |
| ContextAssembly.TextSizePermutes | src/metro_agent/memory/short_term/agent_context_assembler.py:344 | the size of a history does not depend on its order |
| ContextAssembly.CandidatesAre | src/metro_agent/memory/short_term/agent_context_assembler.py:263-313 | a summary is a candidate unless a message carries its round id; an older round is one under the number of its first message with a round id |
| ContextAssembly.NoRoundShownTwice | src/metro_agent/memory/short_term/agent_context_assembler.py:263-313 | no round of the messages is summarised, and with one summary a round no round has two lines of history |
| ContextAssembly.Assemble | src/metro_agent/memory/short_term/agent_context_assembler.py:220-346 | the account is the size of the rounds and history shown, within the larger of budget and newest round; each candidate is shown at most once, oldest first; what is left out would not fit |
| ContextAssembly.Build | src/metro_agent/memory/short_term/agent_context_assembler.py:137-391 | fixed part, rounds and history shown, and sections stay within the input limit, but for the overflow of the fixed part and the excess of the newest round |
| Ordering.SortSorts | src/metro_agent/observability/query_service.py:364 | the sort used by the models orders any list under a total, transitive order |

## Left out

- PublicationLease.NoUpdateIsLost: assumes that the key carries the operator's token at each upsert, which the code does not check; `UnownedUpsertLosesAnUpdate` shows that it cannot do without.
- RateLimiter.LoginRateLimiter.FinalizeFailure: the log does not record the outcome of an attempt that is no longer counted at the last clock reading; no answer depends on it.
- TraceRecording.TraceRecorder.Defer: the deferred observations, which each span object keeps in a list of its own, are a map of the recorder here, so aliasing of span objects is not modelled.
- KnowledgeAdmin.RefusedIffOutOfOrder: that the mapper writes the changed rows of a table in the order of their keys, and changed rows before new ones, is an assumption about the mapper; that the index is checked at each row is how unique indexes of the database work.
- PointerAgreement.TurnsAgree: releases that are recorded without a switch, or switched from the command line without a record, are not part of it.
- VolumeRestore.Volume.ReplaceContents: undo moves do not fail, and the staging directory holds the archive root throughout.
- Floating point: times, costs and latencies are reals, mode factors are percentages, and sums are exact.
- Hashes, digests, user-name normalisation and random tokens: arbitrary functions or values; a token carries its sequence number, which makes tokens distinct.
- `failure_count` and the other observers of the limiter, `record_failure`, and locks as such.
- Python's recursion limit in the depth-first search of the validator.
- The text of answers, evidence and error messages, event payloads beyond what the claims mention, and the agents' prompts and results.
- Row locks, and lease expiry columns, which no transaction reads.
- Draft contents (names, sizes, hashes, validation reports) and actors in the four tables and the audit log; the `get_status` job is modelled, though no public operation queues one.
- `merge_artifacts` and `swap_volume`, archive validation and file-system checks.
- Reading release descriptors, embedding and Chroma calls, and the artifacts written beside a publication.
- `update_span_artifact`, the SQL store and the trace registry.
- The web API, streaming, cookies, the worker's HTTP application and the command line.
