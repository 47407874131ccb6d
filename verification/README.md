# Verification of the workflow engine

A Dafny model of the parts of the task orchestrator on which its runs depend, with proofs about
whole runs under every interleaving of executors.

- **DAG algorithms.** `Graphs`, `DepthFirstSearches`, `TopologicalSorter`, `DagValidator`,
  `DetectedCycles`,
  `DagSerializer` (with `StableSorting`). One white/gray/black search serves both the sorter and the
  validator; the validator's own copy lacks the post-order, which is ignored there.
- **Fan-out and fan-in.** `FanOutFanIn`: functions `Skip` and `Evaluate` on maps of statuses, and the
  methods that change shared `TaskState` objects while the loops of their callers read them.
- **Cron.** `Strings`, `CronExpressions`, `Calendar`, `MinuteScan`, `CronEvaluator`: the parser on
  characters, the calendar of section 21.4.1 of ECMA-262 for years from 1970, and the field-by-field
  search against a scan of every minute.
- **Executor protocol.** `TaskQueues`, `LockManagers`, and `ExecutorProtocol`: any number of executors
  over two Redis lists and a map of expiring locks. Each Redis call is one atomic step, so requeue,
  release and re-enqueue are several; the clock moves on its own and expires keys.
- **Whole runs.** `WorkflowRuns` adds the database rows and what each executor is doing
  (`TaskRunner.run`, `RetryHandler.handleFailure`, evaluation downstream, `execute`). `WorkflowSafety`,
  `RetryLedger`, `WorkflowProgress` and `WorkflowOutcomes` prove what holds in every reachable state,
  and `WorkflowContinuation` that there is no deadlock and that rest is always within reach. A retry
  goes ahead only when its backoff has passed or its lock is lost, and `cancel` reads the rows first
  and writes them one by one later.
- **The classes of the executor.** `TaskClaimers`, `RetryHandlers`, `TaskRunners`,
  `ExecutionControllers`: the methods as written, run without interruption. Each is shown to take
  steps of the machines above, so what is proved of the machines holds of the code between its calls.

The functions are the specifications: each method's contract ties it to one, and the lemmas say what
the function means. Lemmas whose names end in `Told`, and those named beside them, say it once more
from the inputs alone, in terms of fields, literals and arithmetic. Check with `dafny verify dfyconfig.toml`.

## Assumptions

- Executor ids differ; the TTL is 30000 ms and the renewal interval 10000 ms. A run is *timely* when
  no renewal reaches Redis TTL minus interval late, and when every row that `cancel` writes is still
  pending. Theorems that need this, or that need no crash, say so in their hypotheses. A timely run
  also covers the moment between stopping the timer and the release.
- A body may take any time, none included; what it does is its outcome.
- The callback that `TaskClaimer.start` is given is not in the repository. It is taken to read the
  task state, run it and, once the task is completed and released, evaluate its downstream on a fresh
  snapshot.
- One execution is followed at a time. The whole-run machine names a task state after its definition,
  since an execution has exactly one state per definition.
- Whole-run theorems are about workflows without conditions, valid references and validated policies.

## Where code and documentation differ

The model follows the code.

- `detectCycles` is documented to return the nodes involved in cycles. It keeps searching after a
  cycle with gray nodes left over, and can report `undefined` and nodes on no cycle
  (`DagValidator.CyclesMayReportStrayNodes`). It also stops looking below a node at the first cycle
  found there, and can leave out nodes on cycles (`DetectedCycles.CyclesMayMissNodes`). Whether its
  result is empty is exact; `DetectedCycles.CyclesGenuineExactly` says for which inputs it names
  only nodes on cycles, and `DetectedCycles.CyclesExactly` for which it names these and no others.
- A successor of the evaluated task that becomes ready because a later edge of the same call skips
  one of its upstreams is not listed by that call (`FanOutFanIn.JoinMayBeMissed`), and neither is a
  join that is no successor and becomes ready by such a skip (`FanOutFanIn.OtherJoinMayBeMissed`).
  `FanOutFanIn.ReadyIsListedExactly` and `FanOutFanIn.OthersAreNeverListed` say for which inputs
  this happens.
- The `crontab` utility of IEEE Std 1003.1 takes a day that matches day-of-month or day-of-week when
  both are restricted. The code requires both.
- The design promises a next run for every valid expression. The search stops after the fourth year
  that follows the starting year (`CronEvaluator.LaterRunsAreMissed`).
- The `unreachable_nodes` error can never be reported (`DagValidator.ValidationIsExact`).
- `cancel` is to cancel pending tasks. It writes what it has read as pending, whatever has become of
  it since, and can overwrite a completed task (`WorkflowOutcomes.LateCancelOverwrites`).
- A timed-out task is written even by an executor that has lost its lock, and a retry goes from running
  to pending without the transition check.

## Model

| member | source | states |
|---|---|---|
| WorkflowOutcomes.SuccessCompletesEverything | services/executor-service/src/services/fan-out-fan-in.ts:21-61 | A condition-free workflow that `validateDAG` accepts, started by `execute`, in which every body succeeds and nothing is cancelled: in any reachable state with nothing queued, claimed, running or awaiting evaluation, every task is completed after exactly one run of its body, under every interleaving (timely renewals, no crash) |
| WorkflowOutcomes.QuiescenceIsExact | services/executor-service/src/services/fan-out-fan-in.ts:21-61 | The same with failures, timeouts, retries and cancellations: at rest a task that was not cancelled is pending exactly when an ancestor failed, timed out or was cancelled, otherwise it has ended; a task with a policy has its one dead letter exactly when it failed; without a call of `cancel` nothing is cancelled |
| WorkflowContinuation.SomethingCanAdvance | services/executor-service/src/services/task-claimer.ts:45-105 | No deadlock: unless everything is at rest, some timely run of nothing but the clock and renewals ends where some executor can take another step, or a root can be enqueued |
| WorkflowContinuation.AdvancesExactly | services/executor-service/src/services/retry-handler.ts:97-118 | Such a step can be taken at once exactly when a root is left to enqueue, or an executor is neither at rest nor in a backoff, or one at rest finds something queued: in its backoff an executor does nothing but wait and renew |
| WorkflowContinuation.RestIsWithinReach | services/executor-service/src/services/task-claimer.ts:45-105 | From every state that a timely run without a crash has reached, under any interleaving, some timely run without a crash leads on to a state with nothing left to do; in it every backoff takes its time, every lock is renewed meanwhile, and no further body fails |
| WorkflowContinuation.CompletionIsWithinReach | services/executor-service/src/services/task-claimer.ts:45-105 | When every body has succeeded so far and nothing was cancelled, such a run leads to every task being completed after exactly one run of its body |
| WorkflowContinuation.WaitUntil | services/executor-service/src/services/task-claimer.ts:77-93 | Time can pass up to any moment with every timer that falls due renewing its lock, while rows, lists and what executors do stay the same |
| WorkflowContinuation.WorkOffOne | services/executor-service/src/services/task-claimer.ts:52-99 | With everybody at rest, one more task can be claimed, run and released so that fewer tasks are pending or the queue is shorter |
| WorkflowContinuation.Drain | services/executor-service/src/services/task-claimer.ts:45-116 | Every executor can be brought to rest by its own steps once its backoffs are waited for; the others keep what they are doing, up to renewals |
| WorkflowOutcomes.StartsFollowTheGraph | services/executor-service/src/services/fan-out-fan-in.ts:41-55 | With timely renewals and cancellations, crashes allowed: whatever is queued, claimed, or neither pending nor cancelled has all predecessors completed, and nothing on a path below a task that is not completed has started |
| WorkflowOutcomes.LateCancelOverwrites | services/scheduler-api/src/controllers/execution-controller.ts:73-79 | Without timely cancellations that fails: every run that has completed a task and started a successor has one beside a late `cancel` that ends with the successor started and the task cancelled |
| WorkflowSafety.NothingStartsEarly | services/executor-service/src/services/fan-out-fan-in.ts:41-55 | Without any assumption on clocks, lateness, crashes or cancellations: whatever is queued, claimed, or neither pending nor cancelled has had every predecessor written completed before |
| WorkflowSafety.StepIsSafe | services/executor-service/src/services/fan-out-fan-in.ts:41-55 | Every single step of every executor, and of `cancel`, keeps that invariant |
| WorkflowSafety.SnapshotIsSafe | services/executor-service/src/services/fan-out-fan-in.ts:21-60 | Evaluating downstream on a snapshot keeps the invariant and lists only pending tasks all of whose predecessors are completed in the snapshot |
| WorkflowOutcomes.RetryLifecycle | services/executor-service/src/services/retry-handler.ts:41-95 | For validated policies, timely renewals and cancellations: a body runs at most `maxAttempts` times (once without a policy); failed under a policy goes with exactly one dead letter, whose attempts equal `maxAttempts`; pending, completed, timed-out and cancelled tasks have none |
| RetryLedger.StepKeepsLedger | services/executor-service/src/services/retry-handler.ts:41-95 | Every step keeps the ledger: the row of a task, its body runs and its dead letters fit together, and so does what an executor that holds the lock believes about them |
| RetryLedger.RunKeepsLedger | services/executor-service/src/services/retry-handler.ts:41-95 | The ledger and the cover of every lease hold after every timely run |
| WorkflowProgress.StepKeepsLive | services/executor-service/src/services/fan-out-fan-in.ts:21-61 | Every step keeps this: each pending task is scheduled somewhere or has a predecessor not yet evaluated, and each running task has an executor in its run |
| WorkflowProgress.SnapshotKeepsLive | services/executor-service/src/services/fan-out-fan-in.ts:41-55 | Evaluating the last completed predecessor of a join schedules the join |
| WorkflowRuns.WaitEndIsExact | services/executor-service/src/services/retry-handler.ts:101 | The wait of the machine, in whole milliseconds, is over exactly when the loop condition on the real delay fails |
| WorkflowRuns.CancelTold | services/scheduler-api/src/controllers/execution-controller.ts:73-79 | `cancel` takes exactly the rows that are pending when it reads, and each write cancels one of them and touches no other row |
| WorkflowRuns.PolicyTold | services/executor-service/src/services/retry-handler.ts:46-48 | The policy of a task is that of its definition, and an unknown id has none |
| WorkflowRuns.ListedArePushedInOrder | services/executor-service/src/services/fan-out-fan-in.ts:58-61 | Pushing what a snapshot lists one by one, undisturbed, leaves the queue as the batch of `enqueueBatch` does |
| WorkflowOutcomes.PendingHasFailedAncestor | services/executor-service/src/services/fan-out-fan-in.ts:41-55 | At rest, what is still pending lies below a failed, timed-out or cancelled task |
| ExecutorProtocol.LeaseExclusion | packages/shared/src/redis/lock-manager.ts:10-42 | Over all interleavings: an executor whose last acquire or renew is younger than the TTL, and that has not released, is the owner in Redis; so no two executors lease the same task |
| ExecutorProtocol.LeaseStep | packages/shared/src/redis/lock-manager.ts:10-42 | Every step keeps a lease equal to the lock entry with its expiry |
| ExecutorProtocol.TimelyExclusion | services/executor-service/src/services/task-claimer.ts:73-96 | If no renewal is late by TTL minus interval, nobody is aborted and at most one executor works on a task, through its whole run and retry wait |
| ExecutorProtocol.TimelyTold | services/executor-service/src/services/task-claimer.ts:39-40 | With the default times a run is timely when every renewal is late by less than 20 seconds |
| ExecutorProtocol.CoveredMeansExclusive | services/executor-service/src/services/task-claimer.ts:73-96 | With the next renewal due within an interval of the last one, working means owning |
| ExecutorProtocol.Conservation | packages/shared/src/redis/task-queue.ts:25-39 | For each id: enqueues equal copies queued, in processing, held between the halves of a requeue, removed by release, or lost by a crash in between; copies in processing equal outstanding plus abandoned claims; so every `lrem` finds its copy |
| ExecutorProtocol.ConservedStep | services/executor-service/src/services/task-claimer.ts:52-71 | Every step keeps both balances |
| ExecutorProtocol.ProtocolIsFirstInFirstOut | packages/shared/src/redis/task-queue.ts:10-34 | In every run the pushes, in order, are the claims followed by the queue from tail to head |
| TaskQueues.FirstInFirstOut | packages/shared/src/redis/task-queue.ts:10-34 | The same for any sequence of Redis commands from empty lists |
| TaskQueues.OrderIsKept | packages/shared/src/redis/task-queue.ts:10-34 | The same from any state of the lists |
| TaskQueues.LremTakesOne | packages/shared/src/redis/task-queue.ts:32-38 | `lrem key 1 x` takes away one copy, if there is one, and nothing else |
| TaskQueues.LremTakesTheFirst | packages/shared/src/redis/task-queue.ts:32-38 | The copy nearest the head goes, and everything else stays in its place |
| TaskQueues.LpushAll | packages/shared/src/redis/task-queue.ts:14-22 | A pipeline of pushes leaves the batch reversed at the head |
| TaskQueues.TaskQueue.Enqueue | packages/shared/src/redis/task-queue.ts:10-12 | The id is put at the head of the queue |
| TaskQueues.TaskQueue.EnqueueBatch | packages/shared/src/redis/task-queue.ts:15-22 | The batch is pushed in order; an empty batch changes nothing |
| TaskQueues.TaskQueue.Claim | packages/shared/src/redis/task-queue.ts:25-28 | The oldest id moves to the processing list, or None on an empty queue |
| TaskQueues.TaskQueue.Requeue | packages/shared/src/redis/task-queue.ts:31-34 | One copy leaves the processing list and the id is pushed again |
| TaskQueues.TaskQueue.RemoveFromProcessing | packages/shared/src/redis/task-queue.ts:37-39 | One copy leaves the processing list |
| LockManagers.LockManager.AcquireLock | packages/shared/src/redis/lock-manager.ts:10-14 | Acquired exactly if there is no entry or it has expired, and then the entry is the caller's for the TTL; a lock acquired with a positive TTL is owned |
| LockManagers.LockManager.RenewLock | packages/shared/src/redis/lock-manager.ts:17-28 | Renewed exactly if the caller's entry has not expired, and then it lasts for the TTL from now; nobody else gains or loses a lock |
| LockManagers.LockManager.ReleaseLock | packages/shared/src/redis/lock-manager.ts:31-42 | Released exactly if the caller's entry has not expired, and then it is gone; afterwards the caller owns nothing there; nobody else gains or loses a lock |
| TaskClaimers.PollingClaimsOrRotates | services/executor-service/src/services/task-claimer.ts:52-96 | One pass either rotates a task whose lock is held to the head of the queue, leaving everything else as it was, or works on the oldest id and owns its lock |
| TaskClaimers.TaskClaimer.PollOnce | services/executor-service/src/services/task-claimer.ts:45-99 | The pass takes the steps of the protocol; a task is claimed exactly when none is active, the queue is not empty and the lock is free |
| TaskClaimers.TaskClaimer.RenewalTick | services/executor-service/src/services/task-claimer.ts:77-93 | The callback is one renewal step; the task is marked aborted exactly when the lock is not owned |
| TaskClaimers.TaskClaimer.ReleaseCurrentTask | services/executor-service/src/services/task-claimer.ts:109-116 | Takes the release and removal steps: the lock is not owned any more, one copy leaves processing, no task is active |
| TaskClaimers.TaskClaimer.ClearCurrentTask | services/executor-service/src/services/task-claimer.ts:139-144 | Forgets the active task; after an abort this is the step that abandons the claim |
| TaskClaimers.TaskClaimer.Stop | services/executor-service/src/services/task-claimer.ts:147-152 | Ends the loop and the renewals, and keeps the active task |
| RetryHandlers.LetTimePass | services/executor-service/src/services/task-claimer.ts:77-93 | While time passes the timer callback runs whenever it is due; if it is never later than a slack below TTL minus interval, a lease that lasts until the next callback lasts on, however long this takes; the task is found aborted only if the lock is lost; the machine only lets time pass |
| RetryHandlers.LeaseIsSustained | services/executor-service/src/services/task-claimer.ts:61-77 | Every lease that runs for more than an interval and the slack, such as a fresh one, lasts until the next callback |
| RetryHandlers.RetryHandler.WaitWithLockRenewal | services/executor-service/src/services/retry-handler.ts:97-118 | Terminates; the machine only lets time pass; with a punctual timer a sustained lease lasts through the wait, whatever the sleeps do; however late the timer is, a lease that outlasts the first sleep lasts if the sleeps are punctual, by the renewals of the wait itself; it ends early only when the lock is not owned, and the task is found aborted afterwards only if the lock is lost |
| RetryHandlers.RetryHandler.HandleFailure | services/executor-service/src/services/retry-handler.ts:41-95 | Without a policy: failed. With one: the attempt is counted; then one dead letter and failed, or pending and queued again, or nothing more. The last happens only if by the end of the wait the renewal timer has marked the task aborted, the lock being lost, and never with a punctual timer and a sustained lease. All of it is a run of the machine of module WorkflowRuns |
| RetryHandlers.RetryHandler.GiveUp | services/executor-service/src/services/retry-handler.ts:63-69 | A dead letter with the attempt count, status failed, claim released |
| RetryHandlers.RetryHandler.Reexecute | services/executor-service/src/services/retry-handler.ts:81-94 | Status pending, claim released, id pushed again |
| RetryHandlers.RetryHandler.DecideAttempt | services/executor-service/src/services/retry-handler.ts:63-94 | The last attempt is given up, any other is followed by a wait and another attempt |
| RetryHandlers.RetryHandler.CountAttempt | services/executor-service/src/services/retry-handler.ts:55-61 | The attempt is written, and nothing else |
| RetryHandlers.RetryHandler.RetryLater | services/executor-service/src/services/retry-handler.ts:71-94 | After the backoff: pending and queued again, unless the timer has marked the task aborted, which needs a lost lock; with a punctual timer and a sustained lease that is after the whole delay of the policy; a renewal of the wait itself that fails does not keep the task from being queued |
| RetryHandlers.RetryHandler.FailWithoutRetry | services/executor-service/src/services/retry-handler.ts:48-53 | Status failed and claim released at once |
| RetryHandlers.CloseTask | services/executor-service/src/services/task-claimer.ts:109-116 | Giving up a claim is two steps of the machine and leads on to evaluation, retry or nothing |
| RetryHandlers.Abandon | services/executor-service/src/services/task-runner.ts:61-65 | After an abort nothing is written and the claim stays in the processing list |
| TaskRunners.TaskRunner.Run | services/executor-service/src/services/task-runner.ts:47-91 | A task that cannot become running is only released; otherwise it becomes running. With a punctual timer and a sustained lease it ends as its outcome says, or is queued again while the policy allows another attempt, however long its body and its backoff take; a lost lock leaves it running, and only a lost lock does; every run is a run of the machine |
| TaskRunners.TaskRunner.Conclude | services/executor-service/src/services/task-runner.ts:71-90 | Timeout is written even after a lost lock, success and failure only without one |
| TaskRunners.TaskRunner.BeginRun | services/executor-service/src/services/task-runner.ts:50-65 | The body is run exactly when the transition is allowed and the task is not aborted |
| TaskRunners.TaskRunner.Execute | services/executor-service/src/services/task-runner.ts:69-84 | However long the body takes, a sustained lease lasts through it if the renewal timer is punctual; the task is found aborted only if the lock is lost |
| TaskRunners.TaskRunner.RunBody | services/executor-service/src/services/task-runner.ts:67-90 | The body and what follows it |
| TaskRunners.TaskRunner.FinishAs | services/executor-service/src/services/task-runner.ts:215-232 | The final status is written and the claim released; a completed task goes on to evaluation |
| ExecutionControllers.ExecutionController.Execute | services/scheduler-api/src/controllers/execution-controller.ts:15-41 | 404 and no change for an unknown workflow. Otherwise, in the order of the definitions, one state with the new id, this execution, the definition id, status pending and no attempts is added for each; the root states are pushed; the execution is in progress; 202. For distinct new ids a state is pushed exactly when no edge has its definition as target, once, and in order |
| ExecutionControllers.ExecutionController.EnqueueRoots | services/scheduler-api/src/controllers/execution-controller.ts:27-34 | The loop: exactly the root states are pushed, in order |
| ExecutionControllers.ExecutionController.CreateBatch | services/scheduler-api/src/repositories/task-state-repository.ts:5-36 | The rows, field by field |
| ExecutionControllers.RootIdsAreRoots | services/scheduler-api/src/controllers/execution-controller.ts:27-34 | The pushed ids are exactly those of states whose definition no edge points to |
| ExecutionControllers.RootIdsTold | services/scheduler-api/src/controllers/execution-controller.ts:27-34 | For distinct new ids: which ids are pushed, told from the edges and definitions, and that they come in the order of the definitions |
| ExecutionControllers.RootIdsAreTheRootsOfTheRun | services/scheduler-api/src/controllers/execution-controller.ts:27-34 | With states named after definitions, these are the roots from which the whole-run theorems start |
| ExecutionControllers.RunBeginsWithTheseRows | services/scheduler-api/src/controllers/execution-controller.ts:23-34 | With new ids that name the definitions, the whole-run machine begins with exactly these rows and these ids |
| ExecutionControllers.AcceptedWorkflowsHaveRoots | services/scheduler-api/src/controllers/execution-controller.ts:27-34 | A non-empty workflow that `validateDAG` accepts has something to start with |
| FanOutFanIn.SkipIsLeastFixpoint | services/executor-service/src/services/fan-out-fan-in.ts:79-101 | Marking a pending task changes only pending to skipped, and the newly skipped set is the least one that holds the task and every pending task with an upstream in the set and all upstreams dead or in the set |
| FanOutFanIn.SkipIgnoresEdgeOrder | services/executor-service/src/services/fan-out-fan-in.ts:89-99 | The result does not depend on the order or multiplicity of edges |
| FanOutFanIn.SkipSettles | services/executor-service/src/services/fan-out-fan-in.ts:89-99 | The recursion leaves nothing to skip but what the loops of its callers will still look at |
| FanOutFanIn.SkipStaysWithin | services/executor-service/src/services/fan-out-fan-in.ts:89-99 | It skips no more than any closed set |
| FanOutFanIn.SkipSpares | services/executor-service/src/services/fan-out-fan-in.ts:79-101 | A task with a completed upstream is never skipped by propagation |
| FanOutFanIn.EvaluationIsSound | services/executor-service/src/services/fan-out-fan-in.ts:17-66 | With unique edge pairs: no duplicates; every listed task is a successor, still pending at return, not skipped in the call, and has all upstreams completed or skipped with one completed; what is skipped is exactly the least set that the failing edges demand |
| FanOutFanIn.StatesAfterLoop | services/executor-service/src/services/fan-out-fan-in.ts:21-39 | After any part of the loop the newly skipped set is the least one that holds the pending targets of its failing edges and every task forced by it |
| FanOutFanIn.UnconditionalEvaluationIsExact | services/executor-service/src/services/fan-out-fan-in.ts:21-56 | Without conditions nothing is skipped and exactly the ready successors are listed, in edge order |
| FanOutFanIn.FailingEdgesSkip | services/executor-service/src/services/fan-out-fan-in.ts:26-39 | The pending target of an edge whose `conditionExpr` is not empty and does not pass is skipped at return, and not listed |
| FanOutFanIn.OnlyFailingEdgesSkip | services/executor-service/src/services/fan-out-fan-in.ts:26-39 | If every edge to a pending target has no condition, an empty one or one that passes, no status changes |
| FanOutFanIn.SkippedForAReason | services/executor-service/src/services/fan-out-fan-in.ts:79-101 | What is skipped is the target of such a failing edge, or has an upstream that the call has skipped and only upstreams that are skipped, failed, cancelled or timed out |
| FanOutFanIn.SkipsAreComplete | services/executor-service/src/services/fan-out-fan-in.ts:89-99 | What stays pending below a skip has an upstream that is none of these |
| FanOutFanIn.ListedIsReady | services/executor-service/src/services/fan-out-fan-in.ts:41-55 | What is listed is the target of an edge from the task, is pending at return, and has all upstreams completed or skipped and one completed |
| FanOutFanIn.ReadyBeforeIsListed | services/executor-service/src/services/fan-out-fan-in.ts:41-55 | The pending target of an edge that does not fail is listed if all its upstreams were completed or skipped before the call and one completed |
| FanOutFanIn.DeadWithoutSuccess | services/executor-service/src/services/fan-out-fan-in.ts:92-95 | Dead are skipped and the terminal statuses without completed |
| FanOutFanIn.JoinMayBeMissed | services/executor-service/src/services/fan-out-fan-in.ts:21-56 | With conditions a join that becomes ready by a skip later in the same call is not listed; evaluating any task but its two upstreams, one of them just skipped, lists nothing |
| FanOutFanIn.ReadyIsListedExactly | services/executor-service/src/services/fan-out-fan-in.ts:21-56 | Told from the inputs: a successor by an edge that does not fail is listed exactly when it is pending, not in the least set demanded by the failing edges before its own, and ready counting that set as skipped; it is ready at return but missed exactly when the set of all failing edges makes it ready and that smaller set does not |
| FanOutFanIn.OthersAreNeverListed | services/executor-service/src/services/fan-out-fan-in.ts:17-56 | A task that is no successor of the evaluated one is never listed; it is pending and ready at return exactly when the least set that all failing edges demand leaves it out and makes it ready |
| FanOutFanIn.OtherJoinMayBeMissed | services/executor-service/src/services/fan-out-fan-in.ts:21-39 | Edges d to b, a to c with a failing condition, and c to b, with a and d completed: evaluating a makes b ready without listing it, evaluating d before that does not list it either, and evaluating any task but c and d never does |
| FanOutFanIn.FailuresFirstIsExact | services/executor-service/src/services/fan-out-fan-in.ts:21-56 | With the failing edges first, exactly those successors that are ready at return are listed, in edge order |
| FanOutFanIn.FanOut.MarkSkipped | services/executor-service/src/services/fan-out-fan-in.ts:79-101 | The recursive method, changing shared states while its callers loop over them, terminates on every graph and does what `Skip` says |
| FanOutFanIn.FanOut.FanInSatisfied | services/executor-service/src/services/fan-out-fan-in.ts:42-53 | The fan-in check on the shared states |
| FanOutFanIn.FanOut.ConsiderEdge | services/executor-service/src/services/fan-out-fan-in.ts:21-56 | One round of the loop |
| FanOutFanIn.FanOut.ConsiderOutgoing | services/executor-service/src/services/fan-out-fan-in.ts:21-56 | The whole loop, with the state ids of what it lists |
| FanOutFanIn.FanOut.EvaluateDownstream | services/executor-service/src/services/fan-out-fan-in.ts:10-67 | The statuses are those of `Evaluate`, the listed ids are returned and pushed as one batch, and one event is published. Told from the fields: a non-empty condition skips its pending target if there is no output or it does not hold on it; if none does so nothing is skipped; and no state is listed that is not pending at return |
| FanOutFanIn.IndexByDefId | services/executor-service/src/services/fan-out-fan-in.ts:19 | A later state replaces an earlier one with the same definition id |
| FanOutFanIn.LastOneIsFiled | services/executor-service/src/services/fan-out-fan-in.ts:19 | A state is filed under its definition id if no later state has the same |
| DepthFirstSearches.VisitOnTrack | packages/shared/src/dag/topological-sorter.ts:45-72 | Gray stays exactly the current path, a walk without repetition, and black exactly what is finished, each after all its successors; a search finishes its node or records exactly one simple cycle |
| DepthFirstSearches.GrayClosesCycle | packages/shared/src/dag/topological-sorter.ts:52-60 | From a gray neighbor on, the path is a simple cycle, and the loop collects it |
| DepthFirstSearches.RecordsCycle | packages/shared/src/dag/topological-sorter.ts:52-60 | What is recorded is that cycle, in order, without repetition |
| DepthFirstSearches.BuildAdjacencyList | packages/shared/src/dag/dag-validator.ts:22-40 | The map holds, per task id, the targets of its edges in order |
| DepthFirstSearches.AdjacencyRepresents | packages/shared/src/dag/dag-validator.ts:22-40 | That map represents the graph restricted to task ids |
| DepthFirstSearches.DepthFirstSearch.Dfs | packages/shared/src/dag/topological-sorter.ts:45-72 | The recursive closure over shared maps and arrays does what `Visit` says |
| DepthFirstSearches.DepthFirstSearch.RecordCycle | packages/shared/src/dag/topological-sorter.ts:54-58 | The loop that adds the path from the neighbor on |
| TopologicalSorter.TopologicalSort | packages/shared/src/dag/topological-sorter.ts:27-91 | Valid exactly on acyclic graphs; then the order lists every task id once and each edge forwards; otherwise `cycleNodes` is one genuine simple cycle in order |
| TopologicalSorter.SortIsCorrect | packages/shared/src/dag/topological-sorter.ts:74-90 | The same of the specification function |
| TopologicalSorter.OrderTold | packages/shared/src/dag/topological-sorter.ts:86-90 | Told from the edges: the order holds every task id once, and the source of each edge between task ids before its target |
| TopologicalSorter.CycleTold | packages/shared/src/dag/topological-sorter.ts:74-84 | Told from the edges: the reported nodes are not empty, and some edge leads from each to the next and from the last to the first |
| TopologicalSorter.ValidExactlyWhenAcyclic | packages/shared/src/dag/topological-sorter.ts:74-90 | Invalid exactly when a cycle exists |
| Graphs.TopologicalOrderMeansAcyclic | packages/shared/src/dag/topological-sorter.ts:86-90 | A graph with such an order has no cycle |
| DagValidator.CyclesAreDetected | packages/shared/src/dag/dag-validator.ts:91-97 | `detectCycles` is empty exactly on acyclic graphs, and its list begins with a genuine simple cycle |
| DagValidator.CyclesMayReportStrayNodes | packages/shared/src/dag/dag-validator.ts:71-76 | After the first cycle it may add `undefined` and a node that is on no cycle, against its documentation |
| DetectedCycles.CyclesGenuineExactly | packages/shared/src/dag/dag-validator.ts:47-98 | Half of the promise, told from the inputs: the list names only nodes on cycles exactly when every task that can reach a cycle lies on the trail of the first task whose trail meets its own, a trail going on to the first neighbor that can reach a cycle |
| DetectedCycles.CyclesExactly | packages/shared/src/dag/dag-validator.ts:47-98 | Told from the inputs: the list names exactly the nodes on cycles when, besides, every node on a cycle comes back to itself by going on to the first neighbor that can reach a cycle; and not otherwise |
| DetectedCycles.ListedExactly | packages/shared/src/dag/dag-validator.ts:63-95 | When no search runs into an earlier trail, the list names exactly the nodes whose trail comes back to them |
| DetectedCycles.CyclesMayMissNodes | packages/shared/src/dag/dag-validator.ts:69-77 | With edges a to b, b to c, c to b and c to a the list is b and c, although a is on a cycle too, and although no listed node is wrong |
| DetectedCycles.TrailSearch | packages/shared/src/dag/dag-validator.ts:63-95 | A search from a white task that can reach a cycle leaves exactly its trail gray, and reports `undefined` exactly when it runs into an earlier trail |
| DagValidator.GenuineWithoutUndefined | packages/shared/src/dag/dag-validator.ts:71-76 | The list names only nodes on cycles exactly when `undefined` did not get into it |
| DagValidator.DetectCycles | packages/shared/src/dag/dag-validator.ts:47-98 | The search from every white task, as written |
| DagValidator.ValidateEdgeReferences | packages/shared/src/dag/dag-validator.ts:104-121 | The pairs of the edges with an unknown end, in order; none exactly when all references are valid |
| DagValidator.InvalidEdgesTold | packages/shared/src/dag/dag-validator.ts:104-121 | A pair is listed exactly when it is the source and target of an edge of which one is no task id, and there are as many pairs as such edges |
| DagValidator.CheckReachability | packages/shared/src/dag/dag-validator.ts:127-168 | Terminates with repeated queue entries, on cyclic graphs too, and returns exactly the tasks that no walk from a root reaches |
| DagValidator.VisitedIsReachable | packages/shared/src/dag/dag-validator.ts:149-164 | A closed set of reachable nodes that holds the roots is what is reachable |
| DagValidator.AcyclicIsReachable | packages/shared/src/dag/dag-validator.ts:211-219 | In an acyclic graph every task is reachable from a root |
| DagValidator.ValidationIsExact | packages/shared/src/dag/dag-validator.ts:178-226 | Accepted exactly when all references are valid and there is no cycle; `unreachable_nodes` is never reported |
| DagValidator.ErrorsTold | packages/shared/src/dag/dag-validator.ts:178-226 | At most two errors: first the invalid references exactly when some edge has an unknown end, last the cycle exactly when there is one |
| DagValidator.AlgorithmsAgree | packages/shared/src/dag/dag-validator.ts:178-226 | With valid references validation, sorting and cycle detection agree |
| DagValidator.ValidateDAG | packages/shared/src/dag/dag-validator.ts:178-226 | The errors in order, and the exact meaning of `valid` |
| DagSerializer.SerializedIsSortedAndComplete | packages/shared/src/dag/dag-serializer.ts:17-40 | By `compare` alone: task ids never decrease, sources never decrease, and targets do not where sources compare equal; every projected task and edge is there as often as in the input |
| DagSerializer.SameEndsKeepOrder | packages/shared/src/dag/dag-serializer.ts:22-28 | The sort is stable: edges whose ends compare equal stay in the order of the input |
| DagSerializer.RowsKeepFields | packages/shared/src/dag/dag-serializer.ts:17-40 | The projection, field by field |
| DagSerializer.RowsComeBack | packages/shared/src/dag/dag-serializer.ts:46-65 | Projecting what was read back gives the rows it was read from |
| DagSerializer.ReadBack | packages/shared/src/dag/dag-serializer.ts:46-65 | What is read back, field by field, with the defaults of the fields that are not serialized |
| DagSerializer.SerializeIsIdempotent | packages/shared/src/dag/dag-serializer.ts:46-65 | Serializing what was read back gives the same form |
| DagSerializer.SerializeIgnoresOrder | packages/shared/src/dag/dag-serializer.ts:18-28 | With ids and edge ends that compare equal only for the same task or edge, permuting the inputs changes nothing |
| DagSerializer.ValidityIsPreserved | packages/shared/src/dag/dag-serializer.ts:46-65 | `validateDAG` accepts what was written and read back exactly when it accepts the original |
| DagSerializer.ByEndsIsOrder | packages/shared/src/dag/dag-serializer.ts:23-27 | Comparing sources and then targets is a consistent order if comparing ids is |
| CronEvaluator.GetNextRunTime | packages/shared/src/scheduling/cron-evaluator.ts:207-349 | In UTC the search terminates and gives exactly what trying every minute gives, or the error of the parser |
| CronEvaluator.SearchForward | packages/shared/src/scheduling/cron-evaluator.ts:215-348 | The loop over year, month, day, hour and minute, with its lexicographic measure |
| CronEvaluator.NextRunIsLeast | packages/shared/src/scheduling/cron-evaluator.ts:215-348 | The result is a whole minute strictly after the reference that matches all five fields, and no matching minute lies between; it fails exactly when none matches up to the end of the fourth year after the starting year |
| CronEvaluator.MatchesTold | packages/shared/src/scheduling/cron-evaluator.ts:227-328 | A minute matches exactly when its minute, hour, day, month and weekday are in the fields, the weekday being the number of days since a Thursday modulo 7 |
| CronEvaluator.FieldsAdmitWhatOccurs | packages/shared/src/scheduling/cron-evaluator.ts:28-34 | The values that each field admits are exactly those that occur in some civil time |
| CronEvaluator.EveryMinuteRuns | packages/shared/src/scheduling/cron-evaluator.ts:207-349 | "* * * * *" is accepted, matches every minute, and runs at the next whole minute |
| CronEvaluator.RunsEnumerate | packages/shared/src/scheduling/cron-evaluator.ts:207-349 | Asking again from each result enumerates the matching minutes in order, none skipped, and the list is shorter than asked for only where asking once more fails |
| CronEvaluator.YearlyRunsAreFound | packages/shared/src/scheduling/cron-evaluator.ts:215-348 | With all weekdays and some date that every year has, the search always succeeds |
| CronEvaluator.LaterRunsAreMissed | packages/shared/src/scheduling/cron-evaluator.ts:223-224 | From 2017 a leap day that is a Monday is not found, although one comes in 2044 |
| CronEvaluator.FindMonth | packages/shared/src/scheduling/cron-evaluator.ts:227-243 | The month: no matching time is passed over, and the date moves on or the month matches |
| CronEvaluator.FindDay | packages/shared/src/scheduling/cron-evaluator.ts:245-296 | Day-of-month and day-of-week: no matching time is passed over, and the date moves on or matches |
| CronEvaluator.FindTime | packages/shared/src/scheduling/cron-evaluator.ts:298-328 | Hour and minute: no matching time is passed over, and the time moves on or everything matches |
| CronEvaluator.FindNextOrEqual | packages/shared/src/scheduling/cron-evaluator.ts:190-197 | The least allowed value that is not below the current one |
| CronEvaluator.HorizonIsYears | packages/shared/src/scheduling/cron-evaluator.ts:223-226 | The search covers exactly the years up to the fourth after the starting year |
| Strings.WordsRoundTrip | packages/shared/src/scheduling/cron-evaluator.ts:153-154 | Words come back from trimming and splitting, whatever white space is between and around them |
| Strings.SpacesTold | packages/shared/src/scheduling/cron-evaluator.ts:153-154 | White space is these 25 characters |
| Strings.NumeralIsRead | packages/shared/src/scheduling/cron-evaluator.ts:48 | A numeral is read as its decimal value, leading zeros included |
| Strings.ParseIntTold | packages/shared/src/scheduling/cron-evaluator.ts:48 | `parseInt` reads an optional sign and a numeral, whatever follows |
| Strings.ParseIntFails | packages/shared/src/scheduling/cron-evaluator.ts:49 | And fails on everything else |
| Strings.ToNumberTold | packages/shared/src/scheduling/cron-evaluator.ts:62 | `Number` on an empty string or an optional sign and something else |
| Strings.DecimalValueIsPositional | packages/shared/src/scheduling/cron-evaluator.ts:48 | Numerals are positional with base ten |
| Strings.DigitsTold | packages/shared/src/scheduling/cron-evaluator.ts:48 | The digits are the ten characters 0 to 9, with these values |
| Calendar.FromMinutes | packages/shared/src/scheduling/cron-evaluator.ts:355-367 | Every minute has a valid civil time that maps back to it |
| Calendar.CivilRoundTrip | packages/shared/src/scheduling/cron-evaluator.ts:407-409 | And every valid civil time comes back from its minute |
| Calendar.MinutesAreCivil | packages/shared/src/scheduling/cron-evaluator.ts:407-409 | The order of minutes is the calendar order |
| Calendar.DayNumberInClosedForm | packages/shared/src/scheduling/cron-evaluator.ts:174-177 | The number of every day, in closed form and for all years and months |
| Calendar.MinutesInClosedForm | packages/shared/src/scheduling/cron-evaluator.ts:407-409 | The minute and the weekday of every civil time, in closed form |
| Calendar.WeekdaysFollow | packages/shared/src/scheduling/cron-evaluator.ts:182-184 | The first of January 1970 is a Thursday, and weekdays follow each other |
| Calendar.DayZeroIsTheLastDay | packages/shared/src/scheduling/cron-evaluator.ts:174-177 | Day 0 of the next month is the last day of the month |
| CronExpressions.FieldMeaning | packages/shared/src/scheduling/cron-evaluator.ts:40-124 | Every token of the documented grammar, with any numerals, leading zeros included, is accepted exactly when each part is admissible; the field is then the non-empty, increasing, in-range list of what the parts denote |
| CronExpressions.FieldRoundTrip | packages/shared/src/scheduling/cron-evaluator.ts:40-124 | Writing a field as a comma list and parsing it gives the field back |
| CronExpressions.AcceptedFieldsAreProper | packages/shared/src/scheduling/cron-evaluator.ts:119-123 | Whatever token `ToNumber` covers: an accepted field is such a list, and the check for an empty one never fires |
| CronExpressions.ParseField | packages/shared/src/scheduling/cron-evaluator.ts:40-124 | The loop over the parts, with the error of the first bad part |
| CronExpressions.FirstBadPartIsReported | packages/shared/src/scheduling/cron-evaluator.ts:40-142 | A refused field reports the error of its first bad part, and what the error says is so |
| CronExpressions.ParsePart | packages/shared/src/scheduling/cron-evaluator.ts:44-117 | One part: its values are added, or its error returned |
| CronExpressions.AddSteps | packages/shared/src/scheduling/cron-evaluator.ts:80-82 | The counting loops |
| CronExpressions.BoundsAreInRange | packages/shared/src/scheduling/cron-evaluator.ts:126-142 | Accepted bounds are in range and in order |
| CronExpressions.ParseCronExpression | packages/shared/src/scheduling/cron-evaluator.ts:148-169 | Five fields or the first error; accepted fields are proper |
| CronExpressions.FiveFieldsAreNeeded | packages/shared/src/scheduling/cron-evaluator.ts:148-161 | Any other number of words is refused with that number, and so is the empty string |
| CronExpressions.ExpressionMeaning | packages/shared/src/scheduling/cron-evaluator.ts:148-169 | An expression of the grammar, with any white space between and around its fields, is accepted exactly when all its parts are admissible, and its fields hold what the parts denote |
| CronExpressions.ExpressionRoundTrip | packages/shared/src/scheduling/cron-evaluator.ts:148-169 | Writing parsed fields out and parsing again gives the same fields |
| StateMachine.TransitionsAreExact | packages/shared/src/state-machine/state-machine.ts:74-118 | Exactly six pairs are accepted, with the audit entry or error of each request |
| StateMachine.HistoriesAreShort | packages/shared/src/state-machine/state-machine.ts:50-53 | A history of accepted transitions changes a task at most twice, never twice to the same status, and only a running task completes, fails or times out |
| StateMachine.TerminalMeansFinal | packages/shared/src/state-machine/state-machine.ts:38-68 | A status is terminal exactly when it is not skipped and no transition from it is accepted |
| RetryEngine.ValidateRetryPolicy | packages/shared/src/retry/retry-engine.ts:42-81 | No error exactly for a known strategy, a whole maxAttempts from 1 to 10 and a base delay from 100 to 300000; otherwise each offending field is reported once |
| RetryEngine.DelaysAreBounded | packages/shared/src/retry/retry-engine.ts:95-104 | Every delay of a validated policy is from 100 to 300000 ms, and none is shorter than the one before |
| RetryEngine.DelaysGrowByTheStrategy | packages/shared/src/retry/retry-engine.ts:95-104 | The first delay is the base delay; then a fixed one stays, a linear one grows by the base delay and an exponential one doubles, up to 300000 ms |
| RetryEngine.StrategiesAreOrdered | packages/shared/src/retry/retry-engine.ts:95-104 | At the same base delay: fixed, then linear, then exponential |
| RetryEngine.LifecycleBackoffIsBounded | packages/shared/src/retry/retry-engine.ts:95-116 | The backoffs of a whole lifecycle sum to at most (maxAttempts - 1) * 300000 ms |

## Left out

- Time zones other than UTC in the cron evaluator, and dates beyond the range of JavaScript's `Date`.
- Cron tokens outside the documented grammar whose range ends are decimal fractions, exponents, hexadecimal or infinite: `Number` reads them, `ToNumber` does not.
- Task bodies (`fetch`, `exec`, `new Function`) and the evaluation of conditions: outcomes and an uninterpreted predicate. A throwing condition counts as false.
- The outputs, errors and timestamps of task states, messages of errors and audit entries, and the workflow input.
- Redis and Postgres exceptions, except as the crash of an executor that abandons its claim.
- `TaskClaimer.releaseLock`, the sleep of the polling loop while a task is active, and reclaiming the ids that stay in the processing list after an abort or a crash.
- A renewal callback that is already under way when its timer is stopped.
- `CronEvaluator.SearchForward`: the body of the loop is split into `FindMonth`, `FindDay` and `FindTime`, and the repeated carry into the next day and month is `NextDay` and `NextMonth`.
- `TaskRunners.TaskRunner.Run`: the body's outcome and duration are parameters.
- `RetryEngine.DelaysAreBounded`: numbers are reals; NaN, infinities and the rounding of very large products are not modelled.
- `TaskClaimers.TaskClaimer.RenewalTick`: the branch that marks the task aborted when Redis raises an error.
- `CronExpressions.ParsePart`: range ends with a step that are decimal fractions, exponents, hexadecimal or infinite, which the source accepts and the model rejects.
- `CronExpressions.AcceptedFieldsAreProper`: says nothing of fields that the source accepts because of such range ends.
- Skipped statuses are changed in the snapshot only, as in the source, and are not written to the database; the whole-run machine has no conditions and so never skips.
- The responses of `cancel` and the status of the execution, so that in the machine it may be called again; `getProcessingList`, `getQueueDepth`, `isHeld`, `getOwner`.
- `schedule-evaluator.ts`, `orphan-detector.ts`, `execution-manager.ts`, the other controllers, routes, repositories, heartbeat, metrics, alerting and webhooks.
- Fairness: that a step which can be taken is taken in the end is not modelled, so progress is stated as no deadlock, as rest being within reach, and as what holds at rest.
