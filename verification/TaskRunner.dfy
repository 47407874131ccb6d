/**
 Running a claimed task (services/executor-service/src/services/task-runner.ts), without
 interruption: the outcome of the body and the time it takes are parameters.
 */
module TaskRunners {
  import opened Types
  import opened LockManagers
  import opened StateMachine
  import opened ExecutorProtocol
  import opened TaskClaimers
  import opened WorkflowRuns
  import opened RetryHandlers

  /**
   What follows a body: `aborted` says whether the lock was found lost by then, and `lostLater`
   whether it was found lost during the wait for another attempt.
   */
  ghost predicate Concluded(policy: Option<RetryPolicy>, taskState: TaskRecord, outcome: Outcome,
                            aborted: bool, lostLater: bool, before: Rows, after: Rows)
  {
    if outcome.Timeout? then after == before.(status := before.status[taskState.id := TimedOut])
    else if aborted then after == before
    else if outcome.Success? then after == before.(status := before.status[taskState.id := Completed])
    else FailureHandled(policy, taskState.id, taskState.attemptCount + 1, lostLater, before, after)
  }

  class TaskRunner {
    const db: Database
    const claimer: TaskClaimer
    const retryHandler: RetryHandler

    constructor (db: Database, claimer: TaskClaimer)
      ensures this.db == db && this.claimer == claimer && Valid()
    {
      this.db, this.claimer := db, claimer;
      retryHandler := new RetryHandler(db, claimer);
    }

    ghost predicate Valid() {
      retryHandler.db == db && retryHandler.claimer == claimer
    }

    /** Writes a final status and gives up the claim. */
    method FinishAs(now: int, id: Id, status: Status, ghost w: Workflow, ghost from: System, ghost s: System)
      returns (ghost s': System)
      requires Leads(w, from, s, now, db, claimer) && WorksWith(s, claimer.executorId) && TaskOf(s, claimer.executorId) == id
      requires var j := s.jobs[claimer.executorId];
               && j.Executed? && (j.outcome.Timeout? || !claimer.IsCurrentTaskAborted())
               && status == (if j.outcome.Timeout? then TimedOut else Completed) && !j.outcome.Failure?
      modifies db`status, claimer, claimer.currentTask, claimer.taskQueue, claimer.lockManager
      ensures Leads(w, from, s', now, db, claimer) && claimer.currentTask == null
      ensures db.status == old(db.status)[id := status] && claimer.taskQueue.queue == old(claimer.taskQueue.queue)
      ensures s'.jobs[claimer.executorId] == if status == Completed then Evaluating(id) else NoJob
    {
      if CanTransit(Running, status) {
        db.UpdateStatus(id, status);
      }
      Take(w, from, s, Finish(claimer.executorId));
      s' := CloseTask(now, db, claimer, w, from, Step(w, s, Finish(claimer.executorId)));
    }

    /** The body runs for `bodyMs`, during which the renewal timer fires whenever it is due. */
    method Execute(now: int, id: Id, outcome: Outcome, bodyMs: nat, lateness: Lateness,
                   ghost slack: nat, ghost w: Workflow, ghost from: System, ghost s: System)
      returns (ghost s': System)
      requires Leads(w, from, s, now, db, claimer) && WorksOnTask(s, claimer, id)
      requires s.jobs[claimer.executorId].Started? && !claimer.IsCurrentTaskAborted()
      modifies claimer.currentTask, claimer.lockManager
      ensures Leads(w, from, s', now + bodyMs, db, claimer) && claimer.currentTask == old(claimer.currentTask)
      ensures IsAt(s', claimer.executorId, id, Executed(s.jobs[claimer.executorId].attempts, outcome))
      ensures IsPunctual(lateness, slack) && old(IsSustained(claimer, now, id, slack)) ==>
                IsSustained(claimer, now + bodyMs, id, slack)
      ensures claimer.IsCurrentTaskAborted() ==>
                !Owns(claimer.lockManager.locks, now + bodyMs, id, claimer.executorId)
    {
      Take(w, from, s, Body(claimer.executorId, outcome));
      s' := Step(w, s, Body(claimer.executorId, outcome));
      s' := LetTimePass(now, now + bodyMs, id, db, claimer, lateness, slack, w, from, s');
    }

    /** The transition to running; `started` says whether the body is to be run. */
    method BeginRun(now: int, taskState: TaskRecord, ghost w: Workflow, ghost from: System, ghost s: System)
      returns (started: bool, ghost s': System)
      requires Leads(w, from, s, now, db, claimer)
      requires IsAt(s, claimer.executorId, taskState.id, Fetched(taskState.status, taskState.attemptCount))
      modifies db`status, claimer, claimer.currentTask, claimer.taskQueue, claimer.lockManager
      ensures Leads(w, from, s', now, db, claimer)
      ensures started <==> CanTransit(taskState.status, Running) && !old(claimer.IsCurrentTaskAborted())
      ensures db.status == if CanTransit(taskState.status, Running) then old(db.status)[taskState.id := Running] else old(db.status)
      ensures if started then
                && IsAt(s', claimer.executorId, taskState.id, Started(taskState.attemptCount))
                && claimer.currentTask == old(claimer.currentTask) && !claimer.IsCurrentTaskAborted()
                && claimer.currentTask.nextTick == old(claimer.currentTask.nextTick)
                && claimer.lockManager.locks == old(claimer.lockManager.locks)
              else claimer.currentTask == null
      ensures claimer.taskQueue.queue == old(claimer.taskQueue.queue)
    {
      ghost var e := claimer.executorId;
      Take(w, from, s, Begin(e));
      s' := Step(w, s, Begin(e));
      if !CanTransit(taskState.status, Running) {
        s' := CloseTask(now, db, claimer, w, from, s');
        return false, s';
      }
      db.UpdateStatus(taskState.id, Running);
      if claimer.IsCurrentTaskAborted() {
        s' := Abandon(now, db, claimer, w, from, s');
        return false, s';
      }
      return true, s';
    }

    /** What is written once the body has run. A timeout is written even if the lock was found lost. */
    method Conclude(now: int, taskState: TaskRecord, taskDefinition: TaskDefinition, outcome: Outcome, lateness: Lateness,
                    ghost slack: nat, ghost w: Workflow, ghost from: System, ghost s: System)
      returns (later: int, ghost lostLater: bool, ghost s': System)
      requires Valid() && Leads(w, from, s, now, db, claimer) && w.Policy(taskState.id) == taskDefinition.retryPolicy
      requires IsAt(s, claimer.executorId, taskState.id, Executed(taskState.attemptCount, outcome))
      modifies db, claimer, claimer.currentTask, claimer.taskQueue, claimer.lockManager
      ensures Leads(w, from, s', later, db, claimer) && claimer.currentTask == null
      ensures Concluded(taskDefinition.retryPolicy, taskState, outcome, old(claimer.IsCurrentTaskAborted()), lostLater,
                        old(RowsOf(db, claimer)), RowsOf(db, claimer))
      ensures lostLater ==> !Owns(claimer.lockManager.locks, later, taskState.id, claimer.executorId)
      ensures old(claimer.IsCurrentTaskAborted()) && !outcome.Timeout? ==>
                later == now && claimer.lockManager.locks == old(claimer.lockManager.locks)
      ensures IsPunctual(lateness, slack) && old(IsSustained(claimer, now, taskState.id, slack)) ==> !lostLater
    {
      lostLater := false;
      if outcome.Timeout? {
        s' := FinishAs(now, taskState.id, TimedOut, w, from, s);
        return now, lostLater, s';
      }
      if claimer.IsCurrentTaskAborted() {
        s' := Abandon(now, db, claimer, w, from, s);
        return now, lostLater, s';
      }
      if outcome.Success? {
        s' := FinishAs(now, taskState.id, Completed, w, from, s);
        return now, lostLater, s';
      }
      later, lostLater, s' := retryHandler.HandleFailure(now, taskState, taskDefinition, lateness, slack, w, from, s);
    }

    /** From the beginning of the body on. */
    method RunBody(now: int, taskState: TaskRecord, taskDefinition: TaskDefinition, outcome: Outcome, bodyMs: nat,
                   lateness: Lateness, ghost slack: nat, ghost w: Workflow, ghost from: System, ghost s: System)
      returns (later: int, ghost aborted: bool, ghost lostLater: bool, ghost s': System)
      requires Valid() && Leads(w, from, s, now, db, claimer) && w.Policy(taskState.id) == taskDefinition.retryPolicy
      requires IsAt(s, claimer.executorId, taskState.id, Started(taskState.attemptCount))
      requires !claimer.IsCurrentTaskAborted()
      modifies db, claimer, claimer.currentTask, claimer.taskQueue, claimer.lockManager
      ensures Leads(w, from, s', later, db, claimer) && claimer.currentTask == null
      ensures Concluded(taskDefinition.retryPolicy, taskState, outcome, aborted, lostLater,
                        old(RowsOf(db, claimer)), RowsOf(db, claimer))
      ensures (aborted && !outcome.Timeout?) || lostLater ==>
                !Owns(claimer.lockManager.locks, later, taskState.id, claimer.executorId)
      ensures IsPunctual(lateness, slack) && old(IsSustained(claimer, now, taskState.id, slack)) ==>
                !aborted && !lostLater
    {
      s' := Execute(now, taskState.id, outcome, bodyMs, lateness, slack, w, from, s);
      aborted := claimer.IsCurrentTaskAborted();
      later, lostLater, s' := Conclude(now + bodyMs, taskState, taskDefinition, outcome, lateness, slack, w, from, s');
    }

    /**
     A task that cannot become running is only released. Otherwise it becomes running. With a
     punctual renewal timer and a sustained lease it ends as its outcome says, however long its
     body and its backoff take. Otherwise `aborted` says whether the lock was found lost by the end
     of the body, and `lostLater` whether by the end of the backoff; neither without a lost lock.
     */
    method Run(now: int, taskState: TaskRecord, taskDefinition: TaskDefinition, outcome: Outcome, bodyMs: nat,
               lateness: Lateness, ghost slack: nat, ghost w: Workflow, ghost from: System, ghost s: System)
      returns (later: int, ghost aborted: bool, ghost lostLater: bool, ghost s': System)
      requires Valid() && Leads(w, from, s, now, db, claimer) && w.Policy(taskState.id) == taskDefinition.retryPolicy
      requires IsAt(s, claimer.executorId, taskState.id, Fetched(taskState.status, taskState.attemptCount))
      modifies db, claimer, claimer.currentTask, claimer.taskQueue, claimer.lockManager
      ensures Leads(w, from, s', later, db, claimer) && claimer.currentTask == null
      ensures !CanTransit(taskState.status, Running) ==> RowsOf(db, claimer) == old(RowsOf(db, claimer))
      ensures CanTransit(taskState.status, Running) ==>
                var running := old(RowsOf(db, claimer)).(status := old(db.status)[taskState.id := Running]);
                if old(claimer.IsCurrentTaskAborted()) then RowsOf(db, claimer) == running
                else Concluded(taskDefinition.retryPolicy, taskState, outcome, aborted, lostLater, running, RowsOf(db, claimer))
      ensures (aborted && !outcome.Timeout?) || lostLater ==>
                !Owns(claimer.lockManager.locks, later, taskState.id, claimer.executorId)
      ensures IsPunctual(lateness, slack) && old(IsSustained(claimer, now, taskState.id, slack)) ==>
                !aborted && !lostLater
    {
      ghost var sustained := IsSustained(claimer, now, taskState.id, slack);
      var started;
      started, s' := BeginRun(now, taskState, w, from, s);
      aborted, lostLater := false, false;
      if !started {
        return now, aborted, lostLater, s';
      }
      assert sustained ==> IsSustained(claimer, now, taskState.id, slack);
      later, aborted, lostLater, s' := RunBody(now, taskState, taskDefinition, outcome, bodyMs, lateness, slack, w, from, s');
    }
  }
}
