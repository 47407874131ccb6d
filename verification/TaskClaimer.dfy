/**
 One executor's polling loop (services/executor-service/src/services/task-claimer.ts), run without
 interruption. Every method is shown to take the steps of the protocol of module
 ExecutorProtocol, which lets other executors act between any two of them.
 */
module TaskClaimers {
  import opened Types
  import opened TaskQueues
  import opened LockManagers
  import opened ExecutorProtocol

  /** What one uninterrupted pass of the polling loop does. */
  function Polled(b: Broker, e: nat): Broker
    requires e < |b.phases|
  {
    if !b.phases[e].Idle? || b.lists.queue == [] then b
    else
      var tried := Apply(Apply(b, Action.Claim(e)), TryLock(e));
      if tried.phases[e].Working? then tried else Apply(Apply(tried, RequeueRemove(e)), RequeuePush(e))
  }

  /** What one uninterrupted release does: two Redis calls. */
  function Released(b: Broker, e: nat): (r: Broker)
    requires Enabled(b, ReleaseLock(e))
    ensures r.lists == Do(b.lists, Remove(b.phases[e].task))
            && r.locks == Release(b.locks, b.now, b.phases[e].task, e).0
            && r.phases == b.phases[e := Idle] && r.now == b.now
  {
    Apply(Apply(b, ReleaseLock(e)), RemoveClaim(e))
  }

  /**
   A pass that finds the lock held puts the id back at the head of the queue and leaves the
   processing list and the locks as they were; a pass that gets the lock works on the oldest id.
   */
  lemma PollingClaimsOrRotates(b: Broker, e: nat)
    requires e < |b.phases| && b.phases[e].Idle? && b.lists.queue != []
    ensures var last := |b.lists.queue| - 1;
            var (b', x) := (Polled(b, e), b.lists.queue[last]);
            if x in b.locks && b.now < b.locks[x].expiry then
              b'.lists == Lists([x] + b.lists.queue[..last], b.lists.processing) && b'.locks == b.locks
              && b'.phases == b.phases
            else
              b'.lists == Lists(b.lists.queue[..last], [x] + b.lists.processing)
              && Owns(b'.locks, b.now, x, e) && WorksOn(b', e, x)
  {
  }

  /** `nextTick` is when the renewal timer fires next; `renewing` is whether it is still set. */
  class ClaimedTask {
    const taskStateId: Id
    var aborted: bool
    var renewing: bool
    var nextTick: int

    constructor (taskStateId: Id, nextTick: int)
      ensures this.taskStateId == taskStateId && !aborted && renewing && this.nextTick == nextTick
    {
      this.taskStateId, this.nextTick := taskStateId, nextTick;
      aborted, renewing := false, true;
    }
  }

  class TaskClaimer {
    var running: bool
    var currentTask: ClaimedTask?
    const executorId: nat
    const taskQueue: TaskQueue
    const lockManager: LockManager<nat>
    const lockTtlMs: int
    const lockRenewalIntervalMs: int

    constructor (executorId: nat, taskQueue: TaskQueue, lockManager: LockManager<nat>,
                 lockTtlMs: int := TTL, lockRenewalIntervalMs: int := INTERVAL)
      ensures this.executorId == executorId && this.taskQueue == taskQueue && this.lockManager == lockManager
      ensures this.lockTtlMs == lockTtlMs && this.lockRenewalIntervalMs == lockRenewalIntervalMs
      ensures currentTask == null && !running
    {
      this.executorId, this.taskQueue, this.lockManager := executorId, taskQueue, lockManager;
      this.lockTtlMs, this.lockRenewalIntervalMs := lockTtlMs, lockRenewalIntervalMs;
      running, currentTask := false, null;
    }

    ghost predicate ShowsPhase(p: Phase)
      reads this, currentTask
    {
      if currentTask == null then p.Idle?
      else
        && p.Working? && p.task == currentTask.taskStateId
        && p.aborted == currentTask.aborted && currentTask.renewing == !currentTask.aborted
        && (!p.aborted ==> p.due == currentTask.nextTick)
    }

    /** The state of this executor and of what it shares, as the protocol sees it, with the default times; the timer is due within an interval. */
    ghost predicate Shows(b: Broker)
      reads this, currentTask, taskQueue, lockManager
    {
      && lockTtlMs == TTL && lockRenewalIntervalMs == INTERVAL && executorId < |b.phases|
      && b.lists == taskQueue.State() && b.locks == lockManager.locks && ShowsPhase(b.phases[executorId])
      && (currentTask != null ==> currentTask.nextTick <= b.now + INTERVAL)
    }

    /** One pass of the loop of `start`, up to the callback, for which the claimed id is returned. */
    method PollOnce(now: int, ghost b: Broker) returns (claimed: Option<Id>)
      requires Shows(b) && b.now == now
      modifies this, taskQueue, lockManager
      ensures Shows(Polled(b, executorId))
      ensures claimed.Some? <==>
                old(currentTask) == null && old(taskQueue.queue) != []
                && !IsHeld(old(lockManager.locks), now, old(taskQueue.queue)[|old(taskQueue.queue)| - 1])
      ensures claimed.Some? ==>
                && currentTask != null && fresh(currentTask) && currentTask.taskStateId == claimed.value
                && claimed.value == old(taskQueue.queue)[|old(taskQueue.queue)| - 1]
                && !currentTask.aborted && currentTask.nextTick == now + 10000
                && lockManager.locks == old(lockManager.locks)[claimed.value := Lock(executorId, now + 30000)]
      ensures claimed.None? ==> currentTask == old(currentTask) && lockManager.locks == old(lockManager.locks)
    {
      if currentTask != null {
        return None;
      }
      var popped := taskQueue.Claim();
      if popped.None? {
        return None;
      }
      var taskStateId := popped.value;
      var lockAcquired := lockManager.AcquireLock(now, taskStateId, executorId, lockTtlMs);
      if !lockAcquired {
        taskQueue.Requeue(taskStateId);
        return None;
      }
      currentTask := new ClaimedTask(taskStateId, now + lockRenewalIntervalMs);
      return Some(taskStateId);
    }

    /** The renewal callback: a renewal that fails marks the task aborted and stops the timer. */
    method RenewalTick(now: int, ghost b: Broker)
      requires currentTask != null && currentTask.renewing && currentTask.nextTick <= now
      requires Shows(b) && b.now == now
      modifies currentTask, lockManager
      ensures Enabled(b, TimerRenew(executorId, now + INTERVAL))
      ensures Shows(Apply(b, TimerRenew(executorId, now + INTERVAL)))
      ensures currentTask.aborted <==> !Owns(old(lockManager.locks), now, currentTask.taskStateId, executorId)
      ensures lockManager.locks == Renew(old(lockManager.locks), now, currentTask.taskStateId, executorId, TTL).0
      ensures currentTask.nextTick == now + 10000
      ensures !currentTask.aborted ==>
                lockManager.locks == old(lockManager.locks)[currentTask.taskStateId := Lock(executorId, now + 30000)]
    {
      var renewed := lockManager.RenewLock(now, currentTask.taskStateId, executorId, lockTtlMs);
      currentTask.nextTick := now + lockRenewalIntervalMs;
      if !renewed {
        currentTask.aborted := true;
        currentTask.renewing := false;
      }
    }

    /** Releases the lock and takes the claim off the processing list. */
    method ReleaseCurrentTask(now: int, ghost b: Broker)
      requires Shows(b) && b.now == now
      modifies this, currentTask, taskQueue, lockManager
      ensures old(currentTask) == null ==> Shows(b) && currentTask == null
      ensures old(currentTask) != null ==>
                Enabled(b, ReleaseLock(executorId))
                && Shows(Released(b, executorId))
      ensures old(currentTask) != null ==>
                && currentTask == null && taskQueue.queue == old(taskQueue.queue)
                && multiset(taskQueue.processing)
                   == multiset(old(taskQueue.processing)) - multiset{old(currentTask).taskStateId}
                && !Owns(lockManager.locks, now, old(currentTask).taskStateId, executorId)
                && old(currentTask).aborted == old(currentTask.aborted)
    {
      if currentTask == null { return; }
      currentTask.renewing := false;
      var released := lockManager.ReleaseLock(now, currentTask.taskStateId, executorId);
      taskQueue.RemoveFromProcessing(currentTask.taskStateId);
      currentTask := null;
    }

    predicate IsCurrentTaskAborted()
      reads this, currentTask
    {
      currentTask != null && currentTask.aborted
    }

    /** After an abort: the lock and the processing list are left as they are. */
    method ClearCurrentTask(ghost b: Broker)
      requires Shows(b)
      modifies this, currentTask
      ensures currentTask == null
      ensures old(currentTask) != null ==> old(currentTask).aborted == old(currentTask.aborted)
      ensures old(IsCurrentTaskAborted()) ==> Enabled(b, Clear(executorId)) && Shows(Apply(b, Clear(executorId)))
    {
      if currentTask != null {
        currentTask.renewing := false;
        currentTask := null;
      }
    }

    method Stop()
      modifies this, currentTask
      ensures !running && currentTask == old(currentTask)
      ensures currentTask != null ==> !currentTask.renewing && currentTask.aborted == old(currentTask.aborted)
    {
      running := false;
      if currentTask != null {
        currentTask.renewing := false;
      }
    }
  }
}
