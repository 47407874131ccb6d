/**
 What happens after a failed run of a task (services/executor-service/src/services/retry-handler.ts),
 without interruption. Every method is shown to take the steps of the machine of module
 WorkflowRuns, in which other executors act between any two of them.
 */
module RetryHandlers {
  import opened Types
  import opened TaskQueues
  import opened LockManagers
  import opened StateMachine
  import opened RetryEngine
  import opened FanOutFanIn
  import opened ExecutorProtocol
  import opened TaskClaimers
  import opened WorkflowRuns

  /** The rows of `task_states` and `dead_letter_queue`. */
  class Database {
    var status: States
    var attempts: map<Id, nat>
    var dlq: seq<(Id, nat)>

    constructor (status: States, attempts: map<Id, nat>)
      ensures this.status == status && this.attempts == attempts && dlq == []
    {
      this.status, this.attempts, dlq := status, attempts, [];
    }

    /** An update of a missing row changes nothing. */
    method UpdateStatus(id: Id, newStatus: Status)
      modifies this`status
      ensures status == if id in old(status) then old(status)[id := newStatus] else old(status)
    {
      if id in status {
        status := status[id := newStatus];
      }
    }

    method UpdateAttempts(id: Id, count: nat)
      modifies this`attempts
      ensures attempts == if id in old(attempts) then old(attempts)[id := count] else old(attempts)
    {
      if id in attempts {
        attempts := attempts[id := count];
      }
    }

    method InsertIntoDLQ(id: Id, count: nat)
      modifies this`dlq
      ensures dlq == old(dlq) + [(id, count)]
    {
      dlq := dlq + [(id, count)];
    }
  }

  /** What a run of a task may write: the rows, and the queue. */
  datatype Rows = Rows(status: States, attempts: map<Id, nat>, dlq: seq<(Id, nat)>, queue: seq<Id>)

  ghost function RowsOf(db: Database, claimer: TaskClaimer): Rows
    reads db, claimer.taskQueue
  {
    Rows(db.status, db.attempts, db.dlq, claimer.taskQueue.queue)
  }

  /**
   Without a policy: failed. With one: the attempt is counted; then a dead letter and failed, or
   pending and queued again, or nothing more if by the end of the wait the renewal timer had
   marked the task aborted.
   */
  ghost predicate FailureHandled(policy: Option<RetryPolicy>, t: Id, n: nat, aborted: bool, before: Rows, after: Rows) {
    if policy.None? then after == before.(status := before.status[t := Failed])
    else AttemptHandled(policy.value, t, n, aborted, before, after)
  }

  function WithAttempts(rows: Rows, t: Id, n: nat): Rows {
    rows.(attempts := rows.attempts[t := n])
  }

  ghost predicate AttemptHandled(policy: RetryPolicy, t: Id, n: nat, aborted: bool, before: Rows, after: Rows) {
    AttemptDecided(policy, t, n, aborted, WithAttempts(before, t, n), after)
  }

  ghost predicate AttemptDecided(policy: RetryPolicy, t: Id, n: nat, aborted: bool, counted: Rows, after: Rows) {
    if !ShouldRetry(policy, n) then
      after == counted.(status := counted.status[t := Failed], dlq := counted.dlq + [(t, n)])
    else if aborted then after == counted
    else after == counted.(status := counted.status[t := Pending], queue := [t] + counted.queue)
  }

  /** How late what is due at a given time happens: the end of a sleep, and the callback of the renewal timer. */
  datatype Lateness = Lateness(sleep: int -> nat, tick: int -> nat)

  /** No renewal is later than `slack`, which leaves it time before the lock expires. */
  ghost predicate IsPunctual(lateness: Lateness, slack: nat) {
    INTERVAL + slack < TTL && forall due: int :: lateness.tick(due) <= slack
  }

  /** No sleep ends later than `slack`, which leaves time for the renewal of the wait itself. */
  ghost predicate WakesInTime(lateness: Lateness, slack: nat) {
    INTERVAL + slack < TTL && forall due: int :: lateness.sleep(due) <= slack
  }

  /** A task state as it was read. */
  datatype TaskRecord = TaskRecord(id: Id, status: Status, attemptCount: nat)

  ghost predicate Mirrors(s: System, db: Database, claimer: TaskClaimer)
    reads db, claimer, claimer.currentTask, claimer.taskQueue, claimer.lockManager
  {
    Shaped(s) && claimer.Shows(s.broker) && s.status == db.status && s.attempts == db.attempts && s.dlq == db.dlq
  }

  /** Some run of the machine leads from one state to the other. */
  ghost predicate CanReach(w: Workflow, s: System, s': System) {
    exists run :: IsRunOf(w, s, run) && EndOf(w, s, run) == s'
  }

  lemma {:induction false} Concatenate(w: Workflow, s: System, first: seq<Event>, second: seq<Event>)
    requires IsRunOf(w, s, first) && IsRunOf(w, EndOf(w, s, first), second)
    ensures IsRunOf(w, s, first + second) && EndOf(w, s, first + second) == EndOf(w, EndOf(w, s, first), second)
    decreases |first|
  {
    if first == [] {
      assert first + second == second;
    } else {
      var run, next, rest := first + second, Step(w, s, first[0]), first[1..];
      assert run[0] == first[0] && run[1..] == rest + second;
      assert IsRunOf(w, next, rest) && EndOf(w, s, first) == EndOf(w, next, rest);
      Concatenate(w, next, rest, second);
      assert IsRunOf(w, s, run);
      assert EndOf(w, s, run) == EndOf(w, next, run[1..]);
    }
  }

  lemma Stay(w: Workflow, s: System)
    ensures CanReach(w, s, s)
  {
    assert IsRunOf(w, s, []) && EndOf(w, s, []) == s;
  }

  lemma Continue(w: Workflow, a: System, b: System, c: System)
    requires CanReach(w, a, b) && CanReach(w, b, c)
    ensures CanReach(w, a, c)
  {
    var first :| IsRunOf(w, a, first) && EndOf(w, a, first) == b;
    var second :| IsRunOf(w, b, second) && EndOf(w, b, second) == c;
    Concatenate(w, a, first, second);
  }

  lemma Take(w: Workflow, a: System, b: System, v: Event)
    requires CanReach(w, a, b) && CanDo(b, v)
    ensures CanReach(w, a, Step(w, b, v))
  {
    assert [v][1..] == [];
    assert IsRunOf(w, b, [v]) && EndOf(w, b, [v]) == Step(w, b, v);
    Continue(w, a, b, Step(w, b, v));
  }

  /** Only the clock, the locks and the phases of executors have moved on. */
  ghost predicate OnlyTimePassed(s: System, s': System) {
    s' == s.(broker := s'.broker) && s'.broker.lists == s.broker.lists
  }

  /** The machine has got from `from` to s, which the objects show. */
  ghost predicate Leads(w: Workflow, from: System, s: System, now: int, db: Database, claimer: TaskClaimer)
    reads db, claimer, claimer.currentTask, claimer.taskQueue, claimer.lockManager
  {
    CanReach(w, from, s) && Mirrors(s, db, claimer) && s.broker.now == now
  }

  /** The executor works on the task and its job is j. */
  predicate IsAt(s: System, e: nat, t: Id, j: Job) {
    WorksWith(s, e) && TaskOf(s, e) == t && s.jobs[e] == j
  }

  /** What an executor goes on to do once its claim is given up. */
  function AfterClosing(next: Next, t: Id): Job {
    match next
    case ThenNothing => NoJob
    case ThenEvaluate => Evaluating(t)
    case ThenRetry => Reenqueueing(t)
  }

  /** The two calls by which a claim is given up. */
  function Closed(s: System, e: nat): System
    requires Shaped(s) && WorksWith(s, e) && s.jobs[e].Closing?
  {
    s.(broker := Released(s.broker, e), jobs := s.jobs[e := AfterClosing(s.jobs[e].next, TaskOf(s, e))])
  }

  lemma UnlockStep(s: System, e: nat)
    requires Shaped(s) && WorksWith(s, e) && s.jobs[e].Closing?
    ensures CanDo(s, Protocol(ReleaseLock(e)))
    ensures CanDo(s.(broker := Apply(s.broker, ReleaseLock(e))), Protocol(RemoveClaim(e)))
  {
  }

  lemma RemovalStep(w: Workflow, s: System, e: nat)
    requires Shaped(s) && WorksWith(s, e) && s.jobs[e].Closing?
    requires CanDo(s.(broker := Apply(s.broker, ReleaseLock(e))), Protocol(RemoveClaim(e)))
    ensures Step(w, s.(broker := Apply(s.broker, ReleaseLock(e))), Protocol(RemoveClaim(e))) == Closed(s, e)
  {
  }

  lemma ClosingReaches(w: Workflow, from: System, s: System, e: nat)
    requires Shaped(s) && WorksWith(s, e) && s.jobs[e].Closing? && CanReach(w, from, s)
    ensures CanReach(w, from, Closed(s, e))
  {
    UnlockStep(s, e);
    RemovalStep(w, s, e);
    var unlocked := s.(broker := Apply(s.broker, ReleaseLock(e)));
    Take(w, from, s, Protocol(ReleaseLock(e)));
    Take(w, from, unlocked, Protocol(RemoveClaim(e)));
  }

  /** The end of every run of a task that keeps its lock: the claim is given up. */
  method CloseTask(now: int, db: Database, claimer: TaskClaimer, ghost w: Workflow, ghost from: System, ghost s: System)
    returns (ghost s': System)
    requires Leads(w, from, s, now, db, claimer) && WorksWith(s, claimer.executorId) && s.jobs[claimer.executorId].Closing?
    modifies claimer, claimer.currentTask, claimer.taskQueue, claimer.lockManager
    ensures Leads(w, from, s', now, db, claimer) && s' == Closed(s, claimer.executorId)
    ensures old(claimer.currentTask) != null && claimer.currentTask == null
    ensures old(claimer.currentTask).aborted == old(claimer.IsCurrentTaskAborted())
    ensures claimer.taskQueue.queue == old(claimer.taskQueue.queue)
    ensures multiset(claimer.taskQueue.processing)
            == multiset(old(claimer.taskQueue.processing)) - multiset{old(claimer.currentTask).taskStateId}
  {
    claimer.ReleaseCurrentTask(now, s.broker);
    s' := Closed(s, claimer.executorId);
    ClosingReaches(w, from, s, claimer.executorId);
  }

  /** After an abort nothing is written: the claim stays behind. */
  method Abandon(now: int, db: Database, claimer: TaskClaimer, ghost w: Workflow, ghost from: System, ghost s: System)
    returns (ghost s': System)
    requires Leads(w, from, s, now, db, claimer) && WorksWith(s, claimer.executorId) && claimer.IsCurrentTaskAborted()
    requires AllowsAction(s, Clear(claimer.executorId))
    modifies claimer, claimer.currentTask
    ensures Leads(w, from, s', now, db, claimer) && claimer.currentTask == null
    ensures old(claimer.currentTask) != null && old(claimer.currentTask).aborted
  {
    claimer.ClearCurrentTask(s.broker);
    Take(w, from, s, Protocol(Clear(claimer.executorId)));
    s' := Step(w, s, Protocol(Clear(claimer.executorId)));
  }

  /** The executor's lease on the task runs for more than `ms` from now. */
  ghost predicate LeasedFor(claimer: TaskClaimer, now: int, t: Id, ms: int)
    reads claimer, claimer.currentTask, claimer.lockManager
  {
    var locks := claimer.lockManager.locks;
    && claimer.currentTask != null && !claimer.currentTask.aborted && t in locks
    && locks[t].owner == claimer.executorId && now + ms < locks[t].expiry
  }

  /** The lease lasts until the timer has fired, even if that is late by `slack`. */
  ghost predicate IsSustained(claimer: TaskClaimer, now: int, t: Id, slack: nat)
    reads claimer, claimer.currentTask, claimer.lockManager
  {
    LeasedFor(claimer, now, t, 0) && LeasedFor(claimer, claimer.currentTask.nextTick, t, slack)
  }

  /** Such is every lease that runs for more than an interval and the slack, as a fresh one does. */
  lemma LeaseIsSustained(b: Broker, claimer: TaskClaimer, t: Id, slack: nat)
    requires claimer.Shows(b) && LeasedFor(claimer, b.now, t, INTERVAL + slack)
    ensures IsSustained(claimer, b.now, t, slack)
  {
  }

  ghost predicate WorksOnTask(s: System, claimer: TaskClaimer, t: Id) {
    WorksWith(s, claimer.executorId) && TaskOf(s, claimer.executorId) == t
  }

  /** The renewal callback, which is due. */
  method FireTimer(now: int, t: Id, db: Database, claimer: TaskClaimer,
                   ghost slack: nat, ghost ms: nat, ghost w: Workflow, ghost from: System, ghost s: System)
    returns (ghost s': System)
    requires Leads(w, from, s, now, db, claimer) && WorksOnTask(s, claimer, t)
    requires claimer.currentTask.renewing && claimer.currentTask.nextTick <= now
    modifies claimer.currentTask, claimer.lockManager
    ensures Leads(w, from, s', now, db, claimer) && OnlyTimePassed(s, s') && WorksOnTask(s', claimer, t)
    ensures claimer.currentTask == old(claimer.currentTask) && claimer.currentTask.nextTick == now + INTERVAL
    ensures claimer.IsCurrentTaskAborted() ==> !Owns(claimer.lockManager.locks, now, t, claimer.executorId)
    ensures ms < TTL && old(LeasedFor(claimer, now, t, ms)) ==> LeasedFor(claimer, now, t, ms)
    ensures INTERVAL + slack < TTL && old(LeasedFor(claimer, now, t, 0)) ==> IsSustained(claimer, now, t, slack)
  {
    claimer.RenewalTick(now, s.broker);
    Take(w, from, s, Protocol(TimerRenew(claimer.executorId, now + INTERVAL)));
    s' := Step(w, s, Protocol(TimerRenew(claimer.executorId, now + INTERVAL)));
  }

  /** The clock runs to the time at which the next callback runs, no later than `later`, and it runs. */
  method RunToNextTick(now: int, later: int, t: Id, db: Database, claimer: TaskClaimer, lateness: Lateness,
                       ghost slack: nat, ghost w: Workflow, ghost from: System, ghost s: System)
    returns (fired: int, ghost s': System)
    requires now <= later && Leads(w, from, s, now, db, claimer) && WorksOnTask(s, claimer, t)
    requires claimer.currentTask.renewing
    requires claimer.currentTask.nextTick + lateness.tick(claimer.currentTask.nextTick) <= later
    modifies claimer.currentTask, claimer.lockManager
    ensures now <= fired <= later && old(claimer.currentTask.nextTick) <= fired
    ensures Leads(w, from, s', fired, db, claimer) && OnlyTimePassed(s, s') && WorksOnTask(s', claimer, t)
    ensures claimer.currentTask == old(claimer.currentTask) && claimer.currentTask.nextTick == fired + INTERVAL
    ensures claimer.IsCurrentTaskAborted() ==> !Owns(claimer.lockManager.locks, fired, t, claimer.executorId)
    ensures IsPunctual(lateness, slack) && old(IsSustained(claimer, now, t, slack)) ==> IsSustained(claimer, fired, t, slack)
    ensures later - now < TTL && old(LeasedFor(claimer, now, t, later - now)) ==>
              LeasedFor(claimer, fired, t, later - fired)
  {
    var due := claimer.currentTask.nextTick + lateness.tick(claimer.currentTask.nextTick);
    fired := if due <= now then now else due;
    Take(w, from, s, Protocol(Tick(fired - now)));
    s' := Step(w, s, Protocol(Tick(fired - now)));
    s' := FireTimer(fired, t, db, claimer, slack, later - fired, w, from, s');
  }

  /**
   The clock runs to `later` while the executor works on the task. The callback of the renewal
   timer runs whenever it is due. If it is punctual, a lease that is sustained stays so however
   long this takes; the task gets aborted only when the lock is not owned any more.
   */
  method LetTimePass(now: int, later: int, t: Id, db: Database, claimer: TaskClaimer, lateness: Lateness,
                     ghost slack: nat, ghost w: Workflow, ghost from: System, ghost s: System)
    returns (ghost s': System)
    requires now <= later && Leads(w, from, s, now, db, claimer) && WorksOnTask(s, claimer, t)
    modifies claimer.currentTask, claimer.lockManager
    ensures Leads(w, from, s', later, db, claimer) && OnlyTimePassed(s, s') && WorksOnTask(s', claimer, t)
    ensures claimer.currentTask == old(claimer.currentTask)
    ensures IsPunctual(lateness, slack) && old(IsSustained(claimer, now, t, slack)) ==>
              IsSustained(claimer, later, t, slack)
    ensures later - now < TTL && old(LeasedFor(claimer, now, t, later - now)) ==> LeasedFor(claimer, later, t, 0)
    ensures claimer.IsCurrentTaskAborted() ==>
              old(claimer.IsCurrentTaskAborted()) || !Owns(claimer.lockManager.locks, later, t, claimer.executorId)
  {
    ghost var covered := IsPunctual(lateness, slack) && IsSustained(claimer, now, t, slack);
    ghost var leased := later - now < TTL && LeasedFor(claimer, now, t, later - now);
    var task := claimer.currentTask;
    var at := now;
    s' := s;
    while task.renewing && task.nextTick + lateness.tick(task.nextTick) <= later
      invariant claimer.currentTask == task == old(claimer.currentTask) && now <= at <= later
      invariant Leads(w, from, s', at, db, claimer) && OnlyTimePassed(s, s') && WorksOnTask(s', claimer, t)
      invariant covered ==> IsSustained(claimer, at, t, slack)
      invariant leased ==> LeasedFor(claimer, at, t, later - at)
      invariant claimer.IsCurrentTaskAborted() ==>
                  old(claimer.IsCurrentTaskAborted()) || !Owns(claimer.lockManager.locks, at, t, claimer.executorId)
      decreases later - task.nextTick
    {
      at, s' := RunToNextTick(at, later, t, db, claimer, lateness, slack, w, from, s');
    }
    Take(w, from, s', Protocol(Tick(later - at)));
    s' := Step(w, s', Protocol(Tick(later - at)));
  }

  class RetryHandler {
    const db: Database
    const claimer: TaskClaimer

    constructor (db: Database, claimer: TaskClaimer)
      ensures this.db == db && this.claimer == claimer
    {
      this.db, this.claimer := db, claimer;
    }

    /** The wait of an executor: only time has passed since the machine was in state `from`. */
    ghost predicate HasWaited(w: Workflow, from: System, s: System, now: int, t: Id)
      reads db, claimer, claimer.currentTask, claimer.taskQueue, claimer.lockManager
    {
      && Leads(w, from, s, now, db, claimer) && OnlyTimePassed(from, s)
      && WorksWith(s, claimer.executorId) && TaskOf(s, claimer.executorId) == t && s.jobs[claimer.executorId].Waiting?
    }

    /** The renewal that the wait makes itself. */
    method RenewWhileWaiting(now: int, taskStateId: Id, ghost slack: nat, ghost w: Workflow, ghost from: System, ghost s: System)
      returns (renewed: bool, ghost s': System)
      requires HasWaited(w, from, s, now, taskStateId)
      requires claimer.IsCurrentTaskAborted() ==> !Owns(claimer.lockManager.locks, now, taskStateId, claimer.executorId)
      modifies claimer.lockManager
      ensures HasWaited(w, from, s', now, taskStateId)
      ensures renewed <==> Owns(old(claimer.lockManager.locks), now, taskStateId, claimer.executorId)
      ensures renewed <==> Owns(claimer.lockManager.locks, now, taskStateId, claimer.executorId)
      ensures renewed && INTERVAL + slack < TTL ==>
                IsSustained(claimer, now, taskStateId, slack) && LeasedFor(claimer, now, taskStateId, INTERVAL + slack)
    {
      s' := s;
      renewed := claimer.lockManager.RenewLock(now, taskStateId, claimer.executorId);
      if renewed {
        Take(w, from, s, Protocol(WaitRenew(claimer.executorId)));
        s' := Step(w, s, Protocol(WaitRenew(claimer.executorId)));
      }
    }

    /** One sleep, during which the timer fires; `woken` is when it ends. */
    method Sleep(now: int, taskStateId: Id, waitTime: nat, lateness: Lateness,
                 ghost slack: nat, ghost w: Workflow, ghost from: System, ghost s: System)
      returns (woken: int, ghost s': System)
      requires HasWaited(w, from, s, now, taskStateId)
      modifies claimer.currentTask, claimer.lockManager
      ensures HasWaited(w, from, s', woken, taskStateId) && woken >= now + waitTime
      ensures waitTime <= INTERVAL && WakesInTime(lateness, slack)
              && old(LeasedFor(claimer, now, taskStateId, INTERVAL + slack)) ==>
                LeasedFor(claimer, woken, taskStateId, 0)
      ensures claimer.currentTask == old(claimer.currentTask)
      ensures IsPunctual(lateness, slack) && old(IsSustained(claimer, now, taskStateId, slack)) ==>
                IsSustained(claimer, woken, taskStateId, slack)
      ensures claimer.IsCurrentTaskAborted() ==>
                old(claimer.IsCurrentTaskAborted()) || !Owns(claimer.lockManager.locks, woken, taskStateId, claimer.executorId)
    {
      woken := now + waitTime + lateness.sleep(now + waitTime);
      s' := LetTimePass(now, woken, taskStateId, db, claimer, lateness, slack, w, from, s);
    }

    /**
     If the renewal timer is punctual and the lease is sustained, it stays so until the wait is
     over. However late the timer is, the renewals of the wait alone keep a lease that outlasts the
     first sleep. The wait ends early only when the lock is not owned any more. A renewal of its own that
     fails does not mark the task aborted; the timer does.
     */
    method WaitWithLockRenewal(now: int, taskStateId: Id, delayMs: Option<real>, lateness: Lateness,
                               ghost slack: nat, ghost w: Workflow, ghost from: System)
      returns (later: int, ghost s: System)
      requires HasWaited(w, from, from, now, taskStateId)
      modifies claimer.currentTask, claimer.lockManager
      ensures HasWaited(w, from, s, later, taskStateId)
      ensures claimer.currentTask == old(claimer.currentTask) && later >= now
      ensures IsPunctual(lateness, slack) && old(IsSustained(claimer, now, taskStateId, slack)) ==>
                IsSustained(claimer, later, taskStateId, slack)
      ensures WakesInTime(lateness, slack) && old(LeasedFor(claimer, now, taskStateId, INTERVAL + slack)) ==>
                LeasedFor(claimer, later, taskStateId, 0)
      ensures delayMs.Some? && ((later - now) as real) < delayMs.value ==>
                claimer.IsCurrentTaskAborted() || !Owns(claimer.lockManager.locks, later, taskStateId, claimer.executorId)
      ensures claimer.IsCurrentTaskAborted() ==>
                old(claimer.IsCurrentTaskAborted()) || !Owns(claimer.lockManager.locks, later, taskStateId, claimer.executorId)
    {
      ghost var covered := IsPunctual(lateness, slack) && IsSustained(claimer, now, taskStateId, slack);
      ghost var leased := WakesInTime(lateness, slack) && LeasedFor(claimer, now, taskStateId, INTERVAL + slack);
      later, s := now, from;
      var delay := if delayMs.Some? then delayMs.value else 0.0;
      while (later - now) as real < delay
        invariant later >= now && HasWaited(w, from, s, later, taskStateId)
        invariant claimer.currentTask == old(claimer.currentTask)
        invariant claimer.IsCurrentTaskAborted() ==>
                    old(claimer.IsCurrentTaskAborted()) || !Owns(claimer.lockManager.locks, later, taskStateId, claimer.executorId)
        invariant covered ==> IsSustained(claimer, later, taskStateId, slack)
        invariant leased ==>
                    LeasedFor(claimer, later, taskStateId, if (later - now) as real < delay then INTERVAL + slack else 0)
        decreases delay.Floor + 1 - (later - now)
      {
        if claimer.IsCurrentTaskAborted() {
          return;
        }
        var remaining := delay - (later - now) as real;
        var waitTime := if INTERVAL as real < remaining then INTERVAL else remaining.Floor;
        later, s := Sleep(later, taskStateId, if waitTime < 1 then 1 else waitTime, lateness, slack, w, from, s);
        if (later - now) as real < delay {
          var renewed;
          renewed, s := RenewWhileWaiting(later, taskStateId, slack, w, from, s);
          if !renewed {
            return;
          }
        }
      }
    }

    method TransitionToFailed(id: Id)
      modifies db`status
      ensures db.status == if id in old(db.status) then old(db.status)[id := Failed] else old(db.status)
    {
      if CanTransit(Running, Failed) {
        db.UpdateStatus(id, Failed);
      }
    }

    /** No retry policy: failed at once. */
    method FailWithoutRetry(now: int, taskState: TaskRecord, ghost w: Workflow, ghost from: System, ghost s: System)
      returns (ghost s': System)
      requires Leads(w, from, s, now, db, claimer) && w.Policy(taskState.id).None?
      requires IsAt(s, claimer.executorId, taskState.id, Executed(taskState.attemptCount, Failure))
      requires !claimer.IsCurrentTaskAborted()
      modifies db`status, claimer, claimer.currentTask, claimer.taskQueue, claimer.lockManager
      ensures Leads(w, from, s', now, db, claimer) && claimer.currentTask == null
      ensures db.status == old(db.status)[taskState.id := Failed] && claimer.taskQueue.queue == old(claimer.taskQueue.queue)
    {
      TransitionToFailed(taskState.id);
      Take(w, from, s, Finish(claimer.executorId));
      s' := CloseTask(now, db, claimer, w, from, Step(w, s, Finish(claimer.executorId)));
    }

    lemma DeadLetterFails(w: Workflow, s: System, e: nat, t: Id, n: nat)
      requires Shaped(s) && IsAt(s, e, t, DeadLettered(n))
      ensures CanDo(s, Fail(e))
      ensures Step(w, s, Fail(e)) == s.(status := s.status[t := Failed], jobs := s.jobs[e := Closing(ThenNothing)])
    {
    }

    method AddDeadLetter(now: int, id: Id, currentAttempt: Attempt, ghost w: Workflow, ghost from: System, ghost s: System)
      returns (ghost s': System)
      requires Leads(w, from, s, now, db, claimer) && IsAt(s, claimer.executorId, id, Counted(currentAttempt))
      requires w.Policy(id).Some? && !ShouldRetry(w.Policy(id).value, currentAttempt)
      modifies db`dlq
      ensures Leads(w, from, s', now, db, claimer) && IsAt(s', claimer.executorId, id, DeadLettered(currentAttempt))
      ensures db.dlq == old(db.dlq) + [(id, currentAttempt)]
    {
      db.InsertIntoDLQ(id, currentAttempt);
      Take(w, from, s, Decide(claimer.executorId));
      s' := Step(w, s, Decide(claimer.executorId));
    }

    /** The last attempt has failed: a dead letter, then failed. */
    method GiveUp(now: int, taskState: TaskRecord, currentAttempt: Attempt, ghost w: Workflow, ghost from: System, ghost s: System)
      returns (ghost s': System)
      requires Leads(w, from, s, now, db, claimer)
      requires IsAt(s, claimer.executorId, taskState.id, Counted(currentAttempt))
      requires w.Policy(taskState.id).Some? && !ShouldRetry(w.Policy(taskState.id).value, currentAttempt)
      modifies db`status, db`dlq, claimer, claimer.currentTask, claimer.taskQueue, claimer.lockManager
      ensures Leads(w, from, s', now, db, claimer) && claimer.currentTask == null
      ensures RowsOf(db, claimer) == old(RowsOf(db, claimer)).(
                status := old(db.status)[taskState.id := Failed], dlq := old(db.dlq) + [(taskState.id, currentAttempt)])
    {
      ghost var e := claimer.executorId;
      s' := AddDeadLetter(now, taskState.id, currentAttempt, w, from, s);
      TransitionToFailed(taskState.id);
      DeadLetterFails(w, s', e, taskState.id, currentAttempt);
      Take(w, from, s', Fail(e));
      s' := CloseTask(now, db, claimer, w, from, Step(w, s', Fail(e)));
    }

    method BackToPending(now: int, taskState: TaskRecord, ghost w: Workflow, ghost from: System, ghost s: System)
      returns (ghost s': System)
      requires Leads(w, from, s, now, db, claimer) && WorksWith(s, claimer.executorId)
      requires TaskOf(s, claimer.executorId) == taskState.id && s.jobs[claimer.executorId].Waiting?
      requires !claimer.IsCurrentTaskAborted() && WaitIsOver(s, claimer.executorId)
      modifies db`status, claimer, claimer.currentTask, claimer.taskQueue, claimer.lockManager
      ensures Leads(w, from, s', now, db, claimer) && claimer.currentTask == null
      ensures IsIdle(s', claimer.executorId) && s'.jobs[claimer.executorId] == Reenqueueing(taskState.id)
      ensures old(claimer.currentTask) != null && !old(claimer.currentTask).aborted
      ensures db.status == old(db.status)[taskState.id := Pending] && claimer.taskQueue.queue == old(claimer.taskQueue.queue)
      ensures multiset(claimer.taskQueue.processing) == multiset(old(claimer.taskQueue.processing)) - multiset{taskState.id}
    {
      db.UpdateStatus(taskState.id, Pending);
      Take(w, from, s, Repend(claimer.executorId));
      s' := CloseTask(now, db, claimer, w, from, Step(w, s, Repend(claimer.executorId)));
    }

    /** The new `TaskQueue` of the source is a client of the same Redis lists. */
    method Reenqueue(now: int, taskStateId: Id, ghost w: Workflow, ghost from: System, ghost s: System)
      returns (ghost s': System)
      requires Leads(w, from, s, now, db, claimer) && claimer.currentTask == null
      requires IsIdle(s, claimer.executorId) && s.jobs[claimer.executorId] == Reenqueueing(taskStateId)
      modifies claimer.taskQueue
      ensures Leads(w, from, s', now, db, claimer)
      ensures claimer.taskQueue.queue == [taskStateId] + old(claimer.taskQueue.queue)
      ensures claimer.taskQueue.processing == old(claimer.taskQueue.processing)
    {
      claimer.taskQueue.Enqueue(taskStateId);
      Take(w, from, s, PushRetry(claimer.executorId));
      s' := Step(w, s, PushRetry(claimer.executorId));
    }

    lemma FailureIsCounted(w: Workflow, s: System, e: nat, t: Id, n: nat)
      requires Shaped(s) && IsAt(s, e, t, Executed(n, Failure)) && !s.broker.phases[e].aborted && w.Policy(t).Some?
      ensures CanDo(s, Finish(e))
      ensures Step(w, s, Finish(e)) == s.(attempts := s.attempts[t := n + 1], jobs := s.jobs[e := Counted(n + 1)])
    {
    }

    lemma CountedState(w: Workflow, from: System, s: System, e: nat, t: Id, n: nat) returns (s': System)
      requires Shaped(s) && IsAt(s, e, t, Executed(n, Failure)) && !s.broker.phases[e].aborted && w.Policy(t).Some?
      requires CanReach(w, from, s)
      ensures CanReach(w, from, s') && s' == s.(attempts := s.attempts[t := n + 1], jobs := s.jobs[e := Counted(n + 1)])
    {
      FailureIsCounted(w, s, e, t, n);
      Take(w, from, s, Finish(e));
      s' := Step(w, s, Finish(e));
    }

    method CountAttempt(now: int, taskState: TaskRecord, ghost slack: nat, ghost w: Workflow, ghost from: System, ghost s: System)
      returns (currentAttempt: Attempt, ghost s': System)
      requires Leads(w, from, s, now, db, claimer) && w.Policy(taskState.id).Some?
      requires IsAt(s, claimer.executorId, taskState.id, Executed(taskState.attemptCount, Failure))
      requires !claimer.IsCurrentTaskAborted()
      modifies db`attempts
      ensures currentAttempt == taskState.attemptCount + 1
      ensures Leads(w, from, s', now, db, claimer) && IsAt(s', claimer.executorId, taskState.id, Counted(currentAttempt))
      ensures RowsOf(db, claimer) == WithAttempts(old(RowsOf(db, claimer)), taskState.id, currentAttempt)
      ensures claimer.currentTask == old(claimer.currentTask) && !claimer.IsCurrentTaskAborted()
      ensures old(IsSustained(claimer, now, taskState.id, slack)) ==> IsSustained(claimer, now, taskState.id, slack)
    {
      currentAttempt := taskState.attemptCount + 1;
      db.UpdateAttempts(taskState.id, currentAttempt);
      s' := CountedState(w, from, s, claimer.executorId, taskState.id, taskState.attemptCount);
    }

    /** The backoff of the policy. */
    method BackOff(now: int, taskStateId: Id, currentAttempt: Attempt, retryPolicy: RetryPolicy, lateness: Lateness,
                   ghost slack: nat, ghost w: Workflow, ghost from: System, ghost s: System)
      returns (later: int, ghost s': System)
      requires Leads(w, from, s, now, db, claimer)
      requires IsAt(s, claimer.executorId, taskStateId, Counted(currentAttempt)) && !claimer.IsCurrentTaskAborted()
      requires w.Policy(taskStateId) == Some(retryPolicy) && ShouldRetry(retryPolicy, currentAttempt)
      modifies claimer.currentTask, claimer.lockManager
      ensures Leads(w, from, s', later, db, claimer) && claimer.currentTask == old(claimer.currentTask)
      ensures var until := WaitEnd(now, CalculateRetryDelay(retryPolicy, currentAttempt));
              IsAt(s', claimer.executorId, taskStateId, Waiting(currentAttempt, until))
      ensures claimer.IsCurrentTaskAborted() || WaitIsOver(s', claimer.executorId)
      ensures claimer.IsCurrentTaskAborted() ==> !Owns(claimer.lockManager.locks, later, taskStateId, claimer.executorId)
      ensures IsPunctual(lateness, slack) && old(IsSustained(claimer, now, taskStateId, slack)) ==>
                && !claimer.IsCurrentTaskAborted()
                && WaitEnd(now, CalculateRetryDelay(retryPolicy, currentAttempt)) <= later
    {
      Take(w, from, s, Decide(claimer.executorId));
      ghost var waiting := Step(w, s, Decide(claimer.executorId));
      Stay(w, waiting);
      var delayMs := CalculateRetryDelay(retryPolicy, currentAttempt);
      later, s' := WaitWithLockRenewal(now, taskStateId, delayMs, lateness, slack, w, waiting);
      WaitEndIsExact(now, delayMs, later);
      Continue(w, from, waiting, s');
    }

    method Reexecute(now: int, taskState: TaskRecord, ghost w: Workflow, ghost from: System, ghost s: System)
      returns (ghost s': System)
      requires Leads(w, from, s, now, db, claimer) && WorksWith(s, claimer.executorId)
      requires TaskOf(s, claimer.executorId) == taskState.id && s.jobs[claimer.executorId].Waiting?
      requires !claimer.IsCurrentTaskAborted() && WaitIsOver(s, claimer.executorId)
      modifies db`status, claimer, claimer.currentTask, claimer.taskQueue, claimer.lockManager
      ensures Leads(w, from, s', now, db, claimer) && claimer.currentTask == null
      ensures old(claimer.currentTask) != null && !old(claimer.currentTask).aborted
      ensures db.status == old(db.status)[taskState.id := Pending]
      ensures claimer.taskQueue.queue == [taskState.id] + old(claimer.taskQueue.queue)
    {
      s' := BackToPending(now, taskState, w, from, s);
      s' := Reenqueue(now, taskState.id, w, from, s');
    }

    /**
     The wait before another attempt, and what follows it. `aborted` is the mark that the renewal
     timer has left on the task by the end of the wait.
     */
    method RetryLater(now: int, taskState: TaskRecord, currentAttempt: Attempt, retryPolicy: RetryPolicy, lateness: Lateness,
                      ghost slack: nat, ghost w: Workflow, ghost from: System, ghost s: System)
      returns (later: int, ghost aborted: bool, ghost s': System)
      requires Leads(w, from, s, now, db, claimer)
      requires IsAt(s, claimer.executorId, taskState.id, Counted(currentAttempt)) && !claimer.IsCurrentTaskAborted()
      requires w.Policy(taskState.id) == Some(retryPolicy) && ShouldRetry(retryPolicy, currentAttempt)
      modifies db`status, claimer, claimer.currentTask, claimer.taskQueue, claimer.lockManager
      ensures Leads(w, from, s', later, db, claimer) && claimer.currentTask == null
      ensures old(claimer.currentTask) != null && aborted == old(claimer.currentTask).aborted
      ensures aborted ==> !Owns(claimer.lockManager.locks, later, taskState.id, claimer.executorId)
      ensures IsPunctual(lateness, slack) && old(IsSustained(claimer, now, taskState.id, slack)) ==>
                !aborted && WaitEnd(now, CalculateRetryDelay(retryPolicy, currentAttempt)) <= later
      ensures RowsOf(db, claimer) ==
                if aborted then old(RowsOf(db, claimer))
                else old(RowsOf(db, claimer)).(
                       status := old(db.status)[taskState.id := Pending],
                       queue := [taskState.id] + old(claimer.taskQueue.queue))
    {
      later, s' := BackOff(now, taskState.id, currentAttempt, retryPolicy, lateness, slack, w, from, s);
      aborted := claimer.IsCurrentTaskAborted();
      if claimer.IsCurrentTaskAborted() {
        s' := Abandon(later, db, claimer, w, from, s');
      } else {
        s' := Reexecute(later, taskState, w, from, s');
      }
    }

    /** `before` are the rows from before the attempt was counted. */
    method DecideAttempt(now: int, taskState: TaskRecord, currentAttempt: Attempt, retryPolicy: RetryPolicy,
                         lateness: Lateness, ghost slack: nat, ghost before: Rows, ghost w: Workflow, ghost from: System, ghost s: System)
      returns (later: int, ghost aborted: bool, ghost s': System)
      requires Leads(w, from, s, now, db, claimer) && w.Policy(taskState.id) == Some(retryPolicy)
      requires IsAt(s, claimer.executorId, taskState.id, Counted(currentAttempt)) && !claimer.IsCurrentTaskAborted()
      requires RowsOf(db, claimer) == WithAttempts(before, taskState.id, currentAttempt)
      modifies db`status, db`dlq, claimer, claimer.currentTask, claimer.taskQueue, claimer.lockManager
      ensures Leads(w, from, s', later, db, claimer) && claimer.currentTask == null
      ensures aborted ==> !Owns(claimer.lockManager.locks, later, taskState.id, claimer.executorId)
      ensures aborted ==> old(claimer.currentTask) != null && old(claimer.currentTask).aborted
      ensures IsPunctual(lateness, slack) && old(IsSustained(claimer, now, taskState.id, slack)) ==> !aborted
      ensures AttemptHandled(retryPolicy, taskState.id, currentAttempt, aborted, before, RowsOf(db, claimer))
    {
      aborted := false;
      if !ShouldRetry(retryPolicy, currentAttempt) {
        s' := GiveUp(now, taskState, currentAttempt, w, from, s);
        return now, aborted, s';
      }
      later, aborted, s' := RetryLater(now, taskState, currentAttempt, retryPolicy, lateness, slack, w, from, s);
    }

    method HandleAttempt(now: int, taskState: TaskRecord, retryPolicy: RetryPolicy, lateness: Lateness,
                         ghost slack: nat, ghost w: Workflow, ghost from: System, ghost s: System)
      returns (later: int, ghost aborted: bool, ghost s': System)
      requires Leads(w, from, s, now, db, claimer) && w.Policy(taskState.id) == Some(retryPolicy)
      requires IsAt(s, claimer.executorId, taskState.id, Executed(taskState.attemptCount, Failure))
      requires !claimer.IsCurrentTaskAborted()
      modifies db, claimer, claimer.currentTask, claimer.taskQueue, claimer.lockManager
      ensures Leads(w, from, s', later, db, claimer) && claimer.currentTask == null
      ensures aborted ==> !Owns(claimer.lockManager.locks, later, taskState.id, claimer.executorId)
      ensures aborted ==> old(claimer.currentTask) != null && old(claimer.currentTask).aborted
      ensures IsPunctual(lateness, slack) && old(IsSustained(claimer, now, taskState.id, slack)) ==> !aborted
      ensures AttemptHandled(retryPolicy, taskState.id, taskState.attemptCount + 1, aborted,
                             old(RowsOf(db, claimer)), RowsOf(db, claimer))
    {
      ghost var before := RowsOf(db, claimer);
      var currentAttempt;
      currentAttempt, s' := CountAttempt(now, taskState, slack, w, from, s);
      assert Leads(w, from, s', now, db, claimer) && IsAt(s', claimer.executorId, taskState.id, Counted(currentAttempt));
      later, aborted, s' := DecideAttempt(now, taskState, currentAttempt, retryPolicy, lateness, slack, before, w, from, s');
    }

    /** `aborted` happens only by the mark of the timer, when the lock is lost; with punctual sleeps under a lease it never does. */
    method HandleFailure(now: int, taskState: TaskRecord, taskDefinition: TaskDefinition, lateness: Lateness,
                         ghost slack: nat, ghost w: Workflow, ghost from: System, ghost s: System)
      returns (later: int, ghost aborted: bool, ghost s': System)
      requires Leads(w, from, s, now, db, claimer) && w.Policy(taskState.id) == taskDefinition.retryPolicy
      requires IsAt(s, claimer.executorId, taskState.id, Executed(taskState.attemptCount, Failure))
      requires !claimer.IsCurrentTaskAborted()
      modifies db, claimer, claimer.currentTask, claimer.taskQueue, claimer.lockManager
      ensures Leads(w, from, s', later, db, claimer) && claimer.currentTask == null
      ensures aborted ==> !Owns(claimer.lockManager.locks, later, taskState.id, claimer.executorId)
      ensures aborted ==> old(claimer.currentTask) != null && old(claimer.currentTask).aborted
      ensures IsPunctual(lateness, slack) && old(IsSustained(claimer, now, taskState.id, slack)) ==> !aborted
      ensures FailureHandled(taskDefinition.retryPolicy, taskState.id, taskState.attemptCount + 1, aborted,
                             old(RowsOf(db, claimer)), RowsOf(db, claimer))
    {
      var retryPolicy := taskDefinition.retryPolicy;
      aborted := false;
      if retryPolicy.None? {
        s' := FailWithoutRetry(now, taskState, w, from, s);
        return now, aborted, s';
      }
      later, aborted, s' := HandleAttempt(now, taskState, retryPolicy.value, lateness, slack, w, from, s);
    }
  }
}
