/** Whatever the executors, clocks, crashes and cancellations do, no task is started before its predecessors have completed. */
module WorkflowSafety {
  import opened Types
  import opened Sequences
  import opened Graphs
  import opened TaskQueues
  import opened StateMachine
  import opened FanOutFanIn
  import opened ExecutorProtocol
  import opened WorkflowRuns

  /** A task of the workflow, every predecessor of which has been written completed at some time. */
  ghost predicate Grounded(w: Workflow, done: set<Id>, t: Id) {
    t in NodeSet(w.tasks) && forall e :: e in w.edges && e.target == t ==> e.source in done
  }

  predicate Carries(p: Phase) {
    p.Popped? || p.Denied? || p.Holding? || p.Working? || p.Unlocking?
  }

  predicate IsInRun(j: Job) {
    j.Started? || j.Executed? || j.Counted? || j.Waiting? || j.DeadLettered?
  }

  /** Which jobs go with which phase of the polling loop. */
  predicate Fits(p: Phase, j: Job) {
    match p
    case Idle => j.NoJob? || j.Evaluating? || j.Enqueueing? || j.Reenqueueing?
    case Working(_, _, _, _) => j.Fetching? || j.Fetched? || IsInRun(j) || j.Closing?
    case Unlocking(_) => j.Closing?
    case _ => j.NoJob?
  }

  ghost predicate SafeJob(w: Workflow, done: set<Id>, p: Phase, j: Job) {
    && Fits(p, j)
    && (Carries(p) ==> Grounded(w, done, p.task))
    && (j.Enqueueing? ==> forall t :: t in j.rest ==> Grounded(w, done, t))
    && (j.Reenqueueing? ==> Grounded(w, done, j.again))
  }

  ghost predicate SafeLists(w: Workflow, s: System) {
    && (forall t :: t in s.broker.lists.queue ==> Grounded(w, s.everDone, t))
    && (forall t :: t in s.roots ==> Grounded(w, s.everDone, t))
  }

  ghost predicate SafeRows(w: Workflow, s: System) {
    forall t :: t in s.status ==>
      && (s.status[t] != Pending && s.status[t] != Cancelled ==> Grounded(w, s.everDone, t))
      && (s.status[t] == Completed ==> t in s.everDone)
      && s.status[t] != Skipped
  }

  ghost predicate SafeJobs(w: Workflow, s: System) {
    |s.jobs| == |s.broker.phases|
    && forall e :: 0 <= e < |s.jobs| ==> SafeJob(w, s.everDone, s.broker.phases[e], s.jobs[e])
  }

  ghost predicate Safe(w: Workflow, s: System) {
    Shaped(s) && SafeLists(w, s) && SafeRows(w, s) && SafeJobs(w, s)
  }

  /** One executor moves; it and the lists are safe again, and the record of completed tasks only grows. */
  lemma JobsStaySafe(w: Workflow, s: System, s': System, e: nat, p: Phase, j: Job)
    requires SafeJobs(w, s) && e < |s.jobs|
    requires s'.broker.phases == s.broker.phases[e := p] && s'.jobs == s.jobs[e := j]
    requires s.everDone <= s'.everDone && SafeJob(w, s'.everDone, p, j)
    ensures SafeJobs(w, s')
  {
    forall f | 0 <= f < |s'.jobs| ensures SafeJob(w, s'.everDone, s'.broker.phases[f], s'.jobs[f]) {
      assert SafeJob(w, s.everDone, s.broker.phases[f], s.jobs[f]);
    }
  }

  predicate IsLockAction(a: Action) {
    a.TryLock? || a.TimerRenew? || a.WaitRenew? || a.ReleaseLock?
  }

  lemma LockActionIsSafe(w: Workflow, s: System, a: Action)
    requires Safe(w, s) && CanDo(s, Protocol(a)) && IsLockAction(a)
    ensures Safe(w, Step(w, s, Protocol(a)))
  {
    var e, s' := a.e, Step(w, s, Protocol(a));
    assert SafeJob(w, s.everDone, s.broker.phases[e], s.jobs[e]);
    match a
    case TryLock(e) => JobsStaySafe(w, s, s', e, s'.broker.phases[e], s'.jobs[e]);
    case TimerRenew(e, _) => JobsStaySafe(w, s, s', e, s'.broker.phases[e], s.jobs[e]);
    case WaitRenew(e) => JobsStaySafe(w, s, s', e, s'.broker.phases[e], s.jobs[e]);
    case ReleaseLock(e) => JobsStaySafe(w, s, s', e, s'.broker.phases[e], s.jobs[e]);
  }

  lemma ListActionIsSafe(w: Workflow, s: System, a: Action)
    requires Safe(w, s) && CanDo(s, Protocol(a)) && !a.Tick? && !IsLockAction(a)
    ensures Safe(w, Step(w, s, Protocol(a)))
  {
    var e, s' := a.e, Step(w, s, Protocol(a));
    assert SafeJob(w, s.everDone, s.broker.phases[e], s.jobs[e]);
    match a
    case Claim(e) => JobsStaySafe(w, s, s', e, s'.broker.phases[e], NoJob);
    case RequeueRemove(e) => JobsStaySafe(w, s, s', e, s'.broker.phases[e], NoJob);
    case RequeuePush(e) => JobsStaySafe(w, s, s', e, Idle, NoJob);
    case RemoveClaim(e) => JobsStaySafe(w, s, s', e, Idle, s'.jobs[e]);
    case Clear(e) => JobsStaySafe(w, s, s', e, Idle, NoJob);
    case Crash(e) => JobsStaySafe(w, s, s', e, Crashed, NoJob);
  }

  lemma PushIsSafe(w: Workflow, s: System, t: Id)
    requires SafeLists(w, s) && Grounded(w, s.everDone, t)
    ensures SafeLists(w, PushId(s, t))
  {
    var queue := PushId(s, t).broker.lists.queue;
    forall x | x in queue ensures Grounded(w, s.everDone, x) {
      assert x == t || x in s.broker.lists.queue;
    }
  }

  /** What a snapshot lists is pending and has all its predecessors completed in that snapshot. */
  lemma SnapshotIsSafe(w: Workflow, s: System, e: nat)
    requires w.Valid() && Safe(w, s) && CanDo(s, Snapshot(e))
    ensures Safe(w, Step(w, s, Snapshot(e)))
    ensures forall t :: t in Step(w, s, Snapshot(e)).jobs[e].rest ==>
              && IsPending(s.status, t)
              && forall d :: d in w.edges && d.target == t ==> d.source in s.status && s.status[d.source] == Completed
  {
    var u := s.jobs[e].done;
    var ready := Evaluate(w.edges, s.status, u, _ => false).ready;
    UnconditionalEvaluationIsExact(w.edges, s.status, u, _ => false);
    FilterHolds(Targets(w.edges, u), v => IsPending(s.status, v) && IsReady(w.edges, s.status, v));
    forall t | t in ready ensures Grounded(w, s.everDone, t) {
      assert IsReady(w.edges, s.status, t);
      TargetsAreArcs(w.edges, u, t);
    }
    JobsStaySafe(w, s, Step(w, s, Snapshot(e)), e, Idle, Enqueueing(ready));
  }

  lemma PushNextIsSafe(w: Workflow, s: System, e: nat)
    requires Safe(w, s) && CanDo(s, PushNext(e))
    ensures Safe(w, Step(w, s, PushNext(e)))
  {
    assert SafeJob(w, s.everDone, s.broker.phases[e], s.jobs[e]);
    var rest, s' := s.jobs[e].rest, Step(w, s, PushNext(e));
    if rest != [] {
      PushIsSafe(w, s, rest[0]);
      assert forall t :: t in rest[1..] ==> t in rest;
    }
    JobsStaySafe(w, s, s', e, Idle, s'.jobs[e]);
  }

  /** The steps of an executor that leave statuses alone. */
  lemma QuietStepIsSafe(w: Workflow, s: System, v: Event)
    requires Safe(w, s) && CanDo(s, v) && (v.Fetch? || v.Body? || v.Decide?)
    ensures Safe(w, Step(w, s, v))
  {
    assert SafeJob(w, s.everDone, s.broker.phases[v.e], s.jobs[v.e]);
    match v
    case Fetch(e) => JobsStaySafe(w, s, Step(w, s, v), e, s.broker.phases[e], Step(w, s, v).jobs[e]);
    case Body(e, _) => JobsStaySafe(w, s, Step(w, s, v), e, s.broker.phases[e], Step(w, s, v).jobs[e]);
    case Decide(e) => JobsStaySafe(w, s, Step(w, s, v), e, s.broker.phases[e], Step(w, s, v).jobs[e]);
  }

  /** A write of the status of the task an executor works on. */
  lemma WriteIsSafe(w: Workflow, s: System, s': System, e: nat, x: Status, j: Job)
    requires Safe(w, s) && WorksWith(s, e) && Shaped(s')
    requires s'.broker == s.broker && s'.roots == s.roots && s'.jobs == s.jobs[e := j]
    requires s'.status == s.status[TaskOf(s, e) := x] && x != Skipped
    requires s'.everDone == s.everDone + (if x == Completed then {TaskOf(s, e)} else {})
    requires IsInRun(j) || j.Closing?
    ensures Safe(w, s')
  {
    assert SafeJob(w, s.everDone, s.broker.phases[e], s.jobs[e]);
    JobsStaySafe(w, s, s', e, s.broker.phases[e], j);
  }

  lemma FinishIsSafe(w: Workflow, s: System, e: nat)
    requires Safe(w, s) && CanDo(s, Finish(e))
    ensures Safe(w, Step(w, s, Finish(e)))
  {
    var s' := Step(w, s, Finish(e));
    assert SafeJob(w, s.everDone, s.broker.phases[e], s.jobs[e]);
    match s.jobs[e].outcome
    case Timeout => WriteIsSafe(w, s, s', e, TimedOut, Closing(ThenNothing));
    case Success => WriteIsSafe(w, s, s', e, Completed, Closing(ThenEvaluate));
    case Failure =>
      if w.Policy(TaskOf(s, e)).None? {
        WriteIsSafe(w, s, s', e, Failed, Closing(ThenNothing));
      } else {
        JobsStaySafe(w, s, s', e, s.broker.phases[e], s'.jobs[e]);
      }
  }

  lemma RowStepIsSafe(w: Workflow, s: System, v: Event)
    requires Safe(w, s) && CanDo(s, v) && (v.Begin? || v.Finish? || v.Fail? || v.Repend?)
    ensures Safe(w, Step(w, s, v))
  {
    assert SafeJob(w, s.everDone, s.broker.phases[v.e], s.jobs[v.e]);
    var e, s' := v.e, Step(w, s, v);
    match v
    case Begin(e) =>
      if CanTransit(s.jobs[e].status, Running) {
        WriteIsSafe(w, s, s', e, Running, Started(s.jobs[e].attempts));
      } else {
        JobsStaySafe(w, s, s', e, s.broker.phases[e], Closing(ThenNothing));
      }
    case Finish(e) => FinishIsSafe(w, s, e);
    case Fail(e) => WriteIsSafe(w, s, s', e, Failed, Closing(ThenNothing));
    case Repend(e) => WriteIsSafe(w, s, s', e, Pending, Closing(ThenRetry));
  }

  lemma StepIsSafe(w: Workflow, s: System, v: Event)
    requires w.Valid() && Safe(w, s) && CanDo(s, v)
    ensures Safe(w, Step(w, s, v))
  {
    match v
    case Protocol(a) =>
      if IsLockAction(a) { LockActionIsSafe(w, s, a); } else if !a.Tick? { ListActionIsSafe(w, s, a); }
    case PushRoot => PushIsSafe(w, s, s.roots[0]);
    case Snapshot(e) => SnapshotIsSafe(w, s, e);
    case PushNext(e) => PushNextIsSafe(w, s, e);
    case PushRetry(e) =>
      assert SafeJob(w, s.everDone, s.broker.phases[e], s.jobs[e]);
      PushIsSafe(w, s, s.jobs[e].again);
      JobsStaySafe(w, s, Step(w, s, v), e, Idle, NoJob);
    case CancelExecution =>
    case CancelRow(_) =>
    case Fetch(_) => QuietStepIsSafe(w, s, v);
    case Body(_, _) => QuietStepIsSafe(w, s, v);
    case Decide(_) => QuietStepIsSafe(w, s, v);
    case _ => RowStepIsSafe(w, s, v);
  }

  lemma {:induction false} RunIsSafe(w: Workflow, s: System, run: seq<Event>)
    requires w.Valid() && Safe(w, s) && IsRunOf(w, s, run)
    ensures Safe(w, EndOf(w, s, run))
    decreases |run|
  {
    if run != [] {
      StepIsSafe(w, s, run[0]);
      RunIsSafe(w, Step(w, s, run[0]), run[1..]);
    }
  }

  lemma BegunIsSafe(w: Workflow, now: int, executors: nat)
    ensures Safe(w, Begun(w, now, executors))
  {
    FilterHolds(Ids(w.tasks), n => forall e :: e in w.edges ==> e.target != n);
    IdsAreNodes(w.tasks);
  }

  /**
   Whole-run safety: in every reachable state of every interleaving, with any clock, late
   renewals, retries, crashes and cancellations, a task that is queued or claimed, or whose status is
   neither pending nor cancelled, has had all its predecessors written completed before.
   */
  lemma NothingStartsEarly(w: Workflow, now: int, executors: nat, run: seq<Event>)
    requires w.Valid() && IsRunOf(w, Begun(w, now, executors), run)
    ensures var s := EndOf(w, Begun(w, now, executors), run);
            && (forall t :: t in s.broker.lists.queue ==> Grounded(w, s.everDone, t))
            && (forall e :: 0 <= e < |s.broker.phases| && Carries(s.broker.phases[e]) ==>
                  Grounded(w, s.everDone, s.broker.phases[e].task))
            && (forall t :: t in s.status && s.status[t] !in {Pending, Cancelled} ==> Grounded(w, s.everDone, t))
  {
    BegunIsSafe(w, now, executors);
    RunIsSafe(w, Begun(w, now, executors), run);
    var s := EndOf(w, Begun(w, now, executors), run);
    forall e | 0 <= e < |s.broker.phases| && Carries(s.broker.phases[e])
      ensures Grounded(w, s.everDone, s.broker.phases[e].task)
    {
      assert SafeJob(w, s.everDone, s.broker.phases[e], s.jobs[e]);
    }
  }
}
