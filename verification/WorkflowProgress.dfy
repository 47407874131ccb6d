/**
 What is left when nothing is queued, running or awaiting evaluation: with timely renewals and
 no crash, every task has ended, or stays pending because a task it depends on failed, timed
 out or was cancelled.
 */
module WorkflowProgress {
  import opened Types
  import opened Sequences
  import opened Graphs
  import opened TaskQueues
  import opened StateMachine
  import opened FanOutFanIn
  import opened ExecutorProtocol
  import opened WorkflowRuns
  import opened WorkflowSafety
  import opened RetryLedger

  // ----- What keeps a pending task alive -----

  /** An executor that will enqueue or start `v`. */
  predicate Covers(p: Phase, j: Job, v: Id) {
    || ((p.Popped? || p.Denied? || p.Holding?) && p.task == v)
    || (p.Working? && p.task == v && (j.Fetching? || (j.Fetched? && j.status == Pending) || j == Closing(ThenRetry)))
    || (p.Unlocking? && p.task == v && j == Closing(ThenRetry))
    || (j.Enqueueing? && v in j.rest)
    || (j.Reenqueueing? && j.again == v)
  }

  /** An executor that has completed `u` and will evaluate its downstream on a later snapshot. */
  predicate Awaits(p: Phase, j: Job, u: Id) {
    || ((p.Working? || p.Unlocking?) && p.task == u && j == Closing(ThenEvaluate))
    || j == Evaluating(u)
  }

  predicate CoversAt(s: System, e: nat, v: Id) {
    e < |s.jobs| && e < |s.broker.phases| && Covers(s.broker.phases[e], s.jobs[e], v)
  }

  predicate AwaitsAt(s: System, e: nat, u: Id) {
    e < |s.jobs| && e < |s.broker.phases| && Awaits(s.broker.phases[e], s.jobs[e], u)
  }

  ghost predicate Scheduled(s: System, v: Id) {
    v in s.broker.lists.queue || v in s.roots || exists e: nat :: CoversAt(s, e, v)
  }

  /** A predecessor that is not completed, or whose completion has not been evaluated. */
  ghost predicate Unevaluated(s: System, u: Id) {
    (u in s.status && s.status[u] != Completed) || exists e: nat :: AwaitsAt(s, e, u)
  }

  ghost predicate Alive(w: Workflow, s: System, v: Id) {
    Scheduled(s, v) || exists e :: e in w.edges && e.target == v && Unevaluated(s, e.source)
  }

  ghost predicate AllAlive(w: Workflow, s: System) {
    forall v :: IsPending(s.status, v) ==> Alive(w, s, v)
  }

  predicate RunsAt(s: System, e: nat, t: Id) {
    WorksWith(s, e) && TaskOf(s, e) == t && IsInRun(s.jobs[e])
  }

  ghost predicate Manned(s: System) {
    forall t :: t in s.status && s.status[t] == Running ==> exists e: nat :: RunsAt(s, e, t)
  }

  ghost predicate Live(w: Workflow, s: System) {
    s.status.Keys == NodeSet(w.tasks) && AllAlive(w, s) && Manned(s)
  }

  /** What a step of executor `e` owes to the others. */
  ghost predicate KeepsOthers(s: System, s': System, e: nat) {
    && |s.jobs| == |s.broker.phases| == |s'.jobs| == |s'.broker.phases|
    && s'.status.Keys == s.status.Keys
    && forall f :: 0 <= f < |s.jobs| && f != e ==>
         s'.jobs[f] == s.jobs[f] && s'.broker.phases[f] == s.broker.phases[f]
  }

  ghost predicate KeepsAlive(s: System, s': System, e: nat) {
    && (forall v :: v in s.broker.lists.queue || v in s.roots || CoversAt(s, e, v) ==>
          !IsPending(s'.status, v) || v in s'.broker.lists.queue || v in s'.roots || CoversAt(s', e, v))
    && (forall v :: IsPending(s'.status, v) && !IsPending(s.status, v) ==> CoversAt(s', e, v))
    && (forall u :: u in s.status && u in s'.status && s.status[u] != Completed && s'.status[u] == Completed ==> AwaitsAt(s', e, u))
    && (forall u :: AwaitsAt(s, e, u) ==> AwaitsAt(s', e, u))
  }

  ghost predicate KeepsManned(s: System, s': System, e: nat) {
    forall t :: t in s.status && t in s'.status && s'.status[t] == Running && (s.status[t] != Running || RunsAt(s, e, t)) ==> RunsAt(s', e, t)
  }

  lemma StaysLive(w: Workflow, s: System, s': System, e: nat)
    requires w.Valid() && Live(w, s) && KeepsOthers(s, s', e) && KeepsAlive(s, s', e) && KeepsManned(s, s', e)
    ensures Live(w, s')
  {
    forall f: nat, v | f != e && CoversAt(s, f, v) ensures CoversAt(s', f, v) { }
    forall f: nat, u | AwaitsAt(s, f, u) ensures AwaitsAt(s', f, u) { }
    forall v | IsPending(s'.status, v) ensures Alive(w, s', v) {
      if IsPending(s.status, v) && !Scheduled(s, v) {
        var d :| d in w.edges && d.target == v && Unevaluated(s, d.source);
        assert Unevaluated(s', d.source);
      } else if IsPending(s.status, v) && !(v in s.broker.lists.queue || v in s.roots || CoversAt(s, e, v)) {
        var f: nat :| CoversAt(s, f, v);
        assert CoversAt(s', f, v);
      }
    }
    forall t | t in s'.status && s'.status[t] == Running ensures exists f: nat :: RunsAt(s', f, t) {
      if s.status[t] == Running && !RunsAt(s, e, t) {
        var f: nat :| RunsAt(s, f, t);
        assert RunsAt(s', f, t);
      }
    }
  }

  // ----- Every step of a crash-free timely run keeps the system live -----

  ghost predicate Good(w: Workflow, s: System) {
    Accounted(w, s) && Safe(w, s) && Live(w, s)
  }

  /** One executor moves; rows, queue and roots stay as they are. */
  lemma MoveStaysLive(w: Workflow, s: System, s': System, e: nat, p: Phase, j: Job)
    requires w.Valid() && Live(w, s) && e < |s.jobs| == |s.broker.phases|
    requires s'.broker.phases == s.broker.phases[e := p] && s'.jobs == s.jobs[e := j]
    requires s'.broker.lists.queue == s.broker.lists.queue && s'.roots == s.roots && s'.status == s.status
    requires forall v :: Covers(s.broker.phases[e], s.jobs[e], v) && IsPending(s.status, v) ==> Covers(p, j, v)
    requires forall u :: Awaits(s.broker.phases[e], s.jobs[e], u) ==> Awaits(p, j, u)
    requires s.broker.phases[e].Working? && IsInRun(s.jobs[e]) ==>
      p.Working? && p.task == s.broker.phases[e].task && IsInRun(j)
    ensures Live(w, s')
  {
    StaysLive(w, s, s', e);
  }

  /** An executor writes the status of the task it works on. */
  lemma WriteStaysLive(w: Workflow, s: System, s': System, e: nat, x: Status, j: Job)
    requires w.Valid() && Live(w, s) && WorksWith(s, e) && |s.jobs| == |s.broker.phases|
    requires s'.broker == s.broker && s'.roots == s.roots && s'.jobs == s.jobs[e := j]
    requires s'.status == s.status[TaskOf(s, e) := x]
    requires !s.jobs[e].Enqueueing? && !s.jobs[e].Reenqueueing? && !s.jobs[e].Evaluating? && !s.jobs[e].Closing?
    requires x == Pending ==> j == Closing(ThenRetry)
    requires x == Completed ==> j == Closing(ThenEvaluate)
    requires x == Running ==> IsInRun(j)
    ensures Live(w, s')
  {
    StaysLive(w, s, s', e);
  }

  lemma TryLockKeepsLive(w: Workflow, s: System, e: nat)
    requires w.Valid() && SafeJobs(w, s) && Live(w, s) && CanDo(s, Protocol(TryLock(e)))
    ensures Live(w, Step(w, s, Protocol(TryLock(e))))
  {
    var s' := Step(w, s, Protocol(TryLock(e)));
    var p', j' := s'.broker.phases[e], s'.jobs[e];
    assert SafeJob(w, s.everDone, s.broker.phases[e], s.jobs[e]);
    MoveStaysLive(w, s, s', e, p', j');
  }

  lemma ReleaseLockKeepsLive(w: Workflow, s: System, e: nat)
    requires w.Valid() && SafeJobs(w, s) && Live(w, s) && CanDo(s, Protocol(ReleaseLock(e)))
    ensures Live(w, Step(w, s, Protocol(ReleaseLock(e))))
  {
    var s' := Step(w, s, Protocol(ReleaseLock(e)));
    var p' := s'.broker.phases[e];
    assert SafeJob(w, s.everDone, s.broker.phases[e], s.jobs[e]);
    MoveStaysLive(w, s, s', e, p', s.jobs[e]);
  }

  lemma RenewalKeepsLive(w: Workflow, s: System, a: Action)
    requires w.Valid() && SafeJobs(w, s) && Live(w, s) && CanDo(s, Protocol(a)) && (a.TimerRenew? || a.WaitRenew?)
    ensures Live(w, Step(w, s, Protocol(a)))
  {
    var s' := Step(w, s, Protocol(a));
    var p' := s'.broker.phases[a.e];
    assert SafeJob(w, s.everDone, s.broker.phases[a.e], s.jobs[a.e]);
    MoveStaysLive(w, s, s', a.e, p', s.jobs[a.e]);
  }

  lemma LockActionKeepsLive(w: Workflow, s: System, a: Action)
    requires w.Valid() && SafeJobs(w, s) && Live(w, s) && CanDo(s, Protocol(a)) && IsLockAction(a)
    ensures Live(w, Step(w, s, Protocol(a)))
  {
    match a
    case TryLock(e) => TryLockKeepsLive(w, s, e);
    case ReleaseLock(e) => ReleaseLockKeepsLive(w, s, e);
    case _ => RenewalKeepsLive(w, s, a);
  }

  lemma ClaimKeepsLive(w: Workflow, s: System, e: nat)
    requires w.Valid() && Live(w, s) && CanDo(s, Protocol(Action.Claim(e)))
    ensures Live(w, Step(w, s, Protocol(Action.Claim(e))))
  {
    var queue := s.broker.lists.queue;
    var s' := Step(w, s, Protocol(Action.Claim(e)));
    assert queue == s'.broker.lists.queue + [s'.broker.phases[e].task];
    StaysLive(w, s, s', e);
  }

  lemma RequeuePushKeepsLive(w: Workflow, s: System, e: nat)
    requires w.Valid() && SafeJobs(w, s) && Live(w, s) && CanDo(s, Protocol(RequeuePush(e)))
    ensures Live(w, Step(w, s, Protocol(RequeuePush(e))))
  {
    assert SafeJob(w, s.everDone, s.broker.phases[e], s.jobs[e]);
    StaysLive(w, s, Step(w, s, Protocol(RequeuePush(e))), e);
  }

  lemma RemovalKeepsLive(w: Workflow, s: System, a: Action)
    requires w.Valid() && SafeJobs(w, s) && Live(w, s) && CanDo(s, Protocol(a)) && (a.RequeueRemove? || a.RemoveClaim?)
    ensures Live(w, Step(w, s, Protocol(a)))
  {
    var s' := Step(w, s, Protocol(a));
    assert SafeJob(w, s.everDone, s.broker.phases[a.e], s.jobs[a.e]);
    match a
    case RequeueRemove(e) => MoveStaysLive(w, s, s', e, Holding(s.broker.phases[e].task), s.jobs[e]);
    case RemoveClaim(e) => MoveStaysLive(w, s, s', e, Idle, s'.jobs[e]);
  }

  lemma FetchKeepsLive(w: Workflow, s: System, e: nat)
    requires w.Valid() && Live(w, s) && CanDo(s, Fetch(e))
    ensures Live(w, Step(w, s, Fetch(e)))
  {
    var t := TaskOf(s, e);
    MoveStaysLive(w, s, Step(w, s, Fetch(e)), e, s.broker.phases[e], Fetched(s.status[t], s.attempts[t]));
  }

  lemma BodyKeepsLive(w: Workflow, s: System, e: nat, outcome: WorkflowRuns.Outcome)
    requires w.Valid() && Live(w, s) && CanDo(s, Body(e, outcome))
    ensures Live(w, Step(w, s, Body(e, outcome)))
  {
    var s' := Step(w, s, Body(e, outcome));
    MoveStaysLive(w, s, s', e, s.broker.phases[e], Executed(s.jobs[e].attempts, outcome));
  }

  lemma DecisionIsInRun(w: Workflow, s: System, e: nat)
    requires CanDo(s, Decide(e))
    ensures var s' := Step(w, s, Decide(e));
            && s'.broker == s.broker && s'.roots == s.roots && s'.status == s.status
            && s'.jobs == s.jobs[e := s'.jobs[e]] && IsInRun(s'.jobs[e])
  {
  }

  lemma DecideKeepsLive(w: Workflow, s: System, e: nat)
    requires w.Valid() && Live(w, s) && CanDo(s, Decide(e))
    ensures Live(w, Step(w, s, Decide(e)))
  {
    var s' := Step(w, s, Decide(e));
    DecisionIsInRun(w, s, e);
    MoveStaysLive(w, s, s', e, s.broker.phases[e], s'.jobs[e]);
  }

  lemma BeginKeepsLive(w: Workflow, s: System, e: nat)
    requires w.Valid() && Live(w, s) && CanDo(s, Begin(e))
    requires Knows(w, TaskOf(s, e), RowOf(s, TaskOf(s, e)), s.jobs[e])
    ensures Live(w, Step(w, s, Begin(e)))
  {
    var s' := Step(w, s, Begin(e));
    if CanTransit(s.jobs[e].status, Running) {
      WriteStaysLive(w, s, s', e, Running, s'.jobs[e]);
    } else {
      MoveStaysLive(w, s, s', e, s.broker.phases[e], Closing(ThenNothing));
    }
  }

  lemma FinishKeepsLive(w: Workflow, s: System, e: nat)
    requires w.Valid() && Live(w, s) && CanDo(s, Finish(e))
    ensures Live(w, Step(w, s, Finish(e)))
  {
    var s' := Step(w, s, Finish(e));
    match s.jobs[e].outcome
    case Timeout => WriteStaysLive(w, s, s', e, TimedOut, Closing(ThenNothing));
    case Success => WriteStaysLive(w, s, s', e, Completed, Closing(ThenEvaluate));
    case Failure =>
      if w.Policy(TaskOf(s, e)).None? {
        WriteStaysLive(w, s, s', e, Failed, Closing(ThenNothing));
      } else {
        MoveStaysLive(w, s, s', e, s.broker.phases[e], s'.jobs[e]);
      }
  }

  /** A snapshot that does not list a pending successor has another predecessor that is not completed. */
  lemma SnapshotKeepsLive(w: Workflow, s: System, e: nat)
    requires w.Valid() && SafeRows(w, s) && Live(w, s) && CanDo(s, Snapshot(e))
    ensures Live(w, Step(w, s, Snapshot(e)))
  {
    var u, s' := s.jobs[e].done, Step(w, s, Snapshot(e));
    var ok := v => IsPending(s.status, v) && IsReady(w.edges, s.status, v);
    UnconditionalEvaluationIsExact(w.edges, s.status, u, _ => false);
    FilterHolds(Targets(w.edges, u), ok);
    var ready := s'.jobs[e].rest;
    forall f: nat, v | CoversAt(s, f, v) ensures CoversAt(s', f, v) { }
    forall f: nat, x | AwaitsAt(s, f, x) && x != u ensures AwaitsAt(s', f, x) { }
    forall v | IsPending(s'.status, v) ensures Alive(w, s', v) {
      if !Scheduled(s, v) {
        var d :| d in w.edges && d.target == v && Unevaluated(s, d.source);
        if d.source == u && (u in s.status && s.status[u] == Completed) {
          SnapshotDecides(w, s, u, v);
          TargetsAreArcs(w.edges, u, v);
          if v in ready {
            assert CoversAt(s', e, v);
          }
        } else {
          assert Unevaluated(s', d.source);
        }
      }
    }
    forall t | t in s'.status && s'.status[t] == Running ensures exists f: nat :: RunsAt(s', f, t) {
      var f: nat :| RunsAt(s, f, t);
      assert RunsAt(s', f, t);
    }
  }

  lemma SnapshotDecides(w: Workflow, s: System, u: Id, v: Id)
    requires w.Valid() && SafeRows(w, s) && s.status.Keys == NodeSet(w.tasks)
    requires (u, v) in Arcs(w.edges) && u in s.status && s.status[u] == Completed
    ensures IsReady(w.edges, s.status, v)
            || exists d :: d in w.edges && d.target == v && d.source in s.status && s.status[d.source] != Completed
  {
    var e :| e in w.edges && (e.source, e.target) == (u, v);
    if forall d :: d in w.edges && d.target == v && d.source in s.status ==> s.status[d.source] == Completed {
      assert IsReady(w.edges, s.status, v);
    }
  }

  lemma PushRootKeepsLive(w: Workflow, s: System)
    requires w.Valid() && Live(w, s) && CanDo(s, PushRoot)
    ensures Live(w, Step(w, s, PushRoot))
  {
    var s' := Step(w, s, PushRoot);
    assert s.roots == [s.roots[0]] + s'.roots;
    StaysLive(w, s, s', |s.jobs|);
  }

  lemma PushNextKeepsLive(w: Workflow, s: System, e: nat)
    requires w.Valid() && Live(w, s) && CanDo(s, PushNext(e))
    ensures Live(w, Step(w, s, PushNext(e)))
  {
    var rest, s' := s.jobs[e].rest, Step(w, s, PushNext(e));
    if rest == [] {
      MoveStaysLive(w, s, s', e, Idle, NoJob);
    } else {
      assert rest == [rest[0]] + rest[1..];
      StaysLive(w, s, s', e);
    }
  }

  lemma PushRetryKeepsLive(w: Workflow, s: System, e: nat)
    requires w.Valid() && Live(w, s) && CanDo(s, PushRetry(e))
    ensures Live(w, Step(w, s, PushRetry(e)))
  {
    StaysLive(w, s, Step(w, s, PushRetry(e)), e);
  }

  lemma ActionKeepsLive(w: Workflow, s: System, a: Action)
    requires Good(w, s) && CanDo(s, Protocol(a)) && !a.Crash?
    ensures Live(w, Step(w, s, Protocol(a)))
  {
    match a
    case Tick(_) => StaysLive(w, s, Step(w, s, Protocol(a)), |s.jobs|);
    case Claim(e) => ClaimKeepsLive(w, s, e);
    case RequeuePush(e) => RequeuePushKeepsLive(w, s, e);
    case RequeueRemove(_) => RemovalKeepsLive(w, s, a);
    case RemoveClaim(_) => RemovalKeepsLive(w, s, a);
    case Clear(e) => assert false;
    case _ => LockActionKeepsLive(w, s, a);
  }

  lemma FailKeepsLive(w: Workflow, s: System, e: nat)
    requires w.Valid() && Live(w, s) && CanDo(s, Fail(e))
    ensures Live(w, Step(w, s, Fail(e)))
  {
    WriteStaysLive(w, s, Step(w, s, Fail(e)), e, Failed, Closing(ThenNothing));
  }

  lemma RependKeepsLive(w: Workflow, s: System, e: nat)
    requires w.Valid() && Live(w, s) && CanDo(s, Repend(e))
    ensures Live(w, Step(w, s, Repend(e)))
  {
    WriteStaysLive(w, s, Step(w, s, Repend(e)), e, Pending, Closing(ThenRetry));
  }

  lemma RowStepKeepsLive(w: Workflow, s: System, v: Event)
    requires Good(w, s) && CanDo(s, v) && IsRowStep(v)
    ensures Live(w, Step(w, s, v))
  {
    match v
    case Fetch(e) => FetchKeepsLive(w, s, e);
    case Begin(e) => BeginKeepsLive(w, s, e);
    case Body(e, outcome) => BodyKeepsLive(w, s, e, outcome);
    case Finish(e) => FinishKeepsLive(w, s, e);
    case Decide(e) => DecideKeepsLive(w, s, e);
    case Fail(e) => FailKeepsLive(w, s, e);
    case Repend(e) => RependKeepsLive(w, s, e);
  }

  lemma CancelKeepsLive(w: Workflow, s: System, v: Event)
    requires w.Valid() && Live(w, s) && CanDo(s, v) && (v.CancelExecution? || v.CancelRow?)
    requires |s.jobs| == |s.broker.phases| && IsOnTime(s, v)
    ensures Live(w, Step(w, s, v))
  {
    StaysLive(w, s, Step(w, s, v), |s.jobs|);
  }

  lemma StepKeepsLive(w: Workflow, s: System, v: Event)
    requires Good(w, s) && CanDo(s, v) && (v.Protocol? ==> !v.a.Crash?) && IsOnTime(s, v)
    ensures Live(w, Step(w, s, v))
  {
    if IsRowStep(v) {
      RowStepKeepsLive(w, s, v);
    } else {
      match v
      case Protocol(a) => ActionKeepsLive(w, s, a);
      case PushRoot => PushRootKeepsLive(w, s);
      case Snapshot(e) => SnapshotKeepsLive(w, s, e);
      case PushNext(e) => PushNextKeepsLive(w, s, e);
      case PushRetry(e) => PushRetryKeepsLive(w, s, e);
      case _ => CancelKeepsLive(w, s, v);
    }
  }
}
