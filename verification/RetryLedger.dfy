/**
 What the rows of a task say while renewals are timely: executors know the row they work on, a
 completed task stays completed, and attempts, body runs and dead letters account for each other.
 */
module RetryLedger {
  import opened Types
  import opened Graphs
  import opened StateMachine
  import opened RetryEngine
  import opened FanOutFanIn
  import opened ExecutorProtocol
  import opened WorkflowRuns

  /** How often a body may run: maxAttempts, or once without a policy. */
  function Limit(w: Workflow, t: Id): int {
    match w.Policy(t)
    case None => 1
    case Some(p) => p.maxAttempts.Floor
  }

  lemma {:induction false} PolicyIsValidated(tasks: seq<TaskDefinition>, t: Id)
    requires forall d :: d in tasks && d.retryPolicy.Some? ==> Validated(d.retryPolicy.value)
    ensures PolicyIn(tasks, t).Some? ==> Validated(PolicyIn(tasks, t).value)
  {
    if tasks != [] {
      assert tasks[0] in tasks && forall d :: d in tasks[1..] ==> d in tasks;
      PolicyIsValidated(tasks[1..], t);
    }
  }

  lemma LimitDecides(w: Workflow, t: Id, n: nat)
    requires w.Valid()
    ensures 1 <= Limit(w, t) <= 10
    ensures w.Policy(t).Some? ==> (ShouldRetry(w.Policy(t).value, n) <==> n < Limit(w, t))
  {
    PolicyIsValidated(w.tasks, t);
  }

  function DeadLetters(dlq: seq<(Id, nat)>, t: Id): seq<nat> {
    if dlq == [] then [] else
      var last := dlq[|dlq| - 1];
      DeadLetters(dlq[..|dlq| - 1], t) + (if last.0 == t then [last.1] else [])
  }

  datatype Row = Row(status: Status, attempts: nat, bodies: nat, dead: seq<nat>)

  function RowOf(s: System, t: Id): Row
    requires Shaped(s) && t in s.status
  {
    Row(s.status[t], s.attempts[t], s.bodies[t], DeadLetters(s.dlq, t))
  }

  predicate RowOk(w: Workflow, t: Id, r: Row) {
    var limit := Limit(w, t);
    match r.status
    case Pending => r.bodies == r.attempts < limit && r.dead == []
    case Running => r.bodies <= limit && r.attempts <= limit && (r.dead == [] || r.dead == [limit])
    case Failed =>
      && r.bodies == limit
      && (if w.Policy(t).Some? then r.attempts == limit && r.dead == [limit]
          else r.attempts + 1 == limit && r.dead == [])
    case Completed => r.bodies == r.attempts + 1 <= limit && r.dead == []
    case TimedOut => r.bodies == r.attempts + 1 <= limit && r.dead == []
    case Cancelled => r.bodies == r.attempts < limit && r.dead == []
    case _ => false
  }

  /** What an executor that holds the lock knows about the row, at each point of run and handleFailure. */
  predicate Knows(w: Workflow, t: Id, r: Row, j: Job) {
    var limit := Limit(w, t);
    match j
    case Fetched(status, n) => n == r.attempts && (status == r.status || (status == Pending && r.status == Cancelled))
    case Started(n) => r.status == Running && n == r.attempts == r.bodies < limit && r.dead == []
    case Executed(n, _) => r.status == Running && n == r.attempts < limit && r.bodies == n + 1 && r.dead == []
    case Counted(n) =>
      w.Policy(t).Some? && r.status == Running && n == r.attempts == r.bodies <= limit && r.dead == []
    case Waiting(n, _) =>
      w.Policy(t).Some? && r.status == Running && n == r.attempts == r.bodies < limit && r.dead == []
    case DeadLettered(n) =>
      w.Policy(t).Some? && r.status == Running && n == r.attempts == r.bodies == limit && r.dead == [limit]
    case Closing(next) =>
      (next.ThenEvaluate? ==> r.status == Completed) && (next.ThenRetry? ==> r.status == Pending || r.status == Cancelled)
    case _ => true
  }

  ghost predicate Ledger(w: Workflow, s: System) {
    && Shaped(s)
    && (forall t :: t in s.status ==> RowOk(w, t, RowOf(s, t)))
    && (forall t :: t in s.everDone ==> t in s.status && s.status[t] == Completed)
    && (forall e: nat :: WorksWith(s, e) ==> Knows(w, TaskOf(s, e), RowOf(s, TaskOf(s, e)), s.jobs[e]))
  }

  /** A step of an executor on the row of its own task: nobody else works on that task. */
  lemma RowChangeKeepsLedger(w: Workflow, s: System, s': System, e: nat)
    requires Ledger(w, s) && Covered(s.broker) && Timely(s.broker) && WorksWith(s, e) && Shaped(s')
    requires s'.broker == s.broker && s'.status.Keys == s.status.Keys
    requires s'.jobs == s.jobs[e := s'.jobs[e]]
    requires var t := TaskOf(s, e);
             && RowOk(w, t, RowOf(s', t)) && Knows(w, t, RowOf(s', t), s'.jobs[e])
             && (s.status[t] == Completed ==> s'.status[t] == Completed)
             && s.everDone <= s'.everDone <= s.everDone + (if s'.status[t] == Completed then {t} else {})
             && forall x :: x in s.status && x != t ==> RowOf(s', x) == RowOf(s, x)
    ensures Ledger(w, s')
  {
    var t := TaskOf(s, e);
    CoveredMeansExclusive(s.broker);
    forall f: nat | WorksWith(s', f) ensures Knows(w, TaskOf(s', f), RowOf(s', TaskOf(s', f)), s'.jobs[f]) {
      assert WorksWith(s, f) && WorksOn(s.broker, f, TaskOf(s, f)) && WorksOn(s.broker, e, t);
    }
    forall x | x in s'.status ensures RowOk(w, x, RowOf(s', x)) {
      assert x != t ==> RowOk(w, x, RowOf(s, x));
    }
  }

  /** A step that leaves the rows alone and moves at most one executor. */
  lemma OtherStepKeepsLedger(w: Workflow, s: System, s': System, e: nat)
    requires Ledger(w, s) && Shaped(s') && |s'.jobs| == |s.jobs|
    requires s'.status == s.status && s'.attempts == s.attempts && s'.bodies == s.bodies && s'.dlq == s.dlq
    requires s'.everDone == s.everDone
    requires forall f :: 0 <= f < |s.jobs| && f != e ==>
      s'.jobs[f] == s.jobs[f] && s'.broker.phases[f] == s.broker.phases[f]
    requires WorksWith(s', e) ==>
      s'.jobs[e].Fetching? || (s'.jobs[e] == s.jobs[e] && WorksWith(s, e) && TaskOf(s', e) == TaskOf(s, e))
    ensures Ledger(w, s')
  {
    forall t | t in s'.status ensures RowOf(s', t) == RowOf(s, t) { }
    forall f: nat | WorksWith(s', f) ensures Knows(w, TaskOf(s', f), RowOf(s', TaskOf(s', f)), s'.jobs[f]) {
      assert f != e ==> WorksWith(s, f) && TaskOf(s', f) == TaskOf(s, f);
    }
  }

  lemma DeadLetterAppends(dlq: seq<(Id, nat)>, t: Id, n: nat)
    ensures DeadLetters(dlq + [(t, n)], t) == DeadLetters(dlq, t) + [n]
    ensures forall x :: x != t ==> DeadLetters(dlq + [(t, n)], x) == DeadLetters(dlq, x)
  {
    assert (dlq + [(t, n)])[..|dlq|] == dlq;
  }

  ghost predicate Accounted(w: Workflow, s: System) {
    w.Valid() && Ledger(w, s) && Covered(s.broker) && Timely(s.broker)
  }

  lemma FetchKeepsLedger(w: Workflow, s: System, e: nat)
    requires Accounted(w, s) && CanDo(s, Fetch(e))
    ensures Ledger(w, Step(w, s, Fetch(e)))
  {
    RowChangeKeepsLedger(w, s, Step(w, s, Fetch(e)), e);
  }

  lemma StartKeepsLedger(w: Workflow, s: System, e: nat)
    requires Accounted(w, s) && CanDo(s, Begin(e)) && CanTransit(s.jobs[e].status, Running)
    ensures Ledger(w, Step(w, s, Begin(e)))
  {
    assert Knows(w, TaskOf(s, e), RowOf(s, TaskOf(s, e)), s.jobs[e]);
    RowChangeKeepsLedger(w, s, Step(w, s, Begin(e)), e);
  }

  lemma RefusalKeepsLedger(w: Workflow, s: System, e: nat)
    requires Accounted(w, s) && CanDo(s, Begin(e)) && !CanTransit(s.jobs[e].status, Running)
    ensures Ledger(w, Step(w, s, Begin(e)))
  {
    RowChangeKeepsLedger(w, s, Step(w, s, Begin(e)), e);
  }

  lemma BeginKeepsLedger(w: Workflow, s: System, e: nat)
    requires Accounted(w, s) && CanDo(s, Begin(e))
    ensures Ledger(w, Step(w, s, Begin(e)))
  {
    if CanTransit(s.jobs[e].status, Running) {
      StartKeepsLedger(w, s, e);
    } else {
      RefusalKeepsLedger(w, s, e);
    }
  }

  lemma BodyKeepsLedger(w: Workflow, s: System, e: nat, outcome: WorkflowRuns.Outcome)
    requires Accounted(w, s) && CanDo(s, Body(e, outcome))
    ensures Ledger(w, Step(w, s, Body(e, outcome)))
  {
    assert Knows(w, TaskOf(s, e), RowOf(s, TaskOf(s, e)), s.jobs[e]);
    RowChangeKeepsLedger(w, s, Step(w, s, Body(e, outcome)), e);
  }

  lemma TimeoutKeepsLedger(w: Workflow, s: System, e: nat)
    requires Accounted(w, s) && CanDo(s, Finish(e)) && s.jobs[e].outcome.Timeout?
    ensures Ledger(w, Step(w, s, Finish(e)))
  {
    assert Knows(w, TaskOf(s, e), RowOf(s, TaskOf(s, e)), s.jobs[e]);
    RowChangeKeepsLedger(w, s, Step(w, s, Finish(e)), e);
  }

  lemma SuccessKeepsLedger(w: Workflow, s: System, e: nat)
    requires Accounted(w, s) && CanDo(s, Finish(e)) && s.jobs[e].outcome.Success?
    ensures Ledger(w, Step(w, s, Finish(e)))
  {
    assert Knows(w, TaskOf(s, e), RowOf(s, TaskOf(s, e)), s.jobs[e]);
    RowChangeKeepsLedger(w, s, Step(w, s, Finish(e)), e);
  }

  lemma FailureKeepsLedger(w: Workflow, s: System, e: nat)
    requires Accounted(w, s) && CanDo(s, Finish(e)) && s.jobs[e].outcome.Failure?
    ensures Ledger(w, Step(w, s, Finish(e)))
  {
    assert Knows(w, TaskOf(s, e), RowOf(s, TaskOf(s, e)), s.jobs[e]);
    if w.Policy(TaskOf(s, e)).None? {
      RowChangeKeepsLedger(w, s, Step(w, s, Finish(e)), e);
    } else {
      RowChangeKeepsLedger(w, s, Step(w, s, Finish(e)), e);
    }
  }

  lemma FinishKeepsLedger(w: Workflow, s: System, e: nat)
    requires Accounted(w, s) && CanDo(s, Finish(e))
    ensures Ledger(w, Step(w, s, Finish(e)))
  {
    match s.jobs[e].outcome
    case Timeout => TimeoutKeepsLedger(w, s, e);
    case Success => SuccessKeepsLedger(w, s, e);
    case Failure => FailureKeepsLedger(w, s, e);
  }

  lemma BackoffKeepsLedger(w: Workflow, s: System, e: nat)
    requires Accounted(w, s) && CanDo(s, Decide(e))
    requires var p := w.Policy(TaskOf(s, e)); p.Some? && ShouldRetry(p.value, s.jobs[e].made)
    ensures Ledger(w, Step(w, s, Decide(e)))
  {
    var t := TaskOf(s, e);
    assert Knows(w, t, RowOf(s, t), s.jobs[e]);
    LimitDecides(w, t, s.jobs[e].made);
    RowChangeKeepsLedger(w, s, Step(w, s, Decide(e)), e);
  }

  lemma DeadLetterKeepsLedger(w: Workflow, s: System, e: nat)
    requires Accounted(w, s) && CanDo(s, Decide(e))
    requires var p := w.Policy(TaskOf(s, e)); !(p.Some? && ShouldRetry(p.value, s.jobs[e].made))
    ensures Ledger(w, Step(w, s, Decide(e)))
  {
    var t, n := TaskOf(s, e), s.jobs[e].made;
    assert Knows(w, t, RowOf(s, t), s.jobs[e]);
    LimitDecides(w, t, n);
    DeadLetterAppends(s.dlq, t, n);
    RowChangeKeepsLedger(w, s, Step(w, s, Decide(e)), e);
  }

  lemma DecideKeepsLedger(w: Workflow, s: System, e: nat)
    requires Accounted(w, s) && CanDo(s, Decide(e))
    ensures Ledger(w, Step(w, s, Decide(e)))
  {
    var p := w.Policy(TaskOf(s, e));
    if p.Some? && ShouldRetry(p.value, s.jobs[e].made) {
      BackoffKeepsLedger(w, s, e);
    } else {
      DeadLetterKeepsLedger(w, s, e);
    }
  }

  lemma FailKeepsLedger(w: Workflow, s: System, e: nat)
    requires Accounted(w, s) && CanDo(s, Fail(e))
    ensures Ledger(w, Step(w, s, Fail(e)))
  {
    assert Knows(w, TaskOf(s, e), RowOf(s, TaskOf(s, e)), s.jobs[e]);
    RowChangeKeepsLedger(w, s, Step(w, s, Fail(e)), e);
  }

  lemma RependKeepsLedger(w: Workflow, s: System, e: nat)
    requires Accounted(w, s) && CanDo(s, Repend(e))
    ensures Ledger(w, Step(w, s, Repend(e)))
  {
    assert Knows(w, TaskOf(s, e), RowOf(s, TaskOf(s, e)), s.jobs[e]);
    RowChangeKeepsLedger(w, s, Step(w, s, Repend(e)), e);
  }

  /** The steps of an executor on the row of its task. */
  predicate IsRowStep(v: Event) {
    v.Fetch? || v.Begin? || v.Body? || v.Finish? || v.Decide? || v.Fail? || v.Repend?
  }

  lemma RowStepKeepsLedger(w: Workflow, s: System, v: Event)
    requires Accounted(w, s) && CanDo(s, v)
    requires IsRowStep(v)
    ensures Ledger(w, Step(w, s, v))
  {
    match v
    case Fetch(e) => FetchKeepsLedger(w, s, e);
    case Begin(e) => BeginKeepsLedger(w, s, e);
    case Body(e, outcome) => BodyKeepsLedger(w, s, e, outcome);
    case Finish(e) => FinishKeepsLedger(w, s, e);
    case Decide(e) => DecideKeepsLedger(w, s, e);
    case Fail(e) => FailKeepsLedger(w, s, e);
    case Repend(e) => RependKeepsLedger(w, s, e);
  }

  lemma RowStepKeepsBroker(w: Workflow, s: System, v: Event)
    requires CanDo(s, v)
    requires IsRowStep(v)
    ensures Step(w, s, v).broker == s.broker
  {
  }

  lemma ActionKeepsLedger(w: Workflow, s: System, a: Action)
    requires Accounted(w, s) && CanDo(s, Protocol(a))
    ensures var s' := Step(w, s, Protocol(a)); Ledger(w, s') && Covered(s'.broker)
  {
    CoveredStep(s.broker, a);
    OtherStepKeepsLedger(w, s, Step(w, s, Protocol(a)), if a.Tick? || a.Enqueue? then 0 else a.e);
  }

  lemma PushKeepsCover(s: System, t: Id)
    requires Covered(s.broker) && Timely(s.broker)
    ensures Covered(PushId(s, t).broker)
  {
    CoveredStep(s.broker, Enqueue(t));
  }

  lemma PushStepKeepsLedger(w: Workflow, s: System, v: Event)
    requires Accounted(w, s) && CanDo(s, v) && (v.PushRoot? || v.PushNext? || v.PushRetry?)
    ensures Ledger(w, Step(w, s, v)) && Covered(Step(w, s, v).broker)
  {
    match v
    case PushRoot =>
      PushKeepsCover(s, s.roots[0]);
      OtherStepKeepsLedger(w, s, Step(w, s, v), 0);
    case PushNext(e) =>
      if s.jobs[e].rest != [] { PushKeepsCover(s, s.jobs[e].rest[0]); }
      OtherStepKeepsLedger(w, s, Step(w, s, v), e);
    case PushRetry(e) =>
      PushKeepsCover(s, s.jobs[e].again);
      OtherStepKeepsLedger(w, s, Step(w, s, v), e);
  }

  /** A row that is cancelled has not changed since it was read. */
  predicate IsOnTime(s: System, v: Event) {
    v.CancelRow? ==> IsPending(s.status, v.t)
  }

  lemma CancelKeepsLedger(w: Workflow, s: System, t: Id)
    requires Ledger(w, s) && CanDo(s, CancelRow(t)) && IsPending(s.status, t)
    ensures Ledger(w, Step(w, s, CancelRow(t)))
  {
    var s' := Step(w, s, CancelRow(t));
    forall x | x in s'.status ensures RowOk(w, x, RowOf(s', x)) {
      assert RowOk(w, x, RowOf(s, x));
    }
    forall e: nat | WorksWith(s', e) ensures Knows(w, TaskOf(s', e), RowOf(s', TaskOf(s', e)), s'.jobs[e]) {
      assert Knows(w, TaskOf(s, e), RowOf(s, TaskOf(s, e)), s.jobs[e]);
    }
  }

  lemma StepKeepsLedger(w: Workflow, s: System, v: Event)
    requires Accounted(w, s) && CanDo(s, v) && IsOnTime(s, v)
    ensures Ledger(w, Step(w, s, v)) && Covered(Step(w, s, v).broker)
  {
    if IsRowStep(v) {
      RowStepKeepsLedger(w, s, v);
      RowStepKeepsBroker(w, s, v);
    } else {
      match v
      case Protocol(a) => ActionKeepsLedger(w, s, a);
      case Snapshot(e) => OtherStepKeepsLedger(w, s, Step(w, s, v), e);
      case CancelExecution => OtherStepKeepsLedger(w, s, Step(w, s, v), 0);
      case CancelRow(t) => CancelKeepsLedger(w, s, t);
      case _ => PushStepKeepsLedger(w, s, v);
    }
  }

  predicate TimelyRunOf(w: Workflow, s: System, run: seq<Event>)
    requires IsRunOf(w, s, run)
    decreases |run|
  {
    Timely(s.broker) && (run != [] ==> IsOnTime(s, run[0]) && TimelyRunOf(w, Step(w, s, run[0]), run[1..]))
  }

  lemma {:induction false} RunKeepsLedger(w: Workflow, s: System, run: seq<Event>)
    requires w.Valid() && Ledger(w, s) && Covered(s.broker) && IsRunOf(w, s, run) && TimelyRunOf(w, s, run)
    ensures Accounted(w, EndOf(w, s, run))
    decreases |run|
  {
    if run != [] {
      StepKeepsLedger(w, s, run[0]);
      RunKeepsLedger(w, Step(w, s, run[0]), run[1..]);
    }
  }

  lemma BegunKeepsLedger(w: Workflow, now: int, executors: nat)
    requires w.Valid()
    ensures Ledger(w, Begun(w, now, executors)) && Covered(Begun(w, now, executors).broker)
  {
    var s := Begun(w, now, executors);
    forall t | t in s.status ensures RowOk(w, t, RowOf(s, t)) {
      LimitDecides(w, t, 0);
    }
  }
}
