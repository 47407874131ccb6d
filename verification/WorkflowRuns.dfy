/**
 One execution of a workflow, run by any number of executors over the protocol of module
 ExecutorProtocol: the database rows, and what each executor is doing with the task it works on
 (task-runner.ts, retry-handler.ts, fan-out-fan-in.ts and `execute` and `cancel` of execution-controller.ts).

 The callback of `TaskClaimer.start` is not in the repository; it is taken to read the task
 state, run it and, once the task has completed and been released, evaluate its downstream on a
 fresh snapshot. Every database write, every Redis call and the reading of a snapshot is one
 step, and steps of different executors interleave freely. A task state id is identified with
 its definition id, since one execution has exactly one state per definition.
 */
module WorkflowRuns {
  import opened Types
  import opened Sequences
  import opened Graphs
  import opened TaskQueues
  import opened LockManagers
  import opened StateMachine
  import opened RetryEngine
  import opened FanOutFanIn
  import opened ExecutorProtocol

  datatype Workflow = Workflow(tasks: seq<TaskDefinition>, edges: seq<Edge>) {
    ghost predicate Valid() {
      && (forall e :: e in edges ==> e.source in NodeSet(tasks) && e.target in NodeSet(tasks))
      && (forall e :: e in edges ==> !HasCondition(e))
      && (forall t :: t in tasks && t.retryPolicy.Some? ==> Validated(t.retryPolicy.value))
    }

    /** The policy of the first definition with this id; ids are unique in the database. */
    function Policy(id: Id): Option<RetryPolicy> {
      PolicyIn(tasks, id)
    }
  }

  function PolicyIn(tasks: seq<TaskDefinition>, id: Id): Option<RetryPolicy> {
    if tasks == [] then None
    else if tasks[0].id == id then tasks[0].retryPolicy
    else PolicyIn(tasks[1..], id)
  }

  /** The policy of a task is that of its definition; an unknown id has none. */
  lemma {:induction false} PolicyTold(tasks: seq<TaskDefinition>, i: nat, id: Id)
    ensures i < |tasks| && (forall j :: 0 <= j < i ==> tasks[j].id != tasks[i].id) ==>
              PolicyIn(tasks, tasks[i].id) == tasks[i].retryPolicy
    ensures (forall t :: t in tasks ==> t.id != id) ==> PolicyIn(tasks, id) == None
    decreases |tasks|
  {
    if tasks != [] {
      assert tasks[0] in tasks && forall t :: t in tasks[1..] ==> t in tasks;
      PolicyTold(tasks[1..], if i > 0 then i - 1 else 0, id);
      if 0 < i < |tasks| {
        assert tasks[1..][i - 1] == tasks[i];
        assert forall j :: 0 <= j < i - 1 ==> tasks[1..][j] == tasks[j + 1];
      }
    }
  }

  datatype Outcome = Success | Failure | Timeout

  /** What follows once the claim has been released. */
  datatype Next = ThenNothing | ThenEvaluate | ThenRetry

  /** Attempts are counted from 1. */
  type Attempt = n: nat | 1 <= n witness 1

  /** A backoff lasts until `until`. */
  datatype Job =
    | NoJob
    | Fetching
    | Fetched(status: Status, attempts: nat)
    | Started(attempts: nat)
    | Executed(attempts: nat, outcome: Outcome)
    | Counted(made: Attempt)
    | Waiting(made: Attempt, until: int)
    | DeadLettered(attempts: nat)
    | Closing(next: Next)
    | Evaluating(done: Id)
    | Enqueueing(rest: seq<Id>)
    | Reenqueueing(again: Id)

  /**
   `cancelling` are the rows that `cancel` has read as pending and has yet to write. `everDone` and
   `bodies` only record the past: which tasks were ever written completed, and body runs.
   */
  datatype System = System(
    broker: Broker, status: States, attempts: map<Id, nat>, dlq: seq<(Id, nat)>, jobs: seq<Job>,
    roots: seq<Id>, cancelling: set<Id>, everDone: set<Id>, bodies: map<Id, nat>)

  datatype Event =
    | Protocol(a: Action)
    | PushRoot
    | Fetch(e: nat)
    | Begin(e: nat)
    | Body(e: nat, outcome: Outcome)
    | Finish(e: nat)
    | Decide(e: nat)
    | Fail(e: nat)
    | Repend(e: nat)
    | Snapshot(e: nat)
    | PushNext(e: nat)
    | PushRetry(e: nat)
    | CancelExecution
    | CancelRow(t: Id)

  /** The rows cover the same tasks, and every executor has a job slot. */
  predicate Shaped(s: System) {
    && |s.jobs| == |s.broker.phases|
    && s.attempts.Keys == s.status.Keys && s.bodies.Keys == s.status.Keys
  }

  predicate WorksWith(s: System, e: nat) {
    && e < |s.jobs| && e < |s.broker.phases|
    && s.broker.phases[e].Working? && s.broker.phases[e].task in s.status
  }

  /** The backoff has passed, or a renewal of the wait has failed. */
  predicate WaitIsOver(s: System, e: nat)
    requires WorksWith(s, e) && s.jobs[e].Waiting?
  {
    s.jobs[e].until <= s.broker.now || !Owns(s.broker.locks, s.broker.now, s.broker.phases[e].task, e)
  }

  predicate IsIdle(s: System, e: nat) {
    e < |s.jobs| && e < |s.broker.phases| && s.broker.phases[e].Idle?
  }

  predicate CanDo(s: System, v: Event) {
    Shaped(s) &&
    match v
    case Protocol(a) => Enabled(s.broker, a) && AllowsAction(s, a)
    case PushRoot => s.roots != []
    case Fetch(e) => WorksWith(s, e) && s.jobs[e].Fetching?
    case Begin(e) => WorksWith(s, e) && s.jobs[e].Fetched?
    case Body(e, _) => WorksWith(s, e) && s.jobs[e].Started? && !s.broker.phases[e].aborted
    case Finish(e) =>
      WorksWith(s, e) && s.jobs[e].Executed? && (s.jobs[e].outcome.Timeout? || !s.broker.phases[e].aborted)
    case Decide(e) => WorksWith(s, e) && s.jobs[e].Counted?
    case Fail(e) => WorksWith(s, e) && s.jobs[e].DeadLettered?
    case Repend(e) => WorksWith(s, e) && s.jobs[e].Waiting? && !s.broker.phases[e].aborted && WaitIsOver(s, e)
    case Snapshot(e) => IsIdle(s, e) && s.jobs[e].Evaluating?
    case PushNext(e) => IsIdle(s, e) && s.jobs[e].Enqueueing?
    case PushRetry(e) => IsIdle(s, e) && s.jobs[e].Reenqueueing?
    case CancelExecution => true
    case CancelRow(t) => t in s.cancelling && t in s.status
  }

  /** When the code of an executor makes the calls of the protocol. */
  predicate AllowsAction(s: System, a: Action)
    requires Shaped(s) && Enabled(s.broker, a)
  {
    match a
    case Tick(_) => true
    case Enqueue(_) => false
    case Claim(e) => s.jobs[e].NoJob?
    case WaitRenew(e) => s.jobs[e].Waiting?
    case ReleaseLock(e) => s.jobs[e].Closing?
    case RemoveClaim(e) => s.jobs[e].Closing?
    case Clear(e) => s.jobs[e].Started? || s.jobs[e].Executed? || s.jobs[e].Waiting?
    case _ => true
  }

  function JobAfter(s: System, a: Action): seq<Job>
    requires Shaped(s) && Enabled(s.broker, a)
  {
    match a
    case TryLock(e) => if Apply(s.broker, a).phases[e].Working? then s.jobs[e := Fetching] else s.jobs
    case RemoveClaim(e) =>
      if s.jobs[e] == Closing(ThenEvaluate) then s.jobs[e := Evaluating(s.broker.phases[e].task)]
      else if s.jobs[e] == Closing(ThenRetry) then s.jobs[e := Reenqueueing(s.broker.phases[e].task)]
      else s.jobs[e := NoJob]
    case Clear(e) => s.jobs[e := NoJob]
    case Crash(e) => s.jobs[e := NoJob]
    case _ => s.jobs
  }

  function PushId(s: System, t: Id): System {
    s.(broker := Apply(s.broker, Enqueue(t)))
  }

  function TaskOf(s: System, e: nat): Id
    requires WorksWith(s, e)
  {
    s.broker.phases[e].task
  }

  // The database steps of `run` and `handleFailure`, by one executor.

  function DoBegin(s: System, e: nat): System
    requires Shaped(s) && WorksWith(s, e) && s.jobs[e].Fetched?
  {
    var t := TaskOf(s, e);
    if CanTransit(s.jobs[e].status, Running) then
      s.(status := s.status[t := Running], jobs := s.jobs[e := Started(s.jobs[e].attempts)])
    else s.(jobs := s.jobs[e := Closing(ThenNothing)])
  }

  function DoFinish(w: Workflow, s: System, e: nat): System
    requires Shaped(s) && WorksWith(s, e) && s.jobs[e].Executed?
  {
    var t := TaskOf(s, e);
    match s.jobs[e].outcome
    case Timeout => s.(status := s.status[t := TimedOut], jobs := s.jobs[e := Closing(ThenNothing)])
    case Success =>
      s.(status := s.status[t := Completed], everDone := s.everDone + {t}, jobs := s.jobs[e := Closing(ThenEvaluate)])
    case Failure =>
      if w.Policy(t).None? then s.(status := s.status[t := Failed], jobs := s.jobs[e := Closing(ThenNothing)])
      else
        var n := s.jobs[e].attempts + 1;
        s.(attempts := s.attempts[t := n], jobs := s.jobs[e := Counted(n)])
  }

  /** The first whole millisecond at which a wait from `now` on is over; a delay of `undefined` is no wait. */
  function WaitEnd(now: int, delay: Option<real>): int {
    if delay.None? then now else now - (-delay.value).Floor
  }

  /** The loop of the wait compares a real delay with the time that has passed. */
  lemma WaitEndIsExact(now: int, delay: Option<real>, later: int)
    requires now <= later
    ensures delay.Some? && ((later - now) as real) < delay.value ==> later < WaitEnd(now, delay)
    ensures later < WaitEnd(now, delay) ==> delay.Some? && ((later - now) as real) < delay.value
  {
  }

  function DoDecide(w: Workflow, s: System, e: nat): System
    requires Shaped(s) && WorksWith(s, e) && s.jobs[e].Counted?
  {
    var t, n := TaskOf(s, e), s.jobs[e].made;
    if w.Policy(t).Some? && ShouldRetry(w.Policy(t).value, n) then
      var until := WaitEnd(s.broker.now, CalculateRetryDelay(w.Policy(t).value, n));
      s.(jobs := s.jobs[e := Waiting(n, until)])
    else s.(dlq := s.dlq + [(t, n)], jobs := s.jobs[e := DeadLettered(n)])
  }

  function Step(w: Workflow, s: System, v: Event): System
    requires CanDo(s, v)
  {
    match v
    case Protocol(a) => s.(broker := Apply(s.broker, a), jobs := JobAfter(s, a))
    case PushRoot => PushId(s, s.roots[0]).(roots := s.roots[1..])
    case Fetch(e) =>
      var t := TaskOf(s, e);
      s.(jobs := s.jobs[e := Fetched(s.status[t], s.attempts[t])])
    case Begin(e) => DoBegin(s, e)
    case Body(e, outcome) =>
      var t := TaskOf(s, e);
      s.(bodies := s.bodies[t := s.bodies[t] + 1], jobs := s.jobs[e := Executed(s.jobs[e].attempts, outcome)])
    case Finish(e) => DoFinish(w, s, e)
    case Decide(e) => DoDecide(w, s, e)
    case Fail(e) => s.(status := s.status[TaskOf(s, e) := Failed], jobs := s.jobs[e := Closing(ThenNothing)])
    case Repend(e) => s.(status := s.status[TaskOf(s, e) := Pending], jobs := s.jobs[e := Closing(ThenRetry)])
    case Snapshot(e) =>
      s.(jobs := s.jobs[e := Enqueueing(Evaluate(w.edges, s.status, s.jobs[e].done, _ => false).ready)])
    case PushNext(e) =>
      if s.jobs[e].rest == [] then s.(jobs := s.jobs[e := NoJob])
      else PushId(s, s.jobs[e].rest[0]).(jobs := s.jobs[e := Enqueueing(s.jobs[e].rest[1..])])
    case PushRetry(e) => PushId(s, s.jobs[e].again).(jobs := s.jobs[e := NoJob])
    case CancelExecution => s.(cancelling := s.cancelling + PendingIds(s.status))
    case CancelRow(t) => s.(status := s.status[t := Cancelled], cancelling := s.cancelling - {t})
  }

  /** `cancel` reads which rows are pending, and then writes exactly these, one at a time. */
  lemma CancelTold(w: Workflow, s: System, t: Id)
    requires Shaped(s)
    ensures t in Step(w, s, CancelExecution).cancelling <==> t in s.cancelling || (t in s.status && s.status[t] == Pending)
    ensures Step(w, s, CancelExecution) == s.(cancelling := Step(w, s, CancelExecution).cancelling)
    ensures t in s.status ==> (CanDo(s, CancelRow(t)) <==> t in s.cancelling)
    ensures t in s.status && t in s.cancelling ==>
              var s' := Step(w, s, CancelRow(t));
              && s'.status[t] == Cancelled && t !in s'.cancelling
              && forall x :: x in s.status && x != t ==> s'.status[x] == s.status[x] && (x in s'.cancelling <==> x in s.cancelling)
  {
  }

  /** `execute`: a pending state per definition, and the tasks that no edge points to still to be enqueued. */
  function Roots(w: Workflow): seq<Id> {
    Filter(Ids(w.tasks), n => forall e :: e in w.edges ==> e.target != n)
  }

  function Begun(w: Workflow, now: int, executors: nat): System {
    System(Start(now, executors), map n | n in NodeSet(w.tasks) :: Pending, map n | n in NodeSet(w.tasks) :: 0,
           [], seq(executors, _ => NoJob), Roots(w), {}, {}, map n | n in NodeSet(w.tasks) :: 0)
  }

  predicate IsRunOf(w: Workflow, s: System, run: seq<Event>)
    decreases |run|
  {
    run != [] ==> CanDo(s, run[0]) && IsRunOf(w, Step(w, s, run[0]), run[1..])
  }

  lemma FirstListedIsPushed(w: Workflow, s: System, e: nat)
    requires CanDo(s, PushNext(e)) && s.jobs[e].rest != []
    ensures var s', rest := Step(w, s, PushNext(e)), s.jobs[e].rest;
            && CanDo(s', PushNext(e)) && s'.jobs == s.jobs[e := Enqueueing(rest[1..])] && s'.status == s.status
            && s'.broker.lists.queue == [rest[0]] + s.broker.lists.queue
            && s'.broker.lists.processing == s.broker.lists.processing
  {
  }

  /** What is listed for executor e has been pushed, as by `enqueueBatch`. */
  ghost predicate HasPushedAll(s: System, s': System, e: nat)
    requires e < |s.jobs| && s.jobs[e].Enqueueing?
  {
    && s'.broker.lists.queue == Reverse(s.jobs[e].rest) + s.broker.lists.queue
    && s'.broker.lists.processing == s.broker.lists.processing && s'.status == s.status
    && s'.jobs == s.jobs[e := Enqueueing([])]
  }

  lemma PushedThenPushed(s: System, next: System, s': System, e: nat)
    requires e < |s.jobs| && s.jobs[e].Enqueueing? && s.jobs[e].rest != []
    requires next.jobs == s.jobs[e := Enqueueing(s.jobs[e].rest[1..])] && next.status == s.status
    requires next.broker.lists.queue == [s.jobs[e].rest[0]] + s.broker.lists.queue
    requires next.broker.lists.processing == s.broker.lists.processing
    requires HasPushedAll(next, s', e)
    ensures HasPushedAll(s, s', e)
  {
    var rest := s.jobs[e].rest;
    assert Reverse(rest) == Reverse(rest[1..]) + [rest[0]];
    assert next.jobs[e := Enqueueing([])] == s.jobs[e := Enqueueing([])];
  }

  /** Pushing what a snapshot lists, one by one and undisturbed, leaves the queue as `enqueueBatch` does. */
  lemma {:induction false} ListedArePushedInOrder(w: Workflow, s: System, e: nat, run: seq<Event>)
    requires CanDo(s, PushNext(e)) && |run| == |s.jobs[e].rest| && forall v :: v in run ==> v == PushNext(e)
    ensures IsRunOf(w, s, run) && HasPushedAll(s, EndOf(w, s, run), e)
    decreases |run|
  {
    if run == [] {
      assert s.jobs[e := Enqueueing([])] == s.jobs;
    } else {
      assert run[0] in run && forall v :: v in run[1..] ==> v in run;
      var next := Step(w, s, PushNext(e));
      FirstListedIsPushed(w, s, e);
      ListedArePushedInOrder(w, next, e, run[1..]);
      PushedThenPushed(s, next, EndOf(w, next, run[1..]), e);
    }
  }

  function EndOf(w: Workflow, s: System, run: seq<Event>): System
    requires IsRunOf(w, s, run)
    decreases |run|
  {
    if run == [] then s else EndOf(w, Step(w, s, run[0]), run[1..])
  }
}
