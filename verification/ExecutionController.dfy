/**
 Starting an execution (services/scheduler-api/src/controllers/execution-controller.ts). The ids
 that the database generates are parameters.
 */
module ExecutionControllers {
  import opened Types
  import opened Sequences
  import opened Graphs
  import opened TaskQueues
  import opened WorkflowRuns
  import DagValidator

  datatype TaskStateRow = TaskStateRow(
    id: Id, executionId: Id, taskDefinitionId: Id, status: Status, attemptCount: nat)

  datatype ExecutionStatus = NotStarted | InProgress(startedAt: int)

  datatype ExecutionRow = ExecutionRow(workflowId: Id, status: ExecutionStatus)

  /** The HTTP answers 404 and 202. */
  datatype Response = NotFound(workflowId: Id) | Accepted(executionId: Id)

  predicate IsRootState(edges: seq<Edge>, row: TaskStateRow) {
    forall e :: e in edges ==> e.target != row.taskDefinitionId
  }

  /** The ids of the states whose definition no edge points to. */
  function RootIds(edges: seq<Edge>, rows: seq<TaskStateRow>): seq<Id> {
    if rows == [] then []
    else (if IsRootState(edges, rows[0]) then [rows[0].id] else []) + RootIds(edges, rows[1..])
  }

  lemma PushFirst(queue: seq<Id>, x: Id, rest: seq<Id>)
    ensures LpushAll(queue, [x] + rest) == LpushAll(Lpush(queue, x), rest)
  {
    assert ([x] + rest)[0] == x && ([x] + rest)[1..] == rest;
  }

  lemma NextRoot(edges: seq<Edge>, rows: seq<TaskStateRow>, i: nat)
    requires i < |rows|
    ensures RootIds(edges, rows[i..])
            == (if IsRootState(edges, rows[i]) then [rows[i].id] else []) + RootIds(edges, rows[i + 1..])
  {
    assert rows[i..][0] == rows[i] && rows[i..][1..] == rows[i + 1..];
  }

  lemma {:induction false} RootIdsAreRoots(edges: seq<Edge>, rows: seq<TaskStateRow>)
    ensures forall id :: id in RootIds(edges, rows) <==> exists k :: 0 <= k < |rows| && rows[k].id == id && IsRootState(edges, rows[k])
  {
    if rows != [] {
      RootIdsAreRoots(edges, rows[1..]);
      forall id
        ensures id in RootIds(edges, rows) <==> exists k :: 0 <= k < |rows| && rows[k].id == id && IsRootState(edges, rows[k])
      {
        if id in RootIds(edges, rows[1..]) {
          var k :| 0 <= k < |rows| - 1 && rows[1..][k].id == id && IsRootState(edges, rows[1..][k]);
          assert rows[k + 1].id == id && IsRootState(edges, rows[k + 1]);
        }
        if k :| 0 <= k < |rows| && rows[k].id == id && IsRootState(edges, rows[k]) {
          assert k > 0 ==> rows[1..][k - 1] == rows[k];
        }
      }
    }
  }

  /** What `createBatch` inserts: for the i-th definition a pending state of this execution with no attempts. */
  ghost predicate AreStatesOf(rows: seq<TaskStateRow>, executionId: Id, tasks: seq<TaskDefinition>, newId: nat -> Id) {
    && |rows| == |tasks|
    && forall i :: 0 <= i < |tasks| ==>
         && rows[i].id == newId(i) && rows[i].executionId == executionId && rows[i].taskDefinitionId == tasks[i].id
         && rows[i].status == Pending && rows[i].attemptCount == 0
  }

  /** No two of the new ids are the same. */
  ghost predicate NewIdsDiffer(newId: nat -> Id, n: nat) {
    forall i, j :: 0 <= i < j < n ==> newId(i) != newId(j)
  }

  /**
   What `execute` pushes: of the i-th definition exactly when no edge has it as its target, each
   state once, and an earlier one before a later one.
   */
  ghost predicate ArePushedRoots(pushed: seq<Id>, tasks: seq<TaskDefinition>, edges: seq<Edge>, newId: nat -> Id) {
    && (forall i :: 0 <= i < |tasks| ==>
          (newId(i) in pushed <==> forall e :: e in edges ==> e.target != tasks[i].id))
    && ComeInOrder(pushed, newId, 0, |tasks|)
  }

  ghost predicate IsNumbered(x: Id, newId: nat -> Id, from: nat, n: nat) {
    exists i :: from <= i < n && newId(i) == x
  }

  ghost predicate IsLaterOf(x: Id, y: Id, newId: nat -> Id, from: nat, n: nat) {
    exists i, j :: from <= i < j < n && newId(i) == x && newId(j) == y
  }

  /** The ids come in the order of the numbers, below n and not below `from`, that they were made from. */
  ghost predicate ComeInOrder(ids: seq<Id>, newId: nat -> Id, from: nat, n: nat) {
    && (forall k :: 0 <= k < |ids| ==> IsNumbered(ids[k], newId, from, n))
    && (forall k, l :: 0 <= k < l < |ids| ==> IsLaterOf(ids[k], ids[l], newId, from, n))
  }

  lemma FirstComesInOrder(rest: seq<Id>, newId: nat -> Id, first: nat, n: nat)
    requires ComeInOrder(rest, newId, first + 1, n) && first < n
    ensures ComeInOrder([newId(first)] + rest, newId, first, n)
  {
    var ids := [newId(first)] + rest;
    forall k | 0 <= k < |ids| ensures IsNumbered(ids[k], newId, first, n) {
      if k > 0 {
        assert ids[k] == rest[k - 1] && IsNumbered(rest[k - 1], newId, first + 1, n);
      }
    }
    forall k, l | 0 <= k < l < |ids| ensures IsLaterOf(ids[k], ids[l], newId, first, n) {
      assert ids[l] == rest[l - 1];
      if k == 0 {
        assert IsNumbered(rest[l - 1], newId, first + 1, n);
        var j :| first + 1 <= j < n && newId(j) == rest[l - 1];
        assert newId(first) == ids[0];
      } else {
        assert ids[k] == rest[k - 1] && IsLaterOf(rest[k - 1], rest[l - 1], newId, first + 1, n);
        var i, j :| first + 1 <= i < j < n && newId(i) == ids[k] && newId(j) == ids[l];
      }
    }
  }

  lemma LaterComeInOrder(rest: seq<Id>, newId: nat -> Id, first: nat, n: nat)
    requires ComeInOrder(rest, newId, first + 1, n)
    ensures ComeInOrder(rest, newId, first, n)
  {
    forall k | 0 <= k < |rest| ensures IsNumbered(rest[k], newId, first, n) {
      assert IsNumbered(rest[k], newId, first + 1, n);
    }
    forall k, l | 0 <= k < l < |rest| ensures IsLaterOf(rest[k], rest[l], newId, first, n) {
      assert IsLaterOf(rest[k], rest[l], newId, first + 1, n);
    }
  }

  lemma {:induction false} RootIdsInOrder(
    edges: seq<Edge>, rows: seq<TaskStateRow>, newId: nat -> Id, from: nat, n: nat)
    requires from + |rows| == n && forall i :: from <= i < n ==> rows[i - from].id == newId(i)
    ensures ComeInOrder(RootIds(edges, rows), newId, from, n)
    decreases |rows|
  {
    if rows != [] {
      var later := rows[1..];
      var rest := RootIds(edges, later);
      forall i | from + 1 <= i < n ensures later[i - (from + 1)].id == newId(i) {
        assert later[i - (from + 1)] == rows[i - from];
      }
      RootIdsInOrder(edges, later, newId, from + 1, n);
      assert rows[from - from].id == newId(from);
      if IsRootState(edges, rows[0]) {
        FirstComesInOrder(rest, newId, from, n);
      } else {
        LaterComeInOrder(rest, newId, from, n);
        assert [] + rest == rest;
      }
    }
  }

  /** The ids that are pushed, told from the definitions and edges. */
  lemma RootIdsTold(edges: seq<Edge>, tasks: seq<TaskDefinition>, executionId: Id, newId: nat -> Id, rows: seq<TaskStateRow>)
    requires AreStatesOf(rows, executionId, tasks, newId) && NewIdsDiffer(newId, |tasks|)
    ensures ArePushedRoots(RootIds(edges, rows), tasks, edges, newId)
  {
    RootIdsAreRoots(edges, rows);
    RootIdsInOrder(edges, rows, newId, 0, |tasks|);
    var pushed := RootIds(edges, rows);
    forall i | 0 <= i < |tasks|
      ensures newId(i) in pushed <==> forall e :: e in edges ==> e.target != tasks[i].id
    {
      assert rows[i].id == newId(i);
      if k :| 0 <= k < |rows| && rows[k].id == newId(i) && IsRootState(edges, rows[k]) {
        assert k == i;
      }
    }
  }

  /** Naming the states after their definitions, what is enqueued is what the machine of module WorkflowRuns starts with. */
  lemma {:induction false} RootIdsAreTheRootsOfTheRun(
    edges: seq<Edge>, tasks: seq<TaskDefinition>, rows: seq<TaskStateRow>)
    requires |rows| == |tasks|
    requires forall k :: 0 <= k < |rows| ==> rows[k].id == tasks[k].id && rows[k].taskDefinitionId == tasks[k].id
    ensures RootIds(edges, rows) == Roots(Workflow(tasks, edges))
  {
    var keep := n => forall e :: e in edges ==> e.target != n;
    if rows == [] {
      assert Ids(tasks) == [];
    } else {
      RootIdsAreTheRootsOfTheRun(edges, tasks[1..], rows[1..]);
      assert Ids(tasks)[0] == tasks[0].id && Ids(tasks)[1..] == Ids(tasks[1..]);
      assert IsRootState(edges, rows[0]) == keep(Ids(tasks)[0]);
      FilterAgrees(Ids(tasks)[1..], keep, n => forall e :: e in edges ==> e.target != n);
      FilterAgrees(Ids(tasks), keep, n => forall e :: e in edges ==> e.target != n);
    }
  }

  /** With new ids that name the definitions, the machine begins with the rows and the queue that `execute` leaves. */
  lemma RunBeginsWithTheseRows(w: Workflow, executionId: Id, newId: nat -> Id, rows: seq<TaskStateRow>, now: int, executors: nat)
    requires AreStatesOf(rows, executionId, w.tasks, newId)
    requires forall i :: 0 <= i < |w.tasks| ==> newId(i) == w.tasks[i].id
    ensures var s := Begun(w, now, executors);
            && (forall row :: row in rows ==>
                  && row.taskDefinitionId in s.status && s.status[row.taskDefinitionId] == row.status
                  && row.taskDefinitionId in s.attempts && s.attempts[row.taskDefinitionId] == row.attemptCount)
            && (forall n :: n in s.status ==> exists row :: row in rows && row.taskDefinitionId == n)
            && s.roots == RootIds(w.edges, rows)
  {
    RootIdsAreTheRootsOfTheRun(w.edges, w.tasks, rows);
    var s := Begun(w, now, executors);
    forall row | row in rows ensures row.taskDefinitionId in NodeSet(w.tasks) {
      var i :| 0 <= i < |rows| && rows[i] == row;
      assert w.tasks[i] in w.tasks;
    }
    forall n | n in NodeSet(w.tasks) ensures exists row :: row in rows && row.taskDefinitionId == n {
      var i :| 0 <= i < |w.tasks| && w.tasks[i].id == n;
      assert rows[i] in rows;
    }
  }

  /** An accepted workflow with tasks always has something to start with. */
  lemma AcceptedWorkflowsHaveRoots(w: Workflow)
    requires DagValidator.Validation(w.tasks, w.edges) == [] && w.tasks != []
    ensures Roots(w) != []
  {
    var n, keep := w.tasks[0].id, n => forall e :: e in w.edges ==> e.target != n;
    DagValidator.ValidationIsExact(w.tasks, w.edges);
    DagValidator.AcyclicIsReachable(w.tasks, w.edges);
    IdsAreNodes(w.tasks);
    FilterHolds(Ids(w.tasks), n => !Reachable(w.tasks, w.edges, n));
    assert w.tasks[0] in w.tasks && n in NodeSet(w.tasks) && n !in DagValidator.Unreached(w.tasks, w.edges);
    var p :| IsWalk(Arcs(w.edges), p) && IsRoot(w.tasks, w.edges, p[0]) && p[|p| - 1] == n;
    FilterHolds(Ids(w.tasks), keep);
    FilterAgrees(Ids(w.tasks), keep, n => forall e :: e in w.edges ==> e.target != n);
    assert p[0] in Filter(Ids(w.tasks), keep);
  }

  /**
   A new execution has begun: its rows have been added, and the ids of its root states have been
   pushed one after the other. For ids that differ, they are told from the definitions and edges.
   */
  ghost predicate IsBegun(w: Workflow, executionId: Id, newId: nat -> Id,
                          rows: seq<TaskStateRow>, rows': seq<TaskStateRow>, queue: seq<Id>, queue': seq<Id>)
  {
    exists added, pushed ::
      && rows' == rows + added && AreStatesOf(added, executionId, w.tasks, newId)
      && queue' == Reverse(pushed) + queue && pushed == RootIds(w.edges, added)
      && (NewIdsDiffer(newId, |w.tasks|) ==> ArePushedRoots(pushed, w.tasks, w.edges, newId))
  }

  class ExecutionController {
    var workflows: map<Id, Workflow>
    var executions: map<Id, ExecutionRow>
    var taskStates: seq<TaskStateRow>
    const taskQueue: TaskQueue

    constructor (workflows: map<Id, Workflow>, taskQueue: TaskQueue)
      ensures this.workflows == workflows && this.taskQueue == taskQueue && executions == map[] && taskStates == []
    {
      this.workflows, this.taskQueue := workflows, taskQueue;
      executions, taskStates := map[], [];
    }

    method CreateBatch(executionId: Id, tasks: seq<TaskDefinition>, newId: nat -> Id) returns (rows: seq<TaskStateRow>)
      modifies this`taskStates
      ensures AreStatesOf(rows, executionId, tasks, newId) && taskStates == old(taskStates) + rows
    {
      rows := [];
      for i := 0 to |tasks|
        invariant AreStatesOf(rows, executionId, tasks[..i], newId)
      {
        rows := rows + [TaskStateRow(newId(i), executionId, tasks[i].id, Pending, 0)];
      }
      assert tasks[..|tasks|] == tasks;
      taskStates := taskStates + rows;
    }

    /** The loop over the new states: those whose definition no edge points to are enqueued. */
    method EnqueueRoots(edges: seq<Edge>, rows: seq<TaskStateRow>)
      modifies taskQueue
      ensures taskQueue.queue == Reverse(RootIds(edges, rows)) + old(taskQueue.queue)
      ensures taskQueue.processing == old(taskQueue.processing)
    {
      var targetIds := set e | e in edges :: e.target;
      for i := 0 to |rows|
        invariant taskQueue.processing == old(taskQueue.processing)
        invariant LpushAll(taskQueue.queue, RootIds(edges, rows[i..])) == LpushAll(old(taskQueue.queue), RootIds(edges, rows))
      {
        NextRoot(edges, rows, i);
        assert rows[i].taskDefinitionId !in targetIds <==> IsRootState(edges, rows[i]);
        if rows[i].taskDefinitionId !in targetIds {
          PushFirst(taskQueue.queue, rows[i].id, RootIds(edges, rows[i + 1..]));
          taskQueue.Enqueue(rows[i].id);
        } else {
          assert [] + RootIds(edges, rows[i + 1..]) == RootIds(edges, rows[i + 1..]);
        }
      }
    }

    /** The rows of a new execution, and the ids that go to the queue. */
    method CreateStates(workflow: Workflow, executionId: Id, newId: nat -> Id)
      modifies this`taskStates, taskQueue
      ensures taskQueue.processing == old(taskQueue.processing)
      ensures IsBegun(workflow, executionId, newId, old(taskStates), taskStates, old(taskQueue.queue), taskQueue.queue)
    {
      var rows := CreateBatch(executionId, workflow.tasks, newId);
      EnqueueRoots(workflow.edges, rows);
      if NewIdsDiffer(newId, |workflow.tasks|) {
        RootIdsTold(workflow.edges, workflow.tasks, executionId, newId, rows);
      }
    }

    method Execute(workflowId: Id, executionId: Id, newId: nat -> Id, now: int) returns (r: Response)
      modifies this, taskQueue
      ensures workflows == old(workflows) && taskQueue.processing == old(taskQueue.processing)
      ensures workflowId !in workflows ==>
                r == NotFound(workflowId) && executions == old(executions) && taskStates == old(taskStates)
                && taskQueue.queue == old(taskQueue.queue)
      ensures workflowId in workflows ==>
                && r == Accepted(executionId)
                && executions == old(executions)[executionId := ExecutionRow(workflowId, InProgress(now))]
                && IsBegun(workflows[workflowId], executionId, newId, old(taskStates), taskStates,
                           old(taskQueue.queue), taskQueue.queue)
    {
      if workflowId !in workflows {
        return NotFound(workflowId);
      }
      var workflow := workflows[workflowId];
      executions := executions[executionId := ExecutionRow(workflowId, NotStarted)];
      CreateStates(workflow, executionId, newId);
      executions := executions[executionId := ExecutionRow(workflowId, InProgress(now))];
      return Accepted(executionId);
    }
  }
}
